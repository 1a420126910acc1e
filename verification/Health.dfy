/** Readiness: fail closed until every configured type is synced and unexpired. */
module Health {
  import opened Cache

  datatype Verdict =
    | Ready
    | NothingConfigured
    | NeverSynced(kind: string)
    | Expired(kind: string)

  /** Ready at an instant: something is configured, and every configured type is
      recorded with a horizon still ahead. */
  ghost predicate ReadyAt(required: seq<string>, known: map<string, TypeFreshness>, at: int) {
    required != [] && forall k :: k in required ==> k in known && at < known[k].validUntil
  }

  datatype TypeStatus = TypeStatus(
    kind: string, synced: bool, snapshotId: string, fetchedAt: int, validUntil: int, upstreamStale: bool)

  /** A row says what is recorded for its type, and is blank for a type never synced. */
  ghost predicate Reports(st: TypeStatus, kind: string, known: map<string, TypeFreshness>) {
    if kind in known then
      var fr := known[kind];
      st == TypeStatus(kind, true, fr.snapshotId, fr.fetchedAt, fr.validUntil, fr.upstreamStale)
    else st == TypeStatus(kind, false, "", 0, 0, false)
  }

  class State {
    const required: seq<string>
    var known: map<string, TypeFreshness>

    constructor (required: seq<string>)
      ensures this.required == required && known == map[]
    {
      this.required := required;
      known := map[];
    }

    method SetTypeFreshness(kind: string, fr: TypeFreshness)
      modifies this
      ensures known == old(known)[kind := fr]
    {
      known := known[kind := fr];
    }

    /** The verdict is Ready exactly when readiness holds; otherwise it names the
        first configured type that is missing or expired, all earlier ones being fresh. */
    method Judge(at: int) returns (v: Verdict)
      ensures v.Ready? <==> ReadyAt(required, known, at)
      ensures v.NothingConfigured? <==> required == []
      ensures v.NeverSynced? || v.Expired? ==>
        exists i :: 0 <= i < |required| && required[i] == v.kind
          && (v.NeverSynced? <==> v.kind !in known)
          && (v.Expired? ==> known[v.kind].validUntil <= at)
          && forall j :: 0 <= j < i ==> required[j] in known && at < known[required[j]].validUntil
    {
      if |required| == 0 {
        return NothingConfigured;
      }
      var i := 0;
      while i < |required|
        invariant 0 <= i <= |required|
        invariant forall j :: 0 <= j < i ==> required[j] in known && at < known[required[j]].validUntil
      {
        if required[i] !in known {
          return NeverSynced(required[i]);
        }
        if !(at < known[required[i]].validUntil) {
          return Expired(required[i]);
        }
        i := i + 1;
      }
      return Ready;
    }

    /** One row per configured type, in configuration order, the never-synced included. */
    method TypeStatuses() returns (out: seq<TypeStatus>)
      ensures |out| == |required|
      ensures forall i :: 0 <= i < |required| ==>
        out[i].kind == required[i] && (out[i].synced <==> required[i] in known)
      ensures forall i :: 0 <= i < |required| && required[i] in known ==>
        && out[i].snapshotId == known[required[i]].snapshotId
        && out[i].fetchedAt == known[required[i]].fetchedAt
        && out[i].validUntil == known[required[i]].validUntil
        && out[i].upstreamStale == known[required[i]].upstreamStale
      ensures forall i :: 0 <= i < |required| && required[i] !in known ==>
        out[i].snapshotId == "" && out[i].fetchedAt == 0 && out[i].validUntil == 0 && !out[i].upstreamStale
    {
      out := [];
      var i := 0;
      while i < |required|
        invariant 0 <= i <= |required| && |out| == i
        invariant forall j :: 0 <= j < i ==> Reports(out[j], required[j], known)
      {
        var t := required[i];
        var st := TypeStatus(t, false, "", 0, 0, false);
        if t in known {
          var fr := known[t];
          st := TypeStatus(t, true, fr.snapshotId, fr.fetchedAt, fr.validUntil, fr.upstreamStale);
        }
        out := out + [st];
        i := i + 1;
      }
    }
  }
}
