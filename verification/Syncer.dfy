/** The sync loop as the process runs it: one type, then one cycle over all of them. */
module Syncer {
  import opened Wrappers
  import opened Ordering
  import opened Taxonomy
  import opened Keys
  import opened Cache
  import opened Grouping
  import opened Materialize
  import opened Store
  import opened Protocol
  import Health

  /** What the outside world does during one type's sync: the client's answer, the
      clock when it arrived, and the fate of the store requests. */
  datatype Visit = Visit(reply: Reply, receivedAt: int, trip: Trip)

  /** Everything the sync of one type reads and writes. */
  datatype TypeMem = TypeMem(slice: Slice, etag: string, known: Option<TypeFreshness>)

  ghost function SyncTypeSpec(p: Params, m: TypeMem, v: Visit): (TypeMem, bool) {
    var horizon := v.receivedAt + p.ttl;
    match v.reply
    case Failed => (m, false)
    case NotModified =>
      var fr := TypeFreshness(m.etag, v.receivedAt, horizon, false);
      var r := RefreshSpec(m.slice, fr, p.ttl, v.trip);
      (TypeMem(r.0, m.etag, if r.1 then Some(fr) else m.known), r.1)
    case Body(id, anchors, stale) =>
      var fr := TypeFreshness(id, v.receivedAt, horizon, stale);
      var entries := EntriesFor(p.norm, p.kind, id, anchors, stale, v.receivedAt, horizon);
      var r := SwapSpec(m.slice, Material(id, entries, fr), p.ttl, v.trip);
      (TypeMem(r.0, if r.1 then id else m.etag, if r.1 then Some(fr) else m.known), r.1)
  }

  /** A 304 visit, given its freshness. */
  lemma VisitRefreshes(p: Params, m: TypeMem, v: Visit, fr: TypeFreshness)
    requires v.reply.NotModified?
    requires fr == TypeFreshness(m.etag, v.receivedAt, v.receivedAt + p.ttl, false)
    ensures var r := RefreshSpec(m.slice, fr, p.ttl, v.trip);
      SyncTypeSpec(p, m, v) == (TypeMem(r.0, m.etag, if r.1 then Some(fr) else m.known), r.1)
  {
  }

  /** A 200 visit, given its materialization. */
  lemma VisitSwaps(p: Params, m: TypeMem, v: Visit, entries: map<string, Entry>, fr: TypeFreshness)
    requires v.reply.Body?
    requires fr == TypeFreshness(v.reply.id, v.receivedAt, v.receivedAt + p.ttl, v.reply.stale)
    requires entries == EntriesFor(
      p.norm, p.kind, v.reply.id, v.reply.anchors, v.reply.stale, v.receivedAt, v.receivedAt + p.ttl)
    ensures var r := SwapSpec(m.slice, Material(v.reply.id, entries, fr), p.ttl, v.trip);
      SyncTypeSpec(p, m, v)
      == (TypeMem(r.0, if r.1 then v.reply.id else m.etag, if r.1 then Some(fr) else m.known), r.1)
  {
  }

  /** A sync that reports failure without having committed changed nothing at all. */
  lemma UncommittedFailureIsInvisible(p: Params, m: TypeMem, v: Visit)
    requires !SyncTypeSpec(p, m, v).1 && v.trip.outcome != CommittedUnacknowledged
    ensures SyncTypeSpec(p, m, v).0 == m
  {
  }

  // ---- what success means -----------------------------------------------------------

  /** The index, if live, holds a list. */
  predicate IndexReadable(s: Slice, at: int) {
    Live(s, Index, at) ==> s[Index].value.IndexV?
  }

  /** The territories an index read at an instant lists. */
  function ListedAt(s: Slice, at: int): seq<string>
    requires IndexReadable(s, at)
  {
    if Live(s, Index, at) then s[Index].value.territories else []
  }

  /** A sync reports success exactly when the poll was answered, every read went through
      and the transaction was committed and acknowledged. */
  lemma SyncSucceedsIff(p: Params, m: TypeMem, v: Visit)
    ensures SyncTypeSpec(p, m, v).1
      <==> && !v.reply.Failed? && v.trip.outcome == Committed
           && !v.trip.indexFails && IndexReadable(m.slice, v.trip.indexAt)
           && (v.reply.NotModified? ==>
                 var prev := ListedAt(m.slice, v.trip.indexAt);
                 ReadsGoThrough(m.slice, prev, |prev|, v.trip))
  {
    if v.reply.NotModified? && IndexReadable(m.slice, v.trip.indexAt) {
      var prev := ListedAt(m.slice, v.trip.indexAt);
      PatchedOkIff(m.slice, prev, |prev|, v.trip, v.receivedAt + p.ttl);
    }
  }

  /** A success is recorded at the instant the answer arrived, under the answer's
      snapshot, and stored with it. */
  lemma SuccessIsRecorded(p: Params, m: TypeMem, v: Visit)
    requires p.ttl >= SECOND && SyncTypeSpec(p, m, v).1
    ensures var r := SyncTypeSpec(p, m, v).0;
      && r.known.Some? && r.known.value.fetchedAt == v.receivedAt && r.known.value.validUntil == v.receivedAt + p.ttl
      && r.known.value.snapshotId == r.etag && r.etag == (if v.reply.Body? then v.reply.id else m.etag)
      && r.known.value.upstreamStale == (v.reply.Body? && v.reply.stale)
      && Look(r.slice, Freshness) == Some(Cell(FreshV(r.known.value), v.trip.execAt + p.ttl / SECOND * SECOND))
  {
  }

  /** A successful 200 stores its ETag, its index in ascending order, and, for every
      territory an anchor normalizes to, an entry faithful to the answer. */
  lemma SuccessStoresAnswer(p: Params, m: TypeMem, v: Visit)
    requires p.ttl >= SECOND && SyncTypeSpec(p, m, v).1 && v.reply.Body?
    ensures AnswerStored(p, SyncTypeSpec(p, m, v).0.slice, v)
  {
    var prev := SuccessIsSwap(p, m, v);
    SwapStoresAnswer(p, m.slice, prev, v);
  }

  /** The materialization a 200 calls for. */
  function Answer(p: Params, v: Visit): Material
    requires v.reply.Body?
  {
    var horizon := v.receivedAt + p.ttl;
    Material(v.reply.id,
      EntriesFor(p.norm, p.kind, v.reply.id, v.reply.anchors, v.reply.stale, v.receivedAt, horizon),
      TypeFreshness(v.reply.id, v.receivedAt, horizon, v.reply.stale))
  }

  lemma SuccessIsSwap(p: Params, m: TypeMem, v: Visit) returns (prev: seq<string>)
    requires SyncTypeSpec(p, m, v).1 && v.reply.Body?
    ensures SyncTypeSpec(p, m, v).0.slice
      == SwapEffect(m.slice, prev, Answer(p, v), p.ttl / SECOND, v.trip.execAt)
  {
    prev := ReadIndex(m.slice, v.trip.indexAt).value;
  }

  ghost predicate AnswerStored(p: Params, r: Slice, v: Visit)
    requires v.reply.Body?
  {
    var deadline := v.trip.execAt + p.ttl / SECOND * SECOND;
    && Look(r, ETag) == Some(Cell(TextV(v.reply.id), deadline))
    && Index in r && r[Index].deadline == deadline && r[Index].value.IndexV?
    && var ts := r[Index].value.territories;
    && (forall i, j :: 0 <= i < j < |ts| ==> Precedes(ts[i], ts[j]))
    && (forall t :: t in ts <==> CountIn(p.norm, v.reply.anchors, t) > 0)
    && (forall t :: CountIn(p.norm, v.reply.anchors, t) > 0 ==> EntryStored(p, r, v, t))
  }

  lemma SwapStoresAnswer(p: Params, s: Slice, prev: seq<string>, v: Visit)
    requires v.reply.Body?
    ensures AnswerStored(p, SwapEffect(s, prev, Answer(p, v), p.ttl / SECOND, v.trip.execAt), v)
  {
    var r := SwapEffect(s, prev, Answer(p, v), p.ttl / SECOND, v.trip.execAt);
    var ts := SortedOf(Territories(p.norm, v.reply.anchors));
    assert Look(r, ETag).Some? && Look(r, Index) == Some(Cell(IndexV(ts), v.trip.execAt + p.ttl / SECOND * SECOND));
    forall i, j | 0 <= i < j < |ts| ensures Precedes(ts[i], ts[j]) {
      SortedAscends(Territories(p.norm, v.reply.anchors), i, j);
    }
    forall t
      ensures t in ts <==> CountIn(p.norm, v.reply.anchors, t) > 0
      ensures t in ts ==> EntryStored(p, r, v, t)
    {
      GroupNonEmpty(p.norm, v.reply.anchors, t);
      GroupCopies(p.norm, v.reply.anchors, t);
      assert t in ts <==> t in Elements(ts);
      if t in ts {
        EntryIsStored(p, s, prev, v, t);
      }
    }
  }

  lemma EntryIsStored(p: Params, s: Slice, prev: seq<string>, v: Visit, t: string)
    requires v.reply.Body? && t in Territories(p.norm, v.reply.anchors)
    ensures EntryStored(p, SwapEffect(s, prev, Answer(p, v), p.ttl / SECOND, v.trip.execAt), v, t)
  {
    GroupNonEmpty(p.norm, v.reply.anchors, t);
    GroupCopies(p.norm, v.reply.anchors, t);
    assert Look(SwapEffect(s, prev, Answer(p, v), p.ttl / SECOND, v.trip.execAt), Territory(t)).Some?;
  }

  /** Territory t's entry as a 200's answer calls for it. */
  ghost predicate EntryStored(p: Params, r: Slice, v: Visit, t: string)
    requires v.reply.Body?
  {
    && Territory(t) in r && r[Territory(t)].deadline == v.trip.execAt + p.ttl / SECOND * SECOND
    && r[Territory(t)].value.EntryV? && r[Territory(t)].value.entry.territory == t
    && Faithful(p.norm, p.kind, v.reply.id, v.reply.anchors, v.reply.stale, v.receivedAt,
         v.receivedAt + p.ttl, r[Territory(t)].value.entry)
  }

  /** A successful 304 rewrites every entry it found live with the new horizon. */
  lemma SuccessMovesEntries(p: Params, m: TypeMem, v: Visit, i: nat)
    requires p.ttl >= SECOND && SyncTypeSpec(p, m, v).1 && v.reply.NotModified?
    requires IndexReadable(m.slice, v.trip.indexAt) && i < |ListedAt(m.slice, v.trip.indexAt)|
    requires var t := ListedAt(m.slice, v.trip.indexAt)[i];
      Live(m.slice, Territory(t), v.trip.entryAt(i)) && m.slice[Territory(t)].value.EntryV?
    ensures var t := ListedAt(m.slice, v.trip.indexAt)[i];
      Look(SyncTypeSpec(p, m, v).0.slice, Territory(t))
      == Some(Cell(EntryV(m.slice[Territory(t)].value.entry.(validUntil := v.receivedAt + p.ttl)),
           v.trip.execAt + p.ttl / SECOND * SECOND))
  {
    var prev := ListedAt(m.slice, v.trip.indexAt);
    PatchedHas(m.slice, prev, |prev|, v.trip, v.receivedAt + p.ttl, i);
  }

  datatype Job = Job(kind: string, visit: Visit)

  /** One type's memory after the first `n` jobs of a cycle. */
  ghost function Through(ttl: int, norm: string -> string, m: TypeMem, jobs: seq<Job>, n: nat, kind: string): TypeMem
    requires n <= |jobs|
  {
    if n == 0 then m
    else
      var before := Through(ttl, norm, m, jobs, n - 1, kind);
      if jobs[n - 1].kind == kind then SyncTypeSpec(Params(kind, ttl, norm), before, jobs[n - 1].visit).0 else before
  }

  lemma ThroughNext(ttl: int, norm: string -> string, m: TypeMem, jobs: seq<Job>, n: nat, kind: string)
    requires n < |jobs|
    ensures var before := Through(ttl, norm, m, jobs, n, kind);
      Through(ttl, norm, m, jobs, n + 1, kind)
      == if jobs[n].kind == kind then SyncTypeSpec(Params(kind, ttl, norm), before, jobs[n].visit).0 else before
  {
  }

  ghost predicate DistinctKinds(jobs: seq<Job>) {
    forall i, j :: 0 <= i < j < |jobs| ==> jobs[i].kind != jobs[j].kind
  }

  lemma {:induction false} ThroughOwnJob(
      ttl: int, norm: string -> string, m: TypeMem, jobs: seq<Job>, n: nat, kind: string)
    requires n <= |jobs| && DistinctKinds(jobs)
    ensures (forall i :: 0 <= i < n ==> jobs[i].kind != kind) ==> Through(ttl, norm, m, jobs, n, kind) == m
    ensures forall i :: 0 <= i < n && jobs[i].kind == kind ==>
      Through(ttl, norm, m, jobs, n, kind) == SyncTypeSpec(Params(kind, ttl, norm), m, jobs[i].visit).0
  {
    if n == 0 {
    } else {
      ThroughOwnJob(ttl, norm, m, jobs, n - 1, kind);
    }
  }

  /** Failure isolation and order independence: over pairwise distinct types, a cycle
      leaves every type as any other cycle would that keeps, in whatever order, the
      jobs that succeeded or committed, given each type's answer and instants. */
  lemma CycleIsItsSuccesses(
      ttl: int, norm: string -> string, mem: string -> TypeMem, jobs: seq<Job>, kept: seq<Job>, kind: string)
    requires DistinctKinds(jobs) && DistinctKinds(kept)
    requires forall j :: j in kept ==> j in jobs
    requires forall j :: j in jobs && j !in kept ==>
      && !SyncTypeSpec(Params(j.kind, ttl, norm), mem(j.kind), j.visit).1
      && j.visit.trip.outcome != CommittedUnacknowledged
    ensures Through(ttl, norm, mem(kind), jobs, |jobs|, kind) == Through(ttl, norm, mem(kind), kept, |kept|, kind)
  {
    ThroughOwnJob(ttl, norm, mem(kind), jobs, |jobs|, kind);
    ThroughOwnJob(ttl, norm, mem(kind), kept, |kept|, kind);
    if j :| j in kept && j.kind == kind {
      assert j in jobs;
    } else if j :| j in jobs && j.kind == kind {
      UncommittedFailureIsInvisible(Params(kind, ttl, norm), mem(kind), j.visit);
    }
  }

  /** A listed type and its kind determine each other. */
  lemma TypesAndKinds(parsed: seq<AnchorType>, kinds: seq<string>)
    requires |parsed| == |kinds| && forall i :: 0 <= i < |parsed| ==> WireName(parsed[i]) == Some(kinds[i])
    ensures forall t, k, i :: WireName(t) == Some(k) && 0 <= i < |parsed| ==> (t == parsed[i] <==> k == kinds[i])
  {
    forall t, k, i | WireName(t) == Some(k) && 0 <= i < |parsed| ensures t == parsed[i] <==> k == kinds[i] {
      TaxonomyIsBijective(t, k);
      TaxonomyIsBijective(parsed[i], kinds[i]);
    }
  }

  /** What a cycle found when it started, and the jobs it runs. */
  datatype Started = Started(
    was: imap<(AnchorType, string), TypeMem>, db: Db, etags: map<AnchorType, string>,
    known: map<string, TypeFreshness>, jobs: seq<Job>)

  class Syncer {
    const store: Store
    const state: Health.State
    const types: seq<string>
    const ttl: int
    const norm: string -> string
    var etags: map<AnchorType, string>

    constructor (store: Store, state: Health.State, types: seq<string>, ttl: int, norm: string -> string)
      ensures this.store == store && this.state == state && this.types == types && this.ttl == ttl && this.norm == norm
      ensures etags == map[] && forall t :: ETagFor(t) == ""
    {
      this.store, this.state, this.types, this.ttl, this.norm := store, state, types, ttl, norm;
      etags := map[];
    }

    /** The remembered ETag; a type never recorded reads as "". */
    function ETagFor(t: AnchorType): string
      reads this
    {
      if t in etags then etags[t] else ""
    }

    /** The sync memory of a type and its wire name. */
    ghost function Memory(t: AnchorType, kind: string): TypeMem
      reads this, store.server, state
    {
      TypeMem(SliceOf(store.server.db, kind), ETagFor(t), Look(state.known, kind))
    }

    /** Nothing outside one type's keys, ETag and freshness differs between two states. */
    twostate predicate OnlyType(t: AnchorType, kind: string)
      reads this, store.server, state
    {
      && OthersKept(old(store.server.db), store.server.db, kind)
      && (forall u :: u != t ==> ETagFor(u) == old(ETagFor(u)))
      && (forall k :: k != kind ==> Look(state.known, k) == old(Look(state.known, k)))
    }

    /** The type's freshness is recorded as of the answer's arrival, and stored. */
    ghost predicate RecordedAndStored(kind: string, v: Visit)
      reads this, store.server, state
    {
      && kind in state.known
      && state.known[kind].fetchedAt == v.receivedAt && state.known[kind].validUntil == v.receivedAt + ttl
      && Look(store.server.db, Typed(kind, Freshness))
         == Some(Cell(FreshV(state.known[kind]), v.trip.execAt + ttl / SECOND * SECOND))
    }

    lemma SuccessIsStored(t: AnchorType, kind: string, m: TypeMem, v: Visit)
      requires ttl >= SECOND
      requires (Memory(t, kind), true) == SyncTypeSpec(Params(kind, ttl, norm), m, v)
      ensures !v.reply.Failed? && v.trip.outcome == Committed && RecordedAndStored(kind, v)
    {
      SyncSucceedsIff(Params(kind, ttl, norm), m, v);
      SuccessIsRecorded(Params(kind, ttl, norm), m, v);
      assert Look(Memory(t, kind).slice, Freshness) == Look(store.server.db, Typed(kind, Freshness));
      assert Memory(t, kind).known == Look(state.known, kind);
    }

    method SyncType(t: AnchorType, v: Visit) returns (ok: bool)
      requires ttl >= SECOND
      modifies this, store.server, state
      ensures WireName(t).None? ==>
        !ok && store.server.db == old(store.server.db) && etags == old(etags) && state.known == old(state.known)
      ensures WireName(t).Some? ==>
        var kind := WireName(t).value;
        && TypeNamed(kind) == Some(t) && OnlyType(t, kind)
        && (Memory(t, kind), ok) == SyncTypeSpec(Params(kind, ttl, norm), old(Memory(t, kind)), v)
      ensures ok ==>
        && WireName(t).Some? && !v.reply.Failed? && v.trip.outcome == Committed
        && RecordedAndStored(WireName(t).value, v)
    {
      var wire := WireType(t);
      if wire.Err? {
        return false;
      }
      TaxonomyIsBijective(t, wire.value);
      ghost var m := Memory(t, wire.value);
      ok := SyncKnown(t, wire.value, v);
      if ok {
        SuccessIsStored(t, wire.value, m, v);
      }
    }

    method SyncKnown(t: AnchorType, kind: string, v: Visit) returns (ok: bool)
      requires ttl >= SECOND
      modifies this, store.server, state
      ensures OnlyType(t, kind)
      ensures ok == SyncTypeSpec(Params(kind, ttl, norm), old(Memory(t, kind)), v).1
      ensures Memory(t, kind) == SyncTypeSpec(Params(kind, ttl, norm), old(Memory(t, kind)), v).0
    {
      match v.reply {
        case Failed => ok := false;
        case NotModified => ok := Reconfirm(t, kind, v);
        case Body(_, _, _) => ok := Rematerialize(t, kind, v);
      }
    }

    /** The 304 path. */
    method Reconfirm(t: AnchorType, kind: string, v: Visit) returns (ok: bool)
      requires ttl >= SECOND && v.reply.NotModified?
      modifies this, store.server, state
      ensures OnlyType(t, kind)
      ensures ok == SyncTypeSpec(Params(kind, ttl, norm), old(Memory(t, kind)), v).1
      ensures Memory(t, kind) == SyncTypeSpec(Params(kind, ttl, norm), old(Memory(t, kind)), v).0
    {
      var fr := TypeFreshness(ETagFor(t), v.receivedAt, v.receivedAt + ttl, false);
      VisitRefreshes(Params(kind, ttl, norm), Memory(t, kind), v, fr);
      ok := RefreshAndRecord(t, kind, fr, v.trip);
    }

    method RefreshAndRecord(ghost t: AnchorType, kind: string, fr: TypeFreshness, w: Trip) returns (ok: bool)
      requires ttl >= SECOND
      modifies this, store.server, state
      ensures OnlyType(t, kind)
      ensures var m := old(Memory(t, kind));
        var r := RefreshSpec(m.slice, fr, ttl, w);
        ok == r.1 && Memory(t, kind) == TypeMem(r.0, m.etag, if ok then Some(fr) else m.known)
    {
      ok := store.RefreshAnchorType(kind, fr, ttl, w);
      if ok {
        state.SetTypeFreshness(kind, fr);
      }
    }

    /** The 200 path. */
    method Rematerialize(t: AnchorType, kind: string, v: Visit) returns (ok: bool)
      requires ttl >= SECOND && v.reply.Body?
      modifies this, store.server, state
      ensures OnlyType(t, kind)
      ensures ok == SyncTypeSpec(Params(kind, ttl, norm), old(Memory(t, kind)), v).1
      ensures Memory(t, kind) == SyncTypeSpec(Params(kind, ttl, norm), old(Memory(t, kind)), v).0
    {
      var id, now, validUntil := v.reply.id, v.receivedAt, v.receivedAt + ttl;
      var fr := TypeFreshness(id, now, validUntil, v.reply.stale);
      var entries := EntriesByTerritory(norm, kind, id, v.reply.anchors, v.reply.stale, now, validUntil);
      VisitSwaps(Params(kind, ttl, norm), Memory(t, kind), v, EntryMap(entries), fr);
      ok := SwapAndRemember(t, SwapRequest(kind, id, entries, fr, ttl), v.trip);
    }

    method SwapAndRemember(t: AnchorType, sw: SwapRequest, w: Trip) returns (ok: bool)
      requires Distinct(TerritoriesOf(sw.entries))
      modifies this, store.server, state
      ensures OnlyType(t, sw.kind)
      ensures var m := old(Memory(t, sw.kind));
        var r := SwapSpec(m.slice, Material(sw.etag, EntryMap(sw.entries), sw.freshness), sw.ttl, w);
        && ok == r.1
        && Memory(t, sw.kind)
           == TypeMem(r.0, if ok then sw.etag else m.etag, if ok then Some(sw.freshness) else m.known)
    {
      ok := store.SwapAnchorType(sw, w);
      if ok {
        etags := etags[t := sw.etag];
        state.SetTypeFreshness(sw.kind, sw.freshness);
      }
    }

    function JobsOf(visits: seq<Visit>): (jobs: seq<Job>)
      requires |visits| == |types|
      ensures |jobs| == |types|
      ensures forall i :: 0 <= i < |types| ==> jobs[i] == Job(types[i], visits[i])
    {
      seq(|types|, i requires 0 <= i < |types| => Job(types[i], visits[i]))
    }

    /** One poll cycle. A configuration naming an unknown type changes nothing;
        otherwise every type ends as its own job, and only its own job, leaves it,
        whatever became of the others. */
    method SyncAll(visits: seq<Visit>)
      requires |visits| == |types| && ttl >= SECOND
      modifies this, store.server, state
      ensures (exists k :: k in types && !IsKind(k)) ==>
        store.server.db == old(store.server.db) && etags == old(etags) && state.known == old(state.known)
      ensures (forall k :: k in types ==> IsKind(k)) ==> forall t, k :: WireName(t) == Some(k) ==>
        Memory(t, k) == Through(ttl, norm, old(Memory(t, k)), JobsOf(visits), |types|, k)
      ensures forall key: Key :: (key.Typed? ==> key.kind !in types) ==>
        Look(store.server.db, key) == Look(old(store.server.db), key)
      ensures forall k :: k !in types ==> Look(state.known, k) == Look(old(state.known), k)
      ensures forall t :: WireName(t).None? || WireName(t).value !in types ==> ETagFor(t) == old(ETagFor(t))
    {
      var parsed := ParseTypes(types);
      if parsed.Ok? {
        ghost var cycle := Started(Snapshot(), store.server.db, etags, state.known, JobsOf(visits));
        TypesAndKinds(parsed.value, types);
        SyncEach(parsed.value, visits, cycle);
        assert Reached(cycle.was, cycle.jobs, |types|);
        assert OnlyThese(cycle.db, cycle.etags, cycle.known, parsed.value);
      }
    }

    /** Compared with an earlier state, only keys, ETags and freshness of configured types differ. */
    ghost predicate OnlyThese(
        db: Db, tags: map<AnchorType, string>, known: map<string, TypeFreshness>, parsed: seq<AnchorType>)
      reads this, store.server, state
    {
      && (forall key: Key :: (key.Typed? ==> key.kind !in types) ==> Look(store.server.db, key) == Look(db, key))
      && (forall k :: k !in types ==> Look(state.known, k) == Look(known, k))
      && (forall t :: t !in parsed ==> ETagFor(t) == if t in tags then tags[t] else "")
    }

    /** One turn of the cycle, seen from every type. */
    method SyncNext(t: AnchorType, ghost kind: string, v: Visit)
      requires WireName(t) == Some(kind) && ttl >= SECOND
      modifies this, store.server, state
      ensures Memory(t, kind) == SyncTypeSpec(Params(kind, ttl, norm), old(Memory(t, kind)), v).0
      ensures forall u, k :: u != t && k != kind ==> Memory(u, k) == old(Memory(u, k))
      ensures OthersKept(old(store.server.db), store.server.db, kind)
      ensures forall k :: k != kind ==> Look(state.known, k) == Look(old(state.known), k)
      ensures forall u :: u != t ==> ETagFor(u) == old(ETagFor(u))
    {
      ghost var db := store.server.db;
      var ok := SyncType(t, v);
      forall u, k | u != t && k != kind ensures Memory(u, k) == old(Memory(u, k)) {
        OtherSlicesKept(db, store.server.db, kind, k);
      }
    }

    /** Every type's memory as the cycle found it. */
    ghost function Snapshot(): (m: imap<(AnchorType, string), TypeMem>)
      reads this, store.server, state
      ensures forall t, k :: (t, k) in m <==> WireName(t) == Some(k)
      ensures forall t, k :: (t, k) in m ==> m[(t, k)] == Memory(t, k)
    {
      imap p: (AnchorType, string) | WireName(p.0) == Some(p.1) :: Memory(p.0, p.1)
    }

    /** After n jobs every type is where those jobs take it from where it was. */
    ghost predicate Reached(was: imap<(AnchorType, string), TypeMem>, jobs: seq<Job>, n: nat)
      requires n <= |jobs|
      reads this, store.server, state
    {
      forall t, k :: (t, k) in was ==> Memory(t, k) == Through(ttl, norm, was[(t, k)], jobs, n, k)
    }

    /** After n jobs: every type is where they take it, and nothing else has moved. */
    ghost predicate Holds(cycle: Started, parsed: seq<AnchorType>, n: nat)
      requires n <= |cycle.jobs|
      reads this, store.server, state
    {
      Reached(cycle.was, cycle.jobs, n) && OnlyThese(cycle.db, cycle.etags, cycle.known, parsed)
    }

    /** The parsed types and their visits are the cycle's jobs, in order, and a job's
        type and kind go together. */
    ghost predicate Plans(parsed: seq<AnchorType>, visits: seq<Visit>, cycle: Started) {
      var jobs := cycle.jobs;
      && |parsed| == |visits| == |jobs|
      && (forall t, k, i :: (t, k) in cycle.was && 0 <= i < |parsed| ==> (t == parsed[i] <==> k == jobs[i].kind))
      && (forall i :: 0 <= i < |parsed| ==> WireName(parsed[i]) == Some(jobs[i].kind))
      && (forall i :: 0 <= i < |parsed| ==> jobs[i].visit == visits[i] && jobs[i].kind in types)
    }

    method SyncTurn(parsed: seq<AnchorType>, visits: seq<Visit>, i: nat, ghost cycle: Started)
      requires Plans(parsed, visits, cycle) && i < |parsed| && ttl >= SECOND
      requires Holds(cycle, parsed, i)
      modifies this, store.server, state
      ensures Holds(cycle, parsed, i + 1)
    {
      ghost var kind := cycle.jobs[i].kind;
      assert parsed[i] in parsed && kind in types;
      SyncNext(parsed[i], kind, visits[i]);
      assert forall key: Key :: (key.Typed? ==> key.kind !in types) ==> !Owns(kind, key);
      forall u, k | (u, k) in cycle.was
        ensures Memory(u, k) == Through(ttl, norm, cycle.was[(u, k)], cycle.jobs, i + 1, k)
      {
        ThroughNext(ttl, norm, cycle.was[(u, k)], cycle.jobs, i, k);
      }
    }

    method SyncEach(parsed: seq<AnchorType>, visits: seq<Visit>, ghost cycle: Started)
      requires Plans(parsed, visits, cycle) && ttl >= SECOND
      requires Holds(cycle, parsed, 0)
      modifies this, store.server, state
      ensures Holds(cycle, parsed, |cycle.jobs|)
    {
      var i := 0;
      while i < |parsed|
        invariant 0 <= i <= |parsed|
        invariant Holds(cycle, parsed, i)
      {
        SyncTurn(parsed, visits, i, cycle);
        i := i + 1;
      }
    }
  }
}
