/** The ranked set of status-list references: top-N and trim by rank, with the
    server's resolution of negative ranks. */
module StatusRefs {
  import opened Wrappers

  /** A rank counted from the end when negative. */
  function FromEnd(rank: int, len: nat): int { if rank < 0 then rank + len else rank }

  /** Rank i lies in the range `start..stop` of a set of `len` members. */
  predicate InRange(i: int, start: int, stop: int, len: nat) {
    var a, b := FromEnd(start, len), FromEnd(stop, len);
    (if a < 0 then 0 else a) <= i && i <= (if b >= len then len - 1 else b)
  }

  /** Members outside the rank range, in rank order: what ZREMRANGEBYRANK leaves. */
  function Outside(ranked: seq<string>, start: int, stop: int, n: nat): seq<string>
    requires n <= |ranked|
  {
    if n == 0 then []
    else Outside(ranked, start, stop, n - 1) + (if InRange(n - 1, start, stop, |ranked|) then [] else [ranked[n - 1]])
  }

  /** ZREVRANGE start..stop, highest rank first. */
  function Reverse(s: seq<string>): (r: seq<string>)
    ensures |r| == |s|
    ensures forall i :: 0 <= i < |s| ==> r[i] == s[|s| - 1 - i]
  {
    if s == [] then [] else [s[|s| - 1]] + Reverse(s[..|s| - 1])
  }

  function Newest(ranked: seq<string>, n: int): seq<string>
  {
    var all := Reverse(ranked);
    if n <= 0 then [] else if n < |all| then all[..n] else all
  }

  function Least(a: int, b: int): int { if a < b then a else b }

  /** What trimming with `keep` leaves: ZREMRANGEBYRANK 0 (-keep - 1). */
  function Trimmed(ranked: seq<string>, keep: int): seq<string> {
    Outside(ranked, 0, -keep - 1, |ranked|)
  }

  lemma {:induction false} OutsidePrefix(ranked: seq<string>, stop: int, cut: nat, n: nat)
    requires n <= |ranked|
    requires forall i :: 0 <= i < |ranked| ==> (InRange(i, 0, stop, |ranked|) <==> i < cut)
    ensures Outside(ranked, 0, stop, n) == if n <= cut then [] else ranked[cut..n]
  {
    if n == 0 {
    } else {
      OutsidePrefix(ranked, stop, cut, n - 1);
      if n > cut {
        assert ranked[cut..n] == ranked[cut..n - 1] + [ranked[n - 1]];
      }
    }
  }

  /** For keep >= 0 trimming removes exactly the max(0, len - keep) lowest ranks. For a
      negative keep it removes the -keep lowest instead. */
  lemma TrimRemovesLowest(ranked: seq<string>, keep: int)
    ensures keep >= 0 ==> Trimmed(ranked, keep) == ranked[if |ranked| > keep then |ranked| - keep else 0..]
    ensures keep < 0 ==> Trimmed(ranked, keep) == ranked[if |ranked| < -keep then |ranked| else -keep..]
  {
    var cut := if keep >= 0 then (if |ranked| > keep then |ranked| - keep else 0)
      else if |ranked| < -keep then |ranked| else -keep;
    OutsidePrefix(ranked, -keep - 1, cut, |ranked|);
    assert cut == |ranked| ==> ranked[cut..] == [];
    assert ranked[cut..] == ranked[cut..|ranked|];
  }

  /** "keep <= 0 keeps nothing" holds exactly when keep is 0 or the set has no more
      than -keep members. */
  lemma NonPositiveKeepsNothingIff(ranked: seq<string>, keep: int)
    requires keep <= 0
    ensures Trimmed(ranked, keep) == [] <==> keep == 0 || |ranked| <= -keep
  {
    TrimRemovesLowest(ranked, keep);
  }

  /** As many references as asked for, or as there are, from the highest rank down. */
  lemma NewestIs(ranked: seq<string>, n: int)
    ensures |Newest(ranked, n)| == if n <= 0 then 0 else if n < |ranked| then n else |ranked|
    ensures forall i :: 0 <= i < |Newest(ranked, n)| ==> Newest(ranked, n)[i] == ranked[|ranked| - 1 - i]
  {
  }

  /** Top-n after a trim is top-min(n, keep) before it. */
  lemma TrimThenTop(ranked: seq<string>, keep: nat, n: int)
    ensures Newest(Trimmed(ranked, keep), n) == Newest(ranked, Least(n, keep))
  {
    TrimRemovesLowest(ranked, keep);
    var a, b := Newest(Trimmed(ranked, keep), n), Newest(ranked, Least(n, keep));
    assert |a| == |b|;
    NewestIs(Trimmed(ranked, keep), n);
    NewestIs(ranked, Least(n, keep));
    assert a == b;
  }

  /** The shared set; `ranked` lists its members from the lowest score to the highest. */
  class RankedSet {
    var ranked: seq<string>

    constructor (ranked: seq<string>)
      ensures this.ranked == ranked
    {
      this.ranked := ranked;
    }

    /** ZREMRANGEBYRANK over the live ranks. */
    method RemoveRange(start: int, stop: int)
      modifies this
      ensures ranked == Outside(old(ranked), start, stop, |old(ranked)|)
    {
      var kept: seq<string> := [];
      var i := 0;
      while i < |ranked|
        invariant 0 <= i <= |ranked| && ranked == old(ranked)
        invariant kept == Outside(ranked, start, stop, i)
      {
        if !InRange(i, start, stop, |ranked|) {
          kept := kept + [ranked[i]];
        }
        i := i + 1;
      }
      ranked := kept;
    }

    method TopStatusRefs(n: int, fails: bool) returns (r: Result<seq<string>>)
      ensures r == if n <= 0 then Ok([]) else if fails then Err else Ok(Newest(ranked, n))
      ensures n > 0 && !fails ==>
        && |r.value| == (if n < |ranked| then n else |ranked|)
        && forall i :: 0 <= i < |r.value| ==> r.value[i] == ranked[|ranked| - 1 - i]
    {
      if n <= 0 {
        return Ok([]);
      }
      if fails {
        return Err;
      }
      var all := Reverse(ranked);
      return Ok(if n < |all| then all[..n] else all);
    }

    /** For keep >= 0 the newest `keep` members remain, in rank order. */
    method TrimStatusRefs(keep: int, fails: bool) returns (ok: bool)
      modifies this
      ensures ok <==> !fails
      ensures ranked == if fails then old(ranked) else Trimmed(old(ranked), keep)
      ensures !fails && 0 <= keep <= |old(ranked)| ==> ranked == old(ranked)[|old(ranked)| - keep..]
      ensures keep > |old(ranked)| ==> ranked == old(ranked)
    {
      if fails {
        return false;
      }
      TrimRemovesLowest(ranked, keep);
      RemoveRange(0, -keep - 1);
      return true;
    }
  }
}
