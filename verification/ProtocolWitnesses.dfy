/** Reachable states that show which hypotheses of the guarantees are needed. */
module ProtocolWitnesses {
  import opened Wrappers
  import opened Ordering
  import opened Keys
  import opened Cache
  import opened Grouping
  import opened Materialize
  import opened Protocol
  import opened ProtocolInvariant
  import opened ProtocolTheorems

  /** A 200 poll up to the point where the index has been read. */
  lemma Ask200(p: Params, s: State, prev: seq<string>) returns (r: State)
    requires Reachable(p, s) && s.act == Quiet && s.feed.current in s.feed.pubs
    requires ReadIndex(s.slice, s.now) == Ok(prev)
    ensures Reachable(p, r)
    ensures r.act.Reading? && r.act.req == RequestFor(p, s, Body(s.feed.current, s.feed.pubs[s.feed.current], false))
    ensures r.act.prev == prev && (r.act.covered <==> Covers(s.slice, prev, s.now))
    ensures r == s.(act := r.act, hist := s.hist.(confirmed := s.hist.confirmed[s.feed.current := s.now]))
  {
    var reply := Body(s.feed.current, s.feed.pubs[s.feed.current], false);
    var s2  := Replying(p, s, reply);
    ReachableStep(p, s2, ReadIndexStep(false));
    r := Apply(p, s2, ReadIndexStep(false));
  }

  lemma Replying(p: Params, s: State, reply: Reply) returns (r: State)
    requires Reachable(p, s) && Enabled(s, Poll(reply)) && !reply.Failed?
    ensures Reachable(p, r)
    ensures var req := RequestFor(p, s, reply);
      r == s.(act := Asked(req), hist := s.hist.(confirmed := s.hist.confirmed[FreshnessOf(req).snapshotId := s.now]))
  {
    ReachableStep(p, s, Poll(reply));
    var s1 := Apply(p, s, Poll(reply));
    ReachableStep(p, s1, Receive);
    r := Apply(p, s1, Receive);
  }

  function FirstMaterial(p: Params, id: string, anchors: seq<Anchor>): Material {
    Material(id, EntriesFor(p.norm, p.kind, id, anchors, false, 0, p.ttl), TypeFreshness(id, 0, p.ttl, false))
  }

  /** A worker that has just materialized snapshot `id` for the first time. */
  ghost function Fresh(p: Params, id: string, anchors: seq<Anchor>): State {
    var m := FirstMaterial(p, id, anchors);
    State(0, SwapEffect(map[], [], m, p.ttl / SECOND, 0), id, Some(m.freshness),
      Feed(id, map[id := anchors]), Quiet, Hist(map[id := 0], false))
  }

  lemma FreshIsReachable(p: Params, id: string, anchors: seq<Anchor>)
    requires p.ttl >= SECOND
    ensures Reachable(p, Fresh(p, id, anchors))
  {
    var s0 := State(0, map[], "", None, Feed(id, map[id := anchors]), Quiet, Hist(map[], false));
    InitIsReachable(p, s0);
    var s3 := Ask200(p, s0, []);
    CommitFirst(p, id, anchors, s3);
  }

  lemma InitIsReachable(p: Params, s: State)
    requires Init(s)
    ensures Reachable(p, s)
  {
    assert Legal(p, s, []) && After(p, s, []) == s;
  }

  lemma CommitFirst(p: Params, id: string, anchors: seq<Anchor>, s: State)
    requires Reachable(p, s) && s.act.Reading? && s.act.prev == []
    requires s.act.req == Swapping(FirstMaterial(p, id, anchors))
    requires s == State(0, map[], "", None, Feed(id, map[id := anchors]), s.act, Hist(map[][id := 0], false))
    ensures Reachable(p, Fresh(p, id, anchors))
  {
    ReachableStep(p, s, ExecStep(Committed));
    var s' := Executed(p, s);
    assert s'.slice == Fresh(p, id, anchors).slice;
    ReachableStep(p, s', Record);
    assert map[][id := 0] == map[id := 0];
    assert Apply(p, s', Record) == Fresh(p, id, anchors);
  }

  lemma FreshCells(p: Params, id: string, anchors: seq<Anchor>, q: Part)
    requires p.ttl >= SECOND
    ensures q in Fresh(p, id, anchors).slice ==> Fresh(p, id, anchors).slice[q].deadline == Hold(p)
    ensures Look(Fresh(p, id, anchors).slice, Index)
      == Some(Cell(IndexV(SortedOf(Territories(p.norm, anchors))), Hold(p)))
    ensures Freshness in Fresh(p, id, anchors).slice
  {
    var m := FirstMaterial(p, id, anchors);
    assert Look(Fresh(p, id, anchors).slice, q) == SwapCell(map[], [], m, p.ttl / SECOND, 0, q);
    assert Look(Fresh(p, id, anchors).slice, Freshness) == SwapCell(map[], [], m, p.ttl / SECOND, 0, Freshness);
  }

  /** A 304 poll up to the point where the index has been read. */
  lemma Ask304(p: Params, s: State, prev: seq<string>) returns (r: State)
    requires Reachable(p, s) && s.act == Quiet && s.etag != "" && s.etag == s.feed.current
    requires ReadIndex(s.slice, s.now) == Ok(prev)
    ensures Reachable(p, r)
    ensures r.act.Reading?
    ensures r.act
      == Reading(Refreshing(TypeFreshness(s.etag, s.now, s.now + p.ttl, false)), prev, 0, map[], r.act.covered)
    ensures r == s.(act := r.act, hist := r.hist)
  {
    var s2  := Replying(p, s, NotModified);
    ReachableStep(p, s2, ReadIndexStep(false));
    r := Apply(p, s2, ReadIndexStep(false));
  }

  lemma CommitAndRecord(p: Params, s: State) returns (r: State)
    requires Reachable(p, s) && Enabled(s, ExecStep(Committed)) && s.act.req.Refreshing?
    ensures Reachable(p, r)
    ensures r == Executed(p, s).(known := Some(s.act.req.fr), act := Quiet)
  {
    ReachableStep(p, s, ExecStep(Committed));
    ReachableStep(p, Executed(p, s), Record);
    r := Apply(p, Executed(p, s), Record);
  }

  lemma FreshExpires(p: Params, id: string, anchors: seq<Anchor>) returns (s: State)
    requires p.ttl >= SECOND
    ensures Reachable(p, s) && s == Fresh(p, id, anchors).(now := p.ttl)
    ensures forall q :: !Live(s.slice, q, s.now)
  {
    FreshIsReachable(p, id, anchors);
    ReachableStep(p, Fresh(p, id, anchors), Elapse(p.ttl));
    s := Apply(p, Fresh(p, id, anchors), Elapse(p.ttl));
    forall q ensures !Live(s.slice, q, s.now) {
      FreshCells(p, id, anchors, q);
    }
  }

  /** A remembered ETag outlives the cache: after polls fail past the TTL, one 304
      makes the type ready for a full horizon although no anchor is stored. For every
      CacheTTL and every snapshot. */
  lemma ReadyWithNothingStored(p: Params, id: string, anchors: seq<Anchor>) returns (s: State)
    requires p.ttl >= SECOND && id != ""
    ensures Reachable(p, s) && s.feed == Feed(id, map[id := anchors])
    ensures s.known.Some? && s.known.value.validUntil == s.now + p.ttl && s.known.value.snapshotId == id
    ensures forall t :: !Live(s.slice, Territory(t), s.now)
    ensures !Live(s.slice, Index, s.now) && s.hist.blind
  {
    var s1 := FreshExpires(p, id, anchors);
    var s4 := Ask304(p, s1, []);
    s := CommitAndRecord(p, s4);
    forall t ensures !Live(s.slice, Territory(t), s.now) {
      RefreshSlice(p, s4, Territory(t));
    }
    RefreshSlice(p, s4, Index);
  }

  lemma OnlyTerritory(norm: string -> string, a: Anchor)
    ensures SortedOf(Territories(norm, [a])) == [norm(a.country)]
  {
    var t := norm(a.country);
    assert Territories(norm, [a]) == {t};
    assert Elements([t]) == {t};
    SortedUnique(SortedOf({t}), [t]);
  }

  /** The one listed entry is read alive, and then the TTL passes before EXEC. */
  lemma ReadThenWait(p: Params, s: State, t: string, e: Entry) returns (r: State)
    requires Reachable(p, s) && p.ttl >= 0
    requires s.act.Reading? && s.act.req.Refreshing? && s.act.prev == [t] && s.act.next == 0 && s.act.got == map[]
    requires ReadEntry(s.slice, t, s.now) == Ok(Some(e))
    ensures Reachable(p, r) && Enabled(r, ExecStep(Committed))
    ensures r == s.(
      now := s.now + p.ttl,
      act := s.act.(next := 1, got := map[t := e.(validUntil := s.act.req.fr.validUntil)]))
  {
    ReachableStep(p, s, ReadEntryStep(false));
    var s1 := Apply(p, s, ReadEntryStep(false));
    ReachableStep(p, s1, Elapse(p.ttl));
    r := Apply(p, s1, Elapse(p.ttl));
    assert map[][t := e.(validUntil := s.act.req.fr.validUntil)] == map[t := e.(validUntil := s.act.req.fr.validUntil)];
  }

  lemma Resurrection(p: Params, a: Anchor, id: string) returns (s: State)
    requires p.ttl >= SECOND && id != ""
    ensures Reachable(p, s) && s.act == Quiet && s.feed == Feed(id, map[id := [a]])
    ensures Live(s.slice, Territory(p.norm(a.country)), s.now) && !Live(s.slice, Index, s.now)
  {
    var t := p.norm(a.country);
    var s0 := Fresh(p, id, [a]);
    FreshIsReachable(p, id, [a]);
    FreshCells(p, id, [a], Index);
    OnlyTerritory(p.norm, a);
    var s3 := Ask304(p, s0, [t]);
    FreshEntry(p, a, id);
    var s5 := ReadThenWait(p, s3, t, EntryFor(p.norm, p.kind, id, [a], false, 0, p.ttl, t));
    s := CommitAndRecord(p, s5);
    RefreshSlice(p, s5, Territory(t));
    RefreshSlice(p, s5, Index);
  }

  lemma NothingSorted()
    ensures SortedOf({}) == []
  {
    assert Elements<string>([]) == {};
    SortedUnique(SortedOf({}), []);
  }

  /** An entry read alive whose key expires before EXEC is re-created under no index.
      The next snapshot, however empty, leaves it live: exactness does need every live
      key to be accounted for. */
  lemma ResurrectedEntrySurvivesSwap(p: Params, a: Anchor, id: string, next: string) returns (s: State)
    requires p.ttl >= SECOND && id != "" && next != id
    ensures Reachable(p, s) && Enabled(s, ExecStep(Committed))
    ensures s.act.req.Swapping? && s.act.req.m.etag == next && s.act.req.m.entries == map[]
    ensures s.feed.current == next && next in s.feed.pubs && s.feed.pubs[next] == []
    ensures var s' := Apply(p, s, ExecStep(Committed));
      && Live(s'.slice, Index, s'.now) && s'.slice[Index].value == IndexV([])
      && Live(s'.slice, ETag, s'.now) && Live(s'.slice, Freshness, s'.now)
      && Live(s'.slice, Territory(p.norm(a.country)), s'.now)
  {
    var t := p.norm(a.country);
    var s5 := Resurrection(p, a, id);
    ReachableStep(p, s5, Publish(next, []));
    s := Ask200(p, Apply(p, s5, Publish(next, [])), []);
    assert s.act.req.m.entries == map[];
    SwapSlice(p, s, Territory(t));
    SwapSlice(p, s, Index);
    SwapSlice(p, s, ETag);
    SwapSlice(p, s, Freshness);
    NothingSorted();
  }

  /** The same key stands beside a refresh too: a 304 about to commit, with index, etag
      and freshness all live and every territory of the confirmed snapshot read alive,
      still leaves more than that snapshot live. */
  lemma RefreshBesideResurrected(p: Params, a: Anchor, id: string, next: string) returns (s: State)
    requires p.ttl >= SECOND && id != "" && next != id && next != ""
    ensures Reachable(p, s) && Enabled(s, ExecStep(Committed)) && s.act.req.Refreshing?
    ensures Live(s.slice, Index, s.now) && Live(s.slice, ETag, s.now) && Live(s.slice, Freshness, s.now)
    ensures s.act.req.fr.snapshotId == next && next in s.feed.pubs
    ensures s.act.got.Keys == Territories(p.norm, s.feed.pubs[next])
    ensures !ServesExactly(p, Apply(p, s, ExecStep(Committed)), next, s.act.req.fr.validUntil)
  {
    var t := p.norm(a.country);
    var s0 := ResurrectedEntrySurvivesSwap(p, a, id, next);
    ReachableStep(p, s0, ExecStep(Committed));
    var s1 := Apply(p, s0, ExecStep(Committed));
    ReachableStep(p, s1, Record);
    var s2 := Apply(p, s1, Record);
    s := Ask304(p, s2, []);
    RefreshServesExactlyIff(p, s);
    assert Live(s.slice, Territory(t), s.now) && t !in s.act.prev;
  }

  lemma FreshEntry(p: Params, a: Anchor, id: string)
    requires p.ttl >= SECOND
    ensures var t := p.norm(a.country);
      ReadEntry(Fresh(p, id, [a]).slice, t, 0)
      == Ok(Some(EntryFor(p.norm, p.kind, id, [a], false, 0, p.ttl, t)))
  {
    var t := p.norm(a.country);
    var m := FirstMaterial(p, id, [a]);
    assert a in [a];
    assert t in m.entries;
    assert Look(Fresh(p, id, [a]).slice, Territory(t)) == SwapCell(map[], [], m, p.ttl / SECOND, 0, Territory(t));
  }

  /** With any CacheTTL that is not a whole number of seconds, readiness does outrun
      the store: the freshness key is gone while the in-memory horizon is still ahead. */
  lemma FractionOutrunsStore(p: Params, id: string, anchors: seq<Anchor>) returns (s: State)
    requires p.ttl >= SECOND && p.ttl % SECOND != 0
    ensures Reachable(p, s) && s.known.Some? && s.now < s.known.value.validUntil
    ensures !Live(s.slice, Freshness, s.now)
  {
    FreshIsReachable(p, id, anchors);
    var s0 := Fresh(p, id, anchors);
    s := Apply(p, s0, Elapse(Hold(p)));
    ReachableStep(p, s0, Elapse(Hold(p)));
    FreshCells(p, id, anchors, Freshness);
  }

  /** A horizon ahead means a live freshness key, in every state, if and only if CacheTTL
      is a whole number of seconds. */
  lemma FreshnessOutlivesHorizonIff(p: Params)
    requires p.ttl >= SECOND
    ensures (forall s :: Reachable(p, s) && s.known.Some? && s.now < s.known.value.validUntil ==>
              Live(s.slice, Freshness, s.now))
      <==> p.ttl % SECOND == 0
  {
    if p.ttl % SECOND == 0 {
      forall s | Reachable(p, s) && s.known.Some? && s.now < s.known.value.validUntil
        ensures Live(s.slice, Freshness, s.now)
      {
        ReadyMeansStored(p, s);
      }
    } else {
      var s := FractionOutrunsStore(p, "", []);
    }
  }
}
