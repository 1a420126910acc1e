/** The inductive invariant of one type's protocol. */
module ProtocolInvariant {
  import opened Wrappers
  import opened Ordering
  import opened Keys
  import opened Cache
  import opened Grouping
  import opened Materialize
  import opened Protocol

  /** A stored entry is a genuine piece of some published snapshot. */
  ghost predicate Genuine(p: Params, feed: Feed, t: string, e: Entry) {
    && e.kind == p.kind && e.territory == t
    && e.snapshotId in feed.pubs
    && t in Territories(p.norm, feed.pubs[e.snapshotId])
    && e.anchors == GroupOf(p.norm, feed.pubs[e.snapshotId], t)
  }

  ghost predicate CellOk(p: Params, feed: Feed, q: Part, v: Value) {
    match q
    case Territory(t) => v.EntryV? && Genuine(p, feed, t, v.entry)
    case Index => v.IndexV?
    case ETag => v.TextV?
    case Freshness => v.FreshV?
  }

  ghost predicate WellTyped(p: Params, s: Slice, feed: Feed) {
    forall q :: q in s ==> CellOk(p, feed, q, s[q].value)
  }

  /** The stored snapshot id, its anchors, and the horizon all its keys name. */
  ghost predicate SameSnapshot(s: Slice, t: string, id: string, horizon: int, deadline: int) {
    && Territory(t) in s
    && s[Territory(t)].deadline == deadline
    && s[Territory(t)].value.EntryV?
    && s[Territory(t)].value.entry.snapshotId == id
    && s[Territory(t)].value.entry.validUntil == horizon
  }

  /** Index, etag, freshness and indexed anchors: one deadline, one snapshot, one horizon. */
  ghost predicate Aligned(p: Params, s: Slice, feed: Feed) {
    && Index in s && ETag in s && Freshness in s
    && s[ETag].value.TextV? && s[Freshness].value.FreshV?
    && var id, fr, d := s[ETag].value.text, s[Freshness].value.freshness, s[Index].deadline;
    && s[ETag].deadline == d && s[Freshness].deadline == d
    && id in feed.pubs && fr.snapshotId == id
    && s[Index].value == IndexV(SortedOf(Territories(p.norm, feed.pubs[id])))
    && forall t :: t in Territories(p.norm, feed.pubs[id]) ==> SameSnapshot(s, t, id, fr.validUntil, d)
  }

  /** While the index lives, the stored snapshot is the one the worker remembers. */
  ghost predicate Matches(s: State) {
    Live(s.slice, Index, s.now) ==> Look(s.slice, ETag).Some? && s.slice[ETag].value == TextV(s.etag)
  }

  ghost predicate Remembered(s: State) {
    && s.feed.current in s.feed.pubs
    && (s.etag != "" ==> s.etag in s.feed.pubs)
    && (s.etag != "" && s.etag == s.feed.current ==> Matches(s))
  }

  /** Every stored horizon rests on a confirmation of that entry's own snapshot. */
  ghost predicate Attested(p: Params, s: State) {
    && (forall id :: id in s.hist.confirmed ==> s.hist.confirmed[id] <= s.now)
    && forall t :: Territory(t) in s.slice && s.slice[Territory(t)].value.EntryV? ==>
         Backed(p, s.hist, s.slice[Territory(t)].value.entry)
  }

  ghost predicate Backed(p: Params, h: Hist, e: Entry) {
    e.snapshotId in h.confirmed && e.validUntil <= h.confirmed[e.snapshotId] + p.ttl
  }

  ghost predicate Bounded(p: Params, s: State) {
    && (forall q :: q in s.slice ==> s.slice[q].deadline <= s.now + Hold(p))
    && (Freshness in s.slice && s.slice[Freshness].value.FreshV? ==>
          s.slice[Freshness].value.freshness.validUntil <= s.now + p.ttl)
  }

  /** The stored freshness is at least `fr` and outlives it, up to the dropped fraction. */
  ghost predicate StoredAtLeast(p: Params, s: State, fr: TypeFreshness) {
    && Freshness in s.slice && s.slice[Freshness].value.FreshV?
    && s.slice[Freshness].deadline >= fr.validUntil - Fraction(p)
    && s.slice[Freshness].value.freshness.validUntil >= fr.validUntil
    && (!s.hist.blind ==> Index in s.slice && s.slice[Index].deadline >= fr.validUntil - Fraction(p))
  }

  /** The index lists every live anchor key. */
  ghost predicate Indexed(s: State) {
    forall t :: Live(s.slice, Territory(t), s.now) ==>
      Live(s.slice, Index, s.now) && s.slice[Index].value.IndexV? && t in s.slice[Index].value.territories
  }

  /** Ids never recur: a remembered ETag that is still current is the snapshot in hand. */
  ghost predicate NotOutrun(s: State, id: string) {
    s.etag != "" && s.etag == s.feed.current ==> id == s.etag
  }

  ghost predicate RequestOk(p: Params, s: State, req: Request) {
    var fr := FreshnessOf(req);
    && fr.validUntil == fr.fetchedAt + p.ttl && fr.fetchedAt <= s.now
    && fr.snapshotId in s.hist.confirmed && s.hist.confirmed[fr.snapshotId] >= fr.fetchedAt
    && match req
       case Swapping(m) =>
         && m.etag == fr.snapshotId && m.etag in s.feed.pubs && NotOutrun(s, m.etag)
         && m.entries == EntriesFor(
              p.norm, p.kind, m.etag, s.feed.pubs[m.etag], fr.upstreamStale, fr.fetchedAt, fr.validUntil)
       case Refreshing(_) => s.etag != "" && fr.snapshotId == s.etag && !fr.upstreamStale
  }

  /** A request not yet executed: a refresh is still about the stored snapshot, and
      the stored horizon is not ahead of the request's. */
  ghost predicate Pending(p: Params, s: State, req: Request) {
    && RequestOk(p, s, req)
    && (req.Refreshing? ==> Matches(s))
    && (Freshness in s.slice && s.slice[Freshness].value.FreshV? ==>
          s.slice[Freshness].value.freshness.validUntil <= FreshnessOf(req).validUntil)
  }

  ghost predicate PatchOk(s: State, t: string, e: Entry, horizon: int) {
    && Territory(t) in s.slice && s.slice[Territory(t)].value.EntryV?
    && e == s.slice[Territory(t)].value.entry.(validUntil := horizon)
    && e.snapshotId == s.etag
  }

  /** What the index read still says about the keys. */
  ghost predicate IndexRead(p: Params, s: State)
    requires s.act.Reading?
  {
    && (Live(s.slice, Index, s.now) ==> s.slice[Index].value == IndexV(s.act.prev))
    && (s.act.prev != [] ==> Aligned(p, s.slice, s.feed) && s.slice[Index].value == IndexV(s.act.prev))
    && (s.act.covered ==> Covers(s.slice, s.act.prev, s.now))
  }

  /** What the entry reads have gathered so far. */
  ghost predicate Gathered(s: State)
    requires s.act.Reading?
  {
    var a := s.act;
    && a.next <= |a.prev| && a.got.Keys <= Elements(a.prev)
    && (forall t :: t in a.got ==> PatchOk(s, t, a.got[t], FreshnessOf(a.req).validUntil))
    && (a.req.Refreshing? && Live(s.slice, Index, s.now) ==> forall i :: 0 <= i < a.next ==> a.prev[i] in a.got)
    && (a.req.Swapping? ==> a.got == map[])
  }

  ghost predicate ReadingOk(p: Params, s: State)
    requires s.act.Reading?
  {
    IndexRead(p, s) && Gathered(s)
  }

  ghost predicate ActOk(p: Params, s: State) {
    match s.act
    case Quiet => true
    case Replied(Failed) => false
    case Replied(NotModified) => s.etag != "" && Matches(s)
    case Replied(Body(id, anchors, _)) => id in s.feed.pubs && s.feed.pubs[id] == anchors && NotOutrun(s, id)
    case Asked(req) => Pending(p, s, req)
    case Reading(req, _, _, _, _) => Pending(p, s, req) && ReadingOk(p, s)
    case Confirmed(req) =>
      && RequestOk(p, s, req)
      && StoredAtLeast(p, s, FreshnessOf(req))
      && (req.Swapping? ==> ETag in s.slice && s.slice[ETag].value == TextV(req.m.etag))
  }

  ghost predicate Inv(p: Params, s: State) {
    && WellTyped(p, s.slice, s.feed)
    && (Live(s.slice, Index, s.now) ==> Aligned(p, s.slice, s.feed))
    && Remembered(s)
    && Attested(p, s)
    && Bounded(p, s)
    && (s.known.Some? ==> StoredAtLeast(p, s, s.known.value))
    && (s.hist.blind ==> !Live(s.slice, Index, s.now))
    && ActOk(p, s)
  }

  // ---- steps that leave the keys alone ----------------------------------------

  lemma InvInit(p: Params, s: State)
    requires Init(s)
    ensures Inv(p, s)
  {
  }

  lemma InvElapse(p: Params, s: State, d: nat)
    requires Inv(p, s)
    ensures Inv(p, Apply(p, s, Elapse(d)))
  {
    LiveShrinks(s.slice, s.now, s.now + d);
    ActOkElapse(p, s, d);
    TimeBoundsElapse(p, s, d);
  }

  lemma IndexedElapse(p: Params, s: State, d: nat)
    requires Indexed(s) && (Live(s.slice, Index, s.now) ==> Aligned(p, s.slice, s.feed))
    ensures Indexed(s.(now := s.now + d))
  {
    var s' := s.(now := s.now + d);
    forall t | Live(s'.slice, Territory(t), s'.now)
      ensures Live(s'.slice, Index, s'.now) && s.slice[Index].value.IndexV? && t in s.slice[Index].value.territories
    {
      assert Live(s.slice, Territory(t), s.now);
      ListedTogether(p, s.slice, s.feed, t);
    }
  }

  /** A listed territory's key shares the index's deadline, snapshot and horizon. */
  lemma ListedTogether(p: Params, s: Slice, feed: Feed, t: string)
    requires Aligned(p, s, feed) && t in s[Index].value.territories
    ensures SameSnapshot(s, t, s[ETag].value.text, s[Freshness].value.freshness.validUntil, s[Index].deadline)
  {
    assert t in Elements(s[Index].value.territories);
  }

  lemma TimeBoundsElapse(p: Params, s: State, d: nat)
    requires Attested(p, s) && Bounded(p, s)
    ensures var s' := s.(now := s.now + d); Attested(p, s') && Bounded(p, s')
    ensures forall fr :: StoredAtLeast(p, s, fr) ==> StoredAtLeast(p, s.(now := s.now + d), fr)
  {
  }

  lemma LiveShrinks(s: Slice, at: int, later: int)
    requires at <= later
    ensures forall q :: Live(s, q, later) ==> Live(s, q, at)
    ensures forall q :: Live(s, q, at) && q in s && later < s[q].deadline ==> Live(s, q, later)
  {
  }

  lemma ActOkElapse(p: Params, s: State, d: nat)
    requires ActOk(p, s)
    ensures ActOk(p, Apply(p, s, Elapse(d)))
  {
    var s' := Apply(p, s, Elapse(d));
    LiveShrinks(s.slice, s.now, s'.now);
    match s.act {
      case Reading(req, prev, next, got, covered) =>
        assert Pending(p, s', req);
        assert ReadingOk(p, s');
      case _ =>
    }
  }

  lemma AlignedGrows(p: Params, s: Slice, feed: Feed, feed': Feed)
    requires Aligned(p, s, feed)
    requires forall id :: id in feed.pubs ==> id in feed'.pubs && feed'.pubs[id] == feed.pubs[id]
    ensures Aligned(p, s, feed')
  {
  }

  lemma WellTypedGrows(p: Params, s: Slice, feed: Feed, feed': Feed)
    requires WellTyped(p, s, feed)
    requires forall id :: id in feed.pubs ==> id in feed'.pubs && feed'.pubs[id] == feed.pubs[id]
    ensures WellTyped(p, s, feed')
  {
    forall q | q in s ensures CellOk(p, feed', q, s[q].value) {
      assert CellOk(p, feed, q, s[q].value);
    }
  }

  lemma InvPublish(p: Params, s: State, id: string, anchors: seq<Anchor>)
    requires Inv(p, s) && id !in s.feed.pubs
    ensures Inv(p, Apply(p, s, Publish(id, anchors)))
  {
    var s' := Apply(p, s, Publish(id, anchors));
    WellTypedGrows(p, s.slice, s.feed, s'.feed);
    if Aligned(p, s.slice, s.feed) {
      AlignedGrows(p, s.slice, s.feed, s'.feed);
    }
    ActOkPublish(p, s, id, anchors);
  }

  lemma ActOkPublish(p: Params, s: State, id: string, anchors: seq<Anchor>)
    requires ActOk(p, s) && id !in s.feed.pubs && (s.etag != "" ==> s.etag in s.feed.pubs)
    ensures ActOk(p, s.(feed := Feed(id, s.feed.pubs[id := anchors])))
  {
    var s' := s.(feed := Feed(id, s.feed.pubs[id := anchors]));
    if s.act.Reading? && Aligned(p, s.slice, s.feed) {
      AlignedGrows(p, s.slice, s.feed, s'.feed);
    }
  }

  lemma InvRestart(p: Params, s: State)
    requires Inv(p, s)
    ensures Inv(p, Apply(p, s, Restart))
  {
  }

  lemma InvPoll(p: Params, s: State, reply: Reply)
    requires Inv(p, s) && Enabled(s, Poll(reply))
    ensures Inv(p, Apply(p, s, Poll(reply)))
  {
  }

  lemma InvReceive(p: Params, s: State)
    requires Inv(p, s) && Enabled(s, Receive) && p.ttl >= SECOND
    ensures Inv(p, Apply(p, s, Receive))
  {
    var s' := Apply(p, s, Receive);
    forall t | Territory(t) in s.slice && s.slice[Territory(t)].value.EntryV?
      ensures Backed(p, s'.hist, s.slice[Territory(t)].value.entry)
    {
      assert Backed(p, s.hist, s.slice[Territory(t)].value.entry);
    }
  }

  lemma InvReadIndex(p: Params, s: State, fails: bool)
    requires Inv(p, s) && Enabled(s, ReadIndexStep(fails))
    ensures Inv(p, Apply(p, s, ReadIndexStep(fails)))
  {
    if ReadIndex(s.slice, s.now).Ok? {
      ReadingStarts(p, s, ReadIndex(s.slice, s.now).value);
    }
  }

  lemma ReadingStarts(p: Params, s: State, prev: seq<string>)
    requires Inv(p, s) && s.act.Asked? && ReadIndex(s.slice, s.now) == Ok(prev)
    ensures ReadingOk(p, s.(act := Reading(s.act.req, prev, 0, map[], Covers(s.slice, prev, s.now))))
  {
  }

  lemma InvReadEntry(p: Params, s: State, fails: bool)
    requires Inv(p, s) && Enabled(s, ReadEntryStep(fails))
    ensures Inv(p, Apply(p, s, ReadEntryStep(fails)))
  {
    var s' := Apply(p, s, ReadEntryStep(fails));
    if s'.act.Reading? {
      ReadEntryKeepsReadingOk(p, s, fails);
      assert Pending(p, s', s'.act.req);
    }
  }

  /** An indexed entry found live was stored together with the remembered snapshot. */
  lemma LiveIndexedEntry(p: Params, s: State, t: string)
    requires s.act.Reading? && Pending(p, s, s.act.req) && ReadingOk(p, s)
    requires s.act.req.Refreshing? && t in s.act.prev && Live(s.slice, Territory(t), s.now)
    ensures Live(s.slice, Index, s.now)
    ensures s.slice[Territory(t)].value.EntryV? && s.slice[Territory(t)].value.entry.snapshotId == s.etag
  {
    ListedTogether(p, s.slice, s.feed, t);
  }

  /** While the index lives so does every key it lists. */
  lemma IndexedEntryLives(p: Params, s: State, t: string)
    requires s.act.Reading? && ReadingOk(p, s)
    requires t in s.act.prev && Live(s.slice, Index, s.now)
    ensures Live(s.slice, Territory(t), s.now) && s.slice[Territory(t)].value.EntryV?
  {
    ListedTogether(p, s.slice, s.feed, t);
  }

  lemma ReadEntryKeepsReadingOk(p: Params, s: State, fails: bool)
    requires Inv(p, s) && Enabled(s, ReadEntryStep(fails))
    requires Apply(p, s, ReadEntryStep(fails)).act.Reading?
    ensures ReadingOk(p, Apply(p, s, ReadEntryStep(fails)))
  {
    var a := s.act;
    var t, horizon := a.prev[a.next], FreshnessOf(a.req).validUntil;
    if Live(s.slice, Territory(t), s.now) {
      LiveIndexedEntry(p, s, t);
      ReadingExtends(s, Some(s.slice[Territory(t)].value.entry.(validUntil := horizon)));
    } else {
      if Live(s.slice, Index, s.now) {
        IndexedEntryLives(p, s, t);
      }
      ReadingExtends(s, None);
    }
  }

  lemma ReadingExtends(s: State, found: Option<Entry>)
    requires s.act.Reading? && s.act.req.Refreshing? && Gathered(s) && s.act.next < |s.act.prev|
    requires found.None? ==> !Live(s.slice, Index, s.now)
    requires found.Some? ==> PatchOk(s, s.act.prev[s.act.next], found.value, FreshnessOf(s.act.req).validUntil)
    ensures var got := if found.None? then s.act.got else s.act.got[s.act.prev[s.act.next] := found.value];
      Gathered(s.(act := s.act.(next := s.act.next + 1, got := got)))
  {
    PatchesExtend(s, found);
  }

  lemma PatchesExtend(s: State, found: Option<Entry>)
    requires s.act.Reading? && s.act.next < |s.act.prev|
    requires forall t :: t in s.act.got ==> PatchOk(s, t, s.act.got[t], FreshnessOf(s.act.req).validUntil)
    requires found.Some? ==> PatchOk(s, s.act.prev[s.act.next], found.value, FreshnessOf(s.act.req).validUntil)
    ensures var got := if found.None? then s.act.got else s.act.got[s.act.prev[s.act.next] := found.value];
      forall u, act :: u in got ==> PatchOk(s.(act := act), u, got[u], FreshnessOf(s.act.req).validUntil)
  {
    var got := if found.None? then s.act.got else s.act.got[s.act.prev[s.act.next] := found.value];
    forall u, act | u in got ensures PatchOk(s.(act := act), u, got[u], FreshnessOf(s.act.req).validUntil) {
      if u in s.act.got {
        assert PatchOk(s, u, s.act.got[u], FreshnessOf(s.act.req).validUntil);
      }
    }
  }

  lemma InvRecord(p: Params, s: State)
    requires Inv(p, s) && Enabled(s, Record)
    ensures Inv(p, Apply(p, s, Record))
  {
  }

  // ---- EXEC -------------------------------------------------------------------

  /** A committed EXEC, seen before its reply is used. */
  ghost function Executed(p: Params, s: State): State
    requires s.act.Reading?
  {
    s.(slice := ExecSlice(p, s), hist := ExecHist(s), act := Confirmed(s.act.req))
  }

  lemma SwapSlice(p: Params, s: State, q: Part)
    requires s.act.Reading? && s.act.req.Swapping?
    ensures Look(ExecSlice(p, s), q) == SwapCell(s.slice, s.act.prev, s.act.req.m, p.ttl / SECOND, s.now, q)
  {
  }

  lemma SwapWellTyped(p: Params, s: State)
    requires Inv(p, s) && s.act.Reading? && s.act.req.Swapping?
    ensures WellTyped(p, ExecSlice(p, s), s.feed)
  {
    var s1 := ExecSlice(p, s);
    var m := s.act.req.m;
    forall q | q in s1 ensures CellOk(p, s.feed, q, s1[q].value) {
      SwapSlice(p, s, q);
      if q in s.slice {
        assert CellOk(p, s.feed, q, s.slice[q].value);
      }
    }
  }

  lemma SwapAligns(p: Params, s: State)
    requires Inv(p, s) && s.act.Reading? && s.act.req.Swapping?
    ensures Aligned(p, ExecSlice(p, s), s.feed)
  {
    var s1, m := ExecSlice(p, s), s.act.req.m;
    SwapSlice(p, s, Index);
    SwapSlice(p, s, ETag);
    SwapSlice(p, s, Freshness);
    forall t | t in Territories(p.norm, s.feed.pubs[m.etag])
      ensures SameSnapshot(s1, t, m.etag, m.freshness.validUntil, s1[Index].deadline)
    {
      SwapSlice(p, s, Territory(t));
    }
  }

  lemma SwapAttests(p: Params, s: State)
    requires Inv(p, s) && s.act.Reading? && s.act.req.Swapping?
    ensures Attested(p, Executed(p, s))
  {
    var s1 := Executed(p, s);
    forall t | Territory(t) in s1.slice && s1.slice[Territory(t)].value.EntryV?
      ensures Backed(p, s1.hist, s1.slice[Territory(t)].value.entry)
    {
      SwapSlice(p, s, Territory(t));
      if t !in s.act.req.m.entries {
        assert Backed(p, s.hist, s.slice[Territory(t)].value.entry);
      }
    }
  }

  lemma SwapBounds(p: Params, s: State)
    requires s.act.Reading? && s.act.req.Swapping? && p.ttl >= SECOND
    requires Bounded(p, s) && Pending(p, s, s.act.req)
    requires s.known.Some? ==> StoredAtLeast(p, s, s.known.value)
    ensures Bounded(p, Executed(p, s))
    ensures StoredAtLeast(p, Executed(p, s), s.act.req.m.freshness)
    ensures s.known.Some? ==> StoredAtLeast(p, Executed(p, s), s.known.value)
  {
    var s1 := Executed(p, s);
    forall q | q in s1.slice ensures s1.slice[q].deadline <= s1.now + Hold(p) {
      SwapSlice(p, s, q);
    }
    SwapSlice(p, s, Index);
    SwapSlice(p, s, Freshness);
  }

  /** After a swap whose reads covered the live keys, the live anchor keys are exactly
      the new entries. */
  lemma SwapExact(p: Params, s: State, t: string)
    requires Inv(p, s) && s.act.Reading? && s.act.req.Swapping? && p.ttl >= SECOND
    requires Covers(s.slice, s.act.prev, s.now)
    ensures Get(ExecSlice(p, s), Territory(t), s.now)
      == if t in s.act.req.m.entries then Some(EntryV(s.act.req.m.entries[t])) else None
  {
    SwapSlice(p, s, Territory(t));
  }

  lemma SwapIndexed(p: Params, s: State)
    requires Inv(p, s) && s.act.Reading? && s.act.req.Swapping? && p.ttl >= SECOND
    requires Covers(s.slice, s.act.prev, s.now)
    ensures Indexed(Executed(p, s))
  {
    var s1 := Executed(p, s);
    SwapSlice(p, s, Index);
    forall t | Live(s1.slice, Territory(t), s1.now)
      ensures t in s1.slice[Index].value.territories
    {
      SwapExact(p, s, t);
      assert t in Elements(s1.slice[Index].value.territories);
    }
  }

  lemma InvSwap(p: Params, s: State)
    requires Inv(p, s) && s.act.Reading? && s.act.req.Swapping? && p.ttl >= SECOND
    ensures Inv(p, Executed(p, s))
  {
    SwapWellTyped(p, s);
    SwapAligns(p, s);
    SwapAttests(p, s);
    SwapBounds(p, s);
    SwapSlice(p, s, ETag);
  }

  lemma RefreshSlice(p: Params, s: State, q: Part)
    requires s.act.Reading? && s.act.req.Refreshing?
    ensures Look(ExecSlice(p, s), q)
      == RefreshCell(s.slice, s.act.prev, s.act.got, s.act.req.fr, p.ttl / SECOND, s.now, q)
  {
  }

  lemma RefreshWellTyped(p: Params, s: State)
    requires s.act.Reading? && s.act.req.Refreshing? && WellTyped(p, s.slice, s.feed)
    requires forall t :: t in s.act.got ==> PatchOk(s, t, s.act.got[t], s.act.req.fr.validUntil)
    ensures WellTyped(p, ExecSlice(p, s), s.feed)
  {
    var s1 := ExecSlice(p, s);
    forall q | q in s1 ensures CellOk(p, s.feed, q, s1[q].value) {
      RefreshSlice(p, s, q);
      if q in s.slice {
        assert CellOk(p, s.feed, q, s.slice[q].value);
      }
      if q.Territory? && q.name in s.act.got {
        assert PatchOk(s, q.name, s.act.got[q.name], s.act.req.fr.validUntil);
      }
    }
  }

  /** At a refresh's EXEC with a live index every listed entry was read and patched,
      so the branch for a vanished key is not taken. */
  lemma AllPatched(p: Params, s: State, t: string)
    requires s.act.Reading? && s.act.req.Refreshing? && s.act.next == |s.act.prev|
    requires Gathered(s)
    requires Live(s.slice, Index, s.now) && t in s.act.prev
    ensures t in s.act.got
  {
    var i :| 0 <= i < |s.act.prev| && s.act.prev[i] == t;
  }

  lemma RefreshAligns(p: Params, s: State)
    requires s.act.Reading? && s.act.req.Refreshing? && s.act.next == |s.act.prev| && p.ttl >= SECOND
    requires Pending(p, s, s.act.req) && ReadingOk(p, s)
    requires Live(s.slice, Index, s.now) ==> Aligned(p, s.slice, s.feed)
    requires Live(ExecSlice(p, s), Index, s.now)
    ensures Live(s.slice, Index, s.now)
    ensures Aligned(p, ExecSlice(p, s), s.feed)
  {
    var s1 := ExecSlice(p, s);
    RefreshSlice(p, s, Index);
    RefreshSlice(p, s, ETag);
    RefreshSlice(p, s, Freshness);
    var id := s.slice[ETag].value.text;
    forall t | t in Territories(p.norm, s.feed.pubs[id])
      ensures SameSnapshot(s1, t, id, s.act.req.fr.validUntil, s1[Index].deadline)
    {
      assert t in Elements(s.slice[Index].value.territories);
      AllPatched(p, s, t);
      RefreshedAlike(p, s, t, id);
    }
  }

  lemma RefreshedAlike(p: Params, s: State, t: string, id: string)
    requires s.act.Reading? && s.act.req.Refreshing? && t in s.act.prev && t in s.act.got
    requires PatchOk(s, t, s.act.got[t], s.act.req.fr.validUntil) && s.etag == id
    ensures SameSnapshot(ExecSlice(p, s), t, id, s.act.req.fr.validUntil, s.now + Hold(p))
  {
    RefreshSlice(p, s, Territory(t));
  }

  lemma RefreshAttests(p: Params, s: State)
    requires s.act.Reading? && s.act.req.Refreshing?
    requires Attested(p, s) && RequestOk(p, s, s.act.req)
    requires forall t :: t in s.act.got ==> PatchOk(s, t, s.act.got[t], s.act.req.fr.validUntil)
    ensures Attested(p, Executed(p, s))
  {
    var s1 := Executed(p, s);
    forall t | Territory(t) in s1.slice && s1.slice[Territory(t)].value.EntryV?
      ensures Backed(p, s1.hist, s1.slice[Territory(t)].value.entry)
    {
      RefreshSlice(p, s, Territory(t));
      if t in s.act.got {
        assert PatchOk(s, t, s.act.got[t], s.act.req.fr.validUntil);
      } else {
        assert Backed(p, s.hist, s.slice[Territory(t)].value.entry);
      }
    }
  }

  lemma RefreshBounds(p: Params, s: State)
    requires s.act.Reading? && s.act.req.Refreshing? && p.ttl >= SECOND
    requires Bounded(p, s) && Pending(p, s, s.act.req)
    requires s.known.Some? ==> StoredAtLeast(p, s, s.known.value)
    ensures Bounded(p, Executed(p, s))
    ensures StoredAtLeast(p, Executed(p, s), s.act.req.fr)
    ensures s.known.Some? ==> StoredAtLeast(p, Executed(p, s), s.known.value)
  {
    var s1 := Executed(p, s);
    forall q | q in s1.slice ensures s1.slice[q].deadline <= s1.now + Hold(p) {
      RefreshSlice(p, s, q);
    }
    RefreshSlice(p, s, Index);
    RefreshSlice(p, s, Freshness);
  }

  lemma RefreshIndexed(p: Params, s: State)
    requires s.act.Reading? && s.act.req.Refreshing? && p.ttl >= SECOND
    requires s.act.got.Keys <= Elements(s.act.prev)
    requires Live(s.slice, Index, s.now) ==> s.slice[Index].value == IndexV(s.act.prev)
    requires Indexed(s) && !Resurrects(s)
    ensures Indexed(Executed(p, s))
  {
    var s1 := Executed(p, s);
    RefreshSlice(p, s, Index);
    forall t | Live(s1.slice, Territory(t), s1.now)
      ensures Live(s1.slice, Index, s1.now) && s1.slice[Index].value.IndexV?
        && t in s1.slice[Index].value.territories
    {
      RefreshSlice(p, s, Territory(t));
    }
  }

  lemma InvRefresh(p: Params, s: State)
    requires Inv(p, s) && Enabled(s, ExecStep(Committed)) && s.act.req.Refreshing? && p.ttl >= SECOND
    ensures Inv(p, Executed(p, s))
  {
    var s1 := Executed(p, s);
    RefreshWellTyped(p, s);
    RefreshAttests(p, s);
    RefreshBounds(p, s);
    RefreshSlice(p, s, Index);
    RefreshSlice(p, s, ETag);
    if Live(s1.slice, Index, s1.now) {
      RefreshAligns(p, s);
    }
    assert Remembered(s1);
  }

  lemma InvStep(p: Params, s: State, step: Step)
    requires Inv(p, s) && Enabled(s, step) && p.ttl >= SECOND
    ensures Inv(p, Apply(p, s, step))
  {
    match step
    case Stutter =>
    case Elapse(d) => InvElapse(p, s, d);
    case Publish(id, anchors) => InvPublish(p, s, id, anchors);
    case Restart => InvRestart(p, s);
    case Poll(reply) => InvPoll(p, s, reply);
    case Receive => InvReceive(p, s);
    case ReadIndexStep(fails) => InvReadIndex(p, s, fails);
    case ReadEntryStep(fails) => InvReadEntry(p, s, fails);
    case Record => InvRecord(p, s);
    case ExecStep(o) => InvExec(p, s, o);
  }

  lemma InvExec(p: Params, s: State, o: Outcome)
    requires Inv(p, s) && Enabled(s, ExecStep(o)) && p.ttl >= SECOND
    ensures Inv(p, Apply(p, s, ExecStep(o)))
  {
    if o == Lost {
      QuietKeepsInv(p, s);
    } else {
      InvCommit(p, s);
      QuietKeepsInv(p, Executed(p, s));
    }
  }

  lemma InvCommit(p: Params, s: State)
    requires Inv(p, s) && Enabled(s, ExecStep(Committed)) && p.ttl >= SECOND
    ensures Inv(p, Executed(p, s))
  {
    if s.act.req.Swapping? {
      InvSwap(p, s);
    } else {
      InvRefresh(p, s);
    }
  }

  lemma QuietKeepsInv(p: Params, s: State)
    requires Inv(p, s)
    ensures Inv(p, s.(act := Quiet))
  {
  }

  /** The invariant holds after every schedule. */
  lemma {:induction false} InvAlways(p: Params, s: State, steps: seq<Step>)
    requires Init(s) && Legal(p, s, steps) && p.ttl >= SECOND
    ensures Inv(p, After(p, s, steps))
    decreases |steps|
  {
    if steps == [] {
      InvInit(p, s);
    } else {
      InvAlways(p, s, steps[..|steps| - 1]);
      InvStep(p, After(p, s, steps[..|steps| - 1]), steps[|steps| - 1]);
    }
  }
}
