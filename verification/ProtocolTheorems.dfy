/** What one type's cache guarantees after every schedule of steps and faults. */
module ProtocolTheorems {
  import opened Wrappers
  import opened Ordering
  import opened Keys
  import opened Cache
  import opened Grouping
  import opened Materialize
  import opened Protocol
  import opened ProtocolInvariant

  /** A state some schedule reaches from an empty keyspace. */
  ghost predicate Reachable(p: Params, s: State) {
    exists s0, steps :: Init(s0) && Legal(p, s0, steps) && After(p, s0, steps) == s
  }

  lemma ReachableInv(p: Params, s: State)
    requires Reachable(p, s) && p.ttl >= SECOND
    ensures Inv(p, s)
  {
    var s0, steps :| Init(s0) && Legal(p, s0, steps) && After(p, s0, steps) == s;
    InvAlways(p, s0, steps);
  }

  lemma ReachableStep(p: Params, s: State, step: Step)
    requires Reachable(p, s) && Enabled(s, step)
    ensures Reachable(p, Apply(p, s, step))
  {
    var s0, steps :| Init(s0) && Legal(p, s0, steps) && After(p, s0, steps) == s;
    var more := steps + [step];
    assert more[..|more| - 1] == steps;
    assert Legal(p, s0, more) && After(p, s0, more) == Apply(p, s, step);
  }

  /** The live anchor entries are the snapshot `id` grouped by territory, every one
      carrying the given horizon, and nothing else is live. */
  ghost predicate ServesExactly(p: Params, s: State, id: string, horizon: int) {
    && id in s.feed.pubs
    && forall t :: Serves(p, s, id, horizon, t)
  }

  ghost predicate Serves(p: Params, s: State, id: string, horizon: int, t: string)
    requires id in s.feed.pubs
  {
    match Get(s.slice, Territory(t), s.now)
    case None => t !in Territories(p.norm, s.feed.pubs[id])
    case Some(EntryV(e)) =>
      && t in Territories(p.norm, s.feed.pubs[id])
      && e.kind == p.kind && e.territory == t && e.snapshotId == id && e.validUntil == horizon
      && e.anchors == GroupOf(p.norm, s.feed.pubs[id], t)
    case Some(_) => false
  }

  /** What a reader finds at t, said on the upstream list itself: no key where no anchor
      normalizes to t, and elsewhere an entry that carries, field by field and in
      order, exactly the anchors that do. */
  ghost predicate CarriesUpstream(p: Params, s: State, anchors: seq<Anchor>, id: string, horizon: int, t: string) {
    if !Live(s.slice, Territory(t), s.now) then CountIn(p.norm, anchors, t) == 0
    else
      && s.slice[Territory(t)].value.EntryV?
      && var e := s.slice[Territory(t)].value.entry;
      && CountIn(p.norm, anchors, t) > 0 && Copies(p.norm, anchors, t, e.anchors)
      && e.snapshotId == id && e.kind == p.kind && e.territory == t && e.validUntil == horizon
  }

  lemma ServedCarriesUpstream(p: Params, s: State, id: string, horizon: int, t: string)
    requires ServesExactly(p, s, id, horizon)
    ensures CarriesUpstream(p, s, s.feed.pubs[id], id, horizon, t)
  {
    assert Serves(p, s, id, horizon, t);
    GroupNonEmpty(p.norm, s.feed.pubs[id], t);
    GroupCopies(p.norm, s.feed.pubs[id], t);
  }

  /** The territories the stored index lists. */
  function Listed(s: State): seq<string> {
    if Index in s.slice && s.slice[Index].value.IndexV? then s.slice[Index].value.territories else []
  }

  // ---- refinement -------------------------------------------------------------

  /** A committed swap serves exactly its snapshot if and only if every anchor key
      still live at EXEC was listed by the index read or is rewritten now. */
  lemma SwapServesExactlyIff(p: Params, s: State)
    requires Reachable(p, s) && p.ttl >= SECOND
    requires s.act.Reading? && s.act.req.Swapping?
    ensures ServesExactly(p, Executed(p, s), s.act.req.m.etag, s.act.req.m.freshness.validUntil)
      <==> forall t :: Live(s.slice, Territory(t), s.now) ==> t in s.act.prev || t in s.act.req.m.entries
  {
    ReachableInv(p, s);
    var s1, m := Executed(p, s), s.act.req.m;
    forall t
      ensures Serves(p, s1, m.etag, m.freshness.validUntil, t)
        <==> (Live(s.slice, Territory(t), s.now) ==> t in s.act.prev || t in m.entries)
    {
      SwapSlice(p, s, Territory(t));
    }
  }

  lemma UnpatchedIsDead(p: Params, s: State, t: string)
    requires Inv(p, s) && Enabled(s, ExecStep(Committed)) && s.act.req.Refreshing?
    requires t in s.act.prev && t !in s.act.got
    ensures !Live(s.slice, Territory(t), s.now)
  {
    if Live(s.slice, Territory(t), s.now) {
      LiveIndexedEntry(p, s, t);
      AllPatched(p, s, t);
    }
  }

  lemma PatchedIsGenuine(p: Params, s: State, t: string)
    requires Inv(p, s) && s.act.Reading? && s.act.req.Refreshing? && t in s.act.got
    ensures s.act.got[t].snapshotId == s.act.req.fr.snapshotId && Genuine(p, s.feed, t, s.act.got[t])
    ensures s.act.got[t].validUntil == s.act.req.fr.validUntil && t in s.act.prev
  {
    assert PatchOk(s, t, s.act.got[t], s.act.req.fr.validUntil);
    assert CellOk(p, s.feed, Territory(t), s.slice[Territory(t)].value);
    assert t in Elements(s.act.prev);
  }

  /** A refresh replaces what it patched and leaves everything else as it found it. */
  lemma RefreshGets(p: Params, s: State, t: string)
    requires Inv(p, s) && Enabled(s, ExecStep(Committed)) && s.act.req.Refreshing? && p.ttl >= SECOND
    ensures Get(ExecSlice(p, s), Territory(t), s.now)
      == if t in s.act.got then Some(EntryV(s.act.got[t])) else Get(s.slice, Territory(t), s.now)
  {
    if t in s.act.got {
      PatchedIsGenuine(p, s, t);
    } else if t in s.act.prev {
      UnpatchedIsDead(p, s, t);
    }
    RefreshedCell(p, s, t);
  }

  lemma RefreshedCell(p: Params, s: State, t: string)
    requires s.act.Reading? && s.act.req.Refreshing? && p.ttl >= SECOND
    requires t in s.act.got ==> t in s.act.prev
    requires t in s.act.prev && t !in s.act.got ==> !Live(s.slice, Territory(t), s.now)
    ensures Get(ExecSlice(p, s), Territory(t), s.now)
      == if t in s.act.got then Some(EntryV(s.act.got[t])) else Get(s.slice, Territory(t), s.now)
  {
    RefreshSlice(p, s, Territory(t));
  }

  lemma PatchedServes(p: Params, s: State, t: string)
    requires Inv(p, s) && Enabled(s, ExecStep(Committed)) && s.act.req.Refreshing? && p.ttl >= SECOND
    requires s.act.req.fr.snapshotId in s.feed.pubs
    ensures Serves(p, Executed(p, s), s.act.req.fr.snapshotId, s.act.req.fr.validUntil, t)
      <==> t in s.act.got || Serves(p, s, s.act.req.fr.snapshotId, s.act.req.fr.validUntil, t)
  {
    RefreshGets(p, s, t);
    if t in s.act.got {
      PatchedIsGenuine(p, s, t);
    }
  }

  lemma UnreadServes(p: Params, s: State, t: string)
    requires s.act.Reading? && s.act.req.Refreshing? && s.act.next == |s.act.prev|
    requires Live(s.slice, Index, s.now) && s.act.req.fr.snapshotId in s.feed.pubs
    requires Inv(p, s)
    ensures t in s.act.got <==> t in s.act.prev
    ensures t !in s.act.got ==>
      (Serves(p, s, s.act.req.fr.snapshotId, s.act.req.fr.validUntil, t) <==> !Live(s.slice, Territory(t), s.now))
  {
    if t in s.act.prev {
      AllPatched(p, s, t);
    } else {
      assert t !in Elements(s.act.prev);
    }
    assert t in s.act.got ==> t in Elements(s.act.prev);
  }

  /** A committed refresh serves exactly the confirmed snapshot if and only if every
      territory was patched or was already served so. Under an index live at EXEC that
      is: every anchor key still live was listed by the index read. */
  lemma RefreshServesExactlyIff(p: Params, s: State)
    requires Reachable(p, s) && p.ttl >= SECOND
    requires Enabled(s, ExecStep(Committed)) && s.act.req.Refreshing?
    ensures s.act.req.fr.snapshotId in s.feed.pubs
    ensures ServesExactly(p, Executed(p, s), s.act.req.fr.snapshotId, s.act.req.fr.validUntil)
      <==> forall t :: t in s.act.got || Serves(p, s, s.act.req.fr.snapshotId, s.act.req.fr.validUntil, t)
    ensures Live(s.slice, Index, s.now) ==>
      (ServesExactly(p, Executed(p, s), s.act.req.fr.snapshotId, s.act.req.fr.validUntil)
       <==> forall t :: Live(s.slice, Territory(t), s.now) ==> t in s.act.prev)
  {
    ReachableInv(p, s);
    var id, horizon := s.act.req.fr.snapshotId, s.act.req.fr.validUntil;
    assert id in s.feed.pubs;
    forall t
      ensures Serves(p, Executed(p, s), id, horizon, t) <==> t in s.act.got || Serves(p, s, id, horizon, t)
    {
      PatchedServes(p, s, t);
    }
    if Live(s.slice, Index, s.now) {
      forall t
        ensures t in s.act.got || Serves(p, s, id, horizon, t)
          <==> (Live(s.slice, Territory(t), s.now) ==> t in s.act.prev)
      {
        UnreadServes(p, s, t);
      }
    }
  }

  /** Every anchor key still live was listed by the index read or is rewritten now. */
  ghost predicate Accounted(s: State)
    requires s.act.Reading?
  {
    forall t :: Live(s.slice, Territory(t), s.now) ==>
      t in s.act.prev || (s.act.req.Swapping? && t in s.act.req.m.entries)
  }

  /** Either of these is enough: the read covered the live keys then, or the index
      covers them now. */
  lemma CoveredIsAccounted(p: Params, s: State)
    requires Reachable(p, s) && p.ttl >= SECOND && s.act.Reading?
    requires s.act.covered || Indexed(s)
    ensures Accounted(s)
  {
    ReachableInv(p, s);
  }

  /** The live anchors are exactly what the request asked to materialize. */
  ghost predicate Materialized(p: Params, s: State, req: Request) {
    ServesExactly(p, s, FreshnessOf(req).snapshotId, FreshnessOf(req).validUntil)
  }

  /** Cache refinement: after every schedule of client errors, failed and
      unacknowledged commits, restarts and expiries, a commit made while its previous
      keys are unexpired leaves exactly upstream's confirmed snapshot, if and only if
      every live anchor key is accounted for. */
  lemma CacheRefinesUpstream(p: Params, s: State)
    requires Reachable(p, s) && p.ttl >= SECOND
    requires Enabled(s, ExecStep(Committed)) && (s.act.req.Refreshing? ==> Live(s.slice, Index, s.now))
    ensures Materialized(p, Apply(p, s, ExecStep(Committed)), s.act.req) <==> Accounted(s)
  {
    ReachableInv(p, s);
    if s.act.req.Swapping? {
      SwapServesExactlyIff(p, s);
    } else {
      RefreshServesExactlyIff(p, s);
    }
  }

  /** Exactness at every instant, not only at a commit: while the index lives, the
      live anchors are exactly the stored snapshot if and only if the index lists them all. */
  lemma LiveIndexServesIff(p: Params, s: State)
    requires Reachable(p, s) && p.ttl >= SECOND && Live(s.slice, Index, s.now)
    ensures Aligned(p, s.slice, s.feed)
    ensures ServesExactly(p, s, s.slice[ETag].value.text, s.slice[Freshness].value.freshness.validUntil)
      <==> Indexed(s)
  {
    ReachableInv(p, s);
    var id, horizon := s.slice[ETag].value.text, s.slice[Freshness].value.freshness.validUntil;
    forall t
      ensures Serves(p, s, id, horizon, t)
        <==> (Live(s.slice, Territory(t), s.now) ==> t in s.slice[Index].value.territories)
    {
      ListedServes(p, s, t);
    }
  }

  lemma ListedServes(p: Params, s: State, t: string)
    requires WellTyped(p, s.slice, s.feed) && Aligned(p, s.slice, s.feed) && Live(s.slice, Index, s.now)
    ensures Serves(p, s, s.slice[ETag].value.text, s.slice[Freshness].value.freshness.validUntil, t)
      <==> (Live(s.slice, Territory(t), s.now) ==> t in s.slice[Index].value.territories)
  {
    if t in s.slice[Index].value.territories {
      ListedTogether(p, s.slice, s.feed, t);
      assert CellOk(p, s.feed, Territory(t), s.slice[Territory(t)].value);
    }
    assert t in s.slice[Index].value.territories <==> t in Elements(s.slice[Index].value.territories);
  }

  /** The remembered ETag is empty, or it is the stored snapshot's (while the index
      lives), or upstream has moved past it. */
  lemma RememberedETagIsSafe(p: Params, s: State)
    requires Reachable(p, s) && p.ttl >= SECOND
    ensures || s.etag == ""
            || !Live(s.slice, Index, s.now)
            || (ETag in s.slice && s.slice[ETag].value == TextV(s.etag))
            || (s.etag in s.feed.pubs && s.etag != s.feed.current)
  {
    ReachableInv(p, s);
  }

  /** Swap exactness across interleavings: whatever fell between the index read and
      EXEC, if the read listed the live keys then the live anchor keys afterwards are
      exactly the new entries, as written. */
  lemma SwapExactAcrossInterleavings(p: Params, s: State, t: string)
    requires Reachable(p, s) && p.ttl >= SECOND
    requires s.act.Reading? && s.act.req.Swapping? && (s.act.covered || Indexed(s))
    ensures var s' := Apply(p, s, ExecStep(Committed));
      Get(s'.slice, Territory(t), s'.now)
      == if t in s.act.req.m.entries then Some(EntryV(s.act.req.m.entries[t])) else None
  {
    ReachableInv(p, s);
    SwapExact(p, s, t);
  }

  // ---- one deadline -----------------------------------------------------------

  /** While the index lives, index, etag, freshness and every listed anchor key share
      one deadline, one snapshot and one horizon, with no hypothesis at all; so an
      index that lists every live anchor key lists exactly the live anchor keys. */
  lemma CommonDeadline(p: Params, s: State)
    requires Reachable(p, s) && p.ttl >= SECOND
    ensures Live(s.slice, Index, s.now) ==> Aligned(p, s.slice, s.feed)
    ensures Indexed(s) <==> forall t ::
      Live(s.slice, Territory(t), s.now)
      <==> Live(s.slice, Index, s.now) && t in Listed(s)
  {
    ReachableInv(p, s);
    forall t | Live(s.slice, Index, s.now) && t in Listed(s)
      ensures Live(s.slice, Territory(t), s.now)
    {
      ListedTogether(p, s.slice, s.feed, t);
    }
  }

  /** A refresh under a live index moves all the type's keys to one new deadline,
      leaves index and etag as they are, and in every listed entry changes nothing but
      the horizon. */
  lemma RefreshMovesOnlyHorizons(p: Params, s: State)
    requires Reachable(p, s) && p.ttl >= SECOND
    requires Enabled(s, ExecStep(Committed)) && s.act.req.Refreshing? && Live(s.slice, Index, s.now)
    ensures Aligned(p, s.slice, s.feed) && Aligned(p, ExecSlice(p, s), s.feed)
    ensures var after := ExecSlice(p, s);
      && after[Index] == Cell(s.slice[Index].value, s.now + Hold(p))
      && after[ETag].value == s.slice[ETag].value && after[Freshness].value == FreshV(s.act.req.fr)
    ensures forall t :: t in Listed(s) ==> MovesHorizon(p, s, t)
  {
    ReachableInv(p, s);
    RefreshedTail(p, s);
    RefreshAligns(p, s);
    forall t | t in Listed(s) ensures MovesHorizon(p, s, t) {
      AllPatched(p, s, t);
      RefreshedEntry(p, s, t);
    }
  }

  /** The committed refresh rewrites this entry with the new horizon and nothing else new. */
  ghost predicate MovesHorizon(p: Params, s: State, t: string)
    requires s.act.Reading? && s.act.req.Refreshing?
  {
    && Territory(t) in s.slice && s.slice[Territory(t)].value.EntryV?
    && Look(ExecSlice(p, s), Territory(t)) == Some(Cell(
         EntryV(s.slice[Territory(t)].value.entry.(validUntil := s.act.req.fr.validUntil)), s.now + Hold(p)))
  }

  lemma RefreshedEntry(p: Params, s: State, t: string)
    requires s.act.Reading? && s.act.req.Refreshing?
    requires t in s.act.prev && t in s.act.got && PatchOk(s, t, s.act.got[t], s.act.req.fr.validUntil)
    ensures MovesHorizon(p, s, t)
  {
    RefreshSlice(p, s, Territory(t));
  }

  lemma RefreshedTail(p: Params, s: State)
    requires s.act.Reading? && s.act.req.Refreshing? && p.ttl >= SECOND
    requires Live(s.slice, Index, s.now) && ETag in s.slice && s.slice[ETag].deadline == s.slice[Index].deadline
    ensures Look(ExecSlice(p, s), Index) == Some(Cell(s.slice[Index].value, s.now + Hold(p)))
    ensures Look(ExecSlice(p, s), ETag) == Some(Cell(s.slice[ETag].value, s.now + Hold(p)))
    ensures Look(ExecSlice(p, s), Freshness) == Some(Cell(FreshV(s.act.req.fr), s.now + Hold(p)))
  {
    RefreshSlice(p, s, Index);
    RefreshSlice(p, s, ETag);
    RefreshSlice(p, s, Freshness);
  }

  /** A refresh breaks the index's coverage exactly when it has entries to write and
      the index is already dead. */
  lemma RefreshKeepsCoverageIff(p: Params, s: State)
    requires Reachable(p, s) && p.ttl >= SECOND
    requires Enabled(s, ExecStep(Committed)) && s.act.req.Refreshing? && Indexed(s)
    ensures Indexed(Apply(p, s, ExecStep(Committed))) <==> !Resurrects(s)
  {
    ReachableInv(p, s);
    if Resurrects(s) {
      var t :| t in s.act.got;
      assert t in Elements(s.act.prev);
      ResurrectedIsUnindexed(p, s, t);
    } else {
      RefreshIndexed(p, s);
    }
  }

  lemma ResurrectedIsUnindexed(p: Params, s: State, t: string)
    requires s.act.Reading? && Resurrects(s) && t in s.act.got && t in s.act.prev && p.ttl >= SECOND
    ensures !Indexed(Executed(p, s))
  {
    var s1 := Executed(p, s);
    RefreshSlice(p, s, Index);
    RefreshSlice(p, s, Territory(t));
    assert Live(s1.slice, Territory(t), s1.now) && !Live(s1.slice, Index, s1.now);
  }

  /** The 304 path writes a freshness that is never stale and leaves the entries'
      flags alone, so the two agree only if no listed entry was stale. */
  lemma StaleFlagsAgreeIff(p: Params, s: State)
    requires Reachable(p, s) && p.ttl >= SECOND
    requires Enabled(s, ExecStep(Committed)) && s.act.req.Refreshing? && Live(s.slice, Index, s.now)
    ensures var s' := Apply(p, s, ExecStep(Committed));
      && Live(s'.slice, Freshness, s'.now) && s'.slice[Freshness].value.FreshV?
      && ((forall t :: t in Listed(s) ==>
             StaleFlag(s', t) == s'.slice[Freshness].value.freshness.upstreamStale)
          <==> forall t :: t in Listed(s) ==> !StaleFlag(s, t))
  {
    ReachableInv(p, s);
    RefreshSlice(p, s, Freshness);
    RefreshMovesOnlyHorizons(p, s);
    var s' := Apply(p, s, ExecStep(Committed));
    forall t | t in Listed(s) ensures StaleFlag(s', t) == StaleFlag(s, t) {
      assert MovesHorizon(p, s, t);
      assert Look(s'.slice, Territory(t)).Some?;
    }
  }

  ghost predicate StaleFlag(s: State, t: string) {
    Territory(t) in s.slice && s.slice[Territory(t)].value.EntryV? && s.slice[Territory(t)].value.entry.upstreamStale
  }

  // ---- fail closed ------------------------------------------------------------

  /** The worker received, at step i, a 200 or 304 about snapshot `id`. */
  ghost predicate ConfirmedAt(p: Params, s0: State, steps: seq<Step>, i: nat, id: string, at: int)
    requires Legal(p, s0, steps)
  {
    && i < |steps| && steps[i] == Receive
    && Legal(p, s0, steps[..i])
    && var s := After(p, s0, steps[..i]);
    && s.now == at && s.act.Replied? && !s.act.reply.Failed?
    && FreshnessOf(RequestFor(p, s, s.act.reply)).snapshotId == id
  }

  lemma {:induction false} ConfirmationsHappened(p: Params, s0: State, steps: seq<Step>, id: string)
    requires Init(s0) && Legal(p, s0, steps)
    requires id in After(p, s0, steps).hist.confirmed
    ensures exists i: nat :: ConfirmedAt(p, s0, steps, i, id, After(p, s0, steps).hist.confirmed[id])
    decreases |steps|
  {
    if steps == [] {
    } else {
      var n := |steps| - 1;
      var front := steps[..n];
      var s := After(p, s0, front);
      var at := After(p, s0, steps).hist.confirmed[id];
      if steps[n] == Receive && FreshnessOf(RequestFor(p, s, s.act.reply)).snapshotId == id {
        assert ConfirmedAt(p, s0, steps, n, id, at);
      } else {
        ConfirmationsHappened(p, s0, front, id);
        var i: nat :| ConfirmedAt(p, s0, front, i, id, at);
        assert front[..i] == steps[..i];
        assert ConfirmedAt(p, s0, steps, i, id, at);
      }
    }
  }

  /** Fail-closed age bound, no hypothesis on expiries or faults: an entry whose
      embedded horizon is still ahead was confirmed by a 200 or 304 received less
      than CacheTTL ago. */
  lemma AgeBound(p: Params, s0: State, steps: seq<Step>, t: string)
    requires Init(s0) && Legal(p, s0, steps) && p.ttl >= SECOND
    requires var s := After(p, s0, steps);
      Territory(t) in s.slice && s.slice[Territory(t)].value.EntryV?
      && s.now < s.slice[Territory(t)].value.entry.validUntil
    ensures var s := After(p, s0, steps);
      exists i: nat, at: int :: ConfirmedAt(p, s0, steps, i, s.slice[Territory(t)].value.entry.snapshotId, at)
        && 0 <= s.now - at < p.ttl
  {
    var s := After(p, s0, steps);
    InvAlways(p, s0, steps);
    var e := s.slice[Territory(t)].value.entry;
    assert Backed(p, s.hist, e);
    ConfirmationsHappened(p, s0, steps, e.snapshotId);
    var i: nat :| ConfirmedAt(p, s0, steps, i, e.snapshotId, s.hist.confirmed[e.snapshotId]);
  }

  /** The type is not fresh: never synced in this process, or its horizon has passed. */
  predicate NotFresh(s: State) {
    s.known.None? || s.known.value.validUntil <= s.now
  }

  predicate Commits(step: Step) { step.ExecStep? && step.outcome != Lost }

  /** Polls that fail, before or after their reads, move no deadline and no horizon,
      and once the last horizon has passed the type stays unfresh until a sync is recorded. */
  lemma {:induction false} FailingPollsChangeNothing(p: Params, s: State, steps: seq<Step>)
    requires Legal(p, s, steps)
    ensures (forall step :: step in steps ==> !Commits(step)) ==> After(p, s, steps).slice == s.slice
    ensures (forall step :: step in steps ==> !step.Record? && !step.Restart?) ==> After(p, s, steps).known == s.known
    ensures (forall step :: step in steps ==> !step.Record?) && NotFresh(s) ==> NotFresh(After(p, s, steps))
    ensures After(p, s, steps).now >= s.now
    decreases |steps|
  {
    if steps == [] {
    } else {
      var front, last := steps[..|steps| - 1], steps[|steps| - 1];
      assert forall step :: step in front ==> step in steps;
      assert last in steps;
      FailingPollsChangeNothing(p, s, front);
    }
  }

  // ---- readiness --------------------------------------------------------------

  /** Readiness is never ahead of the store: while the in-memory horizon is ahead by
      more than the fraction of a second the server drops, the freshness key is live
      and its horizon is at least the in-memory one; and index, etag and every listed
      anchor key are live exactly if the last commit was not a refresh that found the
      index dead. */
  lemma ReadyMeansStored(p: Params, s: State)
    requires Reachable(p, s) && p.ttl >= SECOND
    requires s.known.Some? && s.now < s.known.value.validUntil - Fraction(p)
    ensures Live(s.slice, Freshness, s.now) && s.slice[Freshness].value.FreshV?
    ensures s.slice[Freshness].value.freshness.validUntil >= s.known.value.validUntil
    ensures Live(s.slice, Index, s.now) <==> !s.hist.blind
    ensures AnchorsLive(s) <==> !s.hist.blind
  {
    ReachableInv(p, s);
    if !s.hist.blind {
      forall t | t in Listed(s) ensures Live(s.slice, Territory(t), s.now) {
        ListedTogether(p, s.slice, s.feed, t);
      }
    }
  }

  /** Index, etag and every listed anchor key are live. */
  ghost predicate AnchorsLive(s: State) {
    && Live(s.slice, Index, s.now) && Live(s.slice, ETag, s.now) && s.slice[Index].value.IndexV?
    && forall t :: t in Listed(s) ==> Live(s.slice, Territory(t), s.now)
  }
}
