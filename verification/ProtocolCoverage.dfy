/** When the index covers the live anchor keys: what loses coverage, what keeps it, and
    how it comes back. */
module ProtocolCoverage {
  import opened Ordering
  import opened Keys
  import opened Cache
  import opened Materialize
  import opened Protocol
  import opened ProtocolInvariant
  import opened ProtocolTheorems

  /** The step commits a refresh that writes entries under a dead index. */
  predicate Revives(s: State, step: Step) {
    step.ExecStep? && step.outcome != Lost && s.act.Reading? && Resurrects(s)
  }

  /** Steps that touch neither the keys nor the clock. */
  predicate Aside(step: Step) { !step.Elapse? && !(step.ExecStep? && step.outcome != Lost) }

  lemma AsideKeeps(p: Params, s: State, step: Step)
    requires Enabled(s, step) && Aside(step)
    ensures Apply(p, s, step).slice == s.slice && Apply(p, s, step).now == s.now
  {
  }

  lemma CommitsAlike(p: Params, s: State, step: Step)
    requires Enabled(s, step) && step.ExecStep? && step.outcome != Lost
    ensures Enabled(s, ExecStep(Committed))
    ensures Apply(p, s, step).slice == ExecSlice(p, s) && Apply(p, s, step).now == s.now
    ensures Executed(p, s).slice == ExecSlice(p, s) && Executed(p, s).now == s.now
  {
  }

  lemma IndexedCovers(p: Params, s: State)
    requires Inv(p, s) && s.act.Reading? && Indexed(s)
    ensures Covers(s.slice, s.act.prev, s.now)
  {
  }

  /** A step loses coverage exactly when it commits a refresh that writes entries under
      a dead index. */
  lemma CoverageLostIff(p: Params, s: State, step: Step)
    requires Reachable(p, s) && p.ttl >= SECOND && Enabled(s, step) && Indexed(s)
    ensures Indexed(Apply(p, s, step)) <==> !Revives(s, step)
  {
    ReachableInv(p, s);
    if Aside(step) {
      AsideKeeps(p, s, step);
    } else if step.Elapse? {
      IndexedElapse(p, s, step.d);
    } else {
      CommitsAlike(p, s, step);
      if s.act.req.Swapping? {
        IndexedCovers(p, s);
        SwapIndexed(p, s);
      } else {
        RefreshKeepsCoverageIff(p, s);
      }
    }
  }

  /** No step of the run loses coverage. */
  ghost predicate NeverRevives(p: Params, s: State, steps: seq<Step>)
    requires Legal(p, s, steps)
    decreases |steps|
  {
    steps == [] ||
    (NeverRevives(p, s, steps[..|steps| - 1])
     && !Revives(After(p, s, steps[..|steps| - 1]), steps[|steps| - 1]))
  }

  lemma {:induction false} ReachesAlong(p: Params, s: State, steps: seq<Step>)
    requires Reachable(p, s) && Legal(p, s, steps)
    ensures Reachable(p, After(p, s, steps))
    decreases |steps|
  {
    if steps == [] {
    } else {
      ReachesAlong(p, s, steps[..|steps| - 1]);
      ReachableStep(p, After(p, s, steps[..|steps| - 1]), steps[|steps| - 1]);
    }
  }

  /** A run that starts covered, as one over an empty keyspace does, and never revives a
      key is covered throughout. */
  lemma {:induction false} CoverageKept(p: Params, s: State, steps: seq<Step>)
    requires Reachable(p, s) && p.ttl >= SECOND && Legal(p, s, steps)
    requires Indexed(s) && NeverRevives(p, s, steps)
    ensures Indexed(After(p, s, steps))
    decreases |steps|
  {
    if steps == [] {
    } else {
      var front := steps[..|steps| - 1];
      CoverageKept(p, s, front);
      ReachesAlong(p, s, front);
      CoverageLostIff(p, After(p, s, front), steps[|steps| - 1]);
    }
  }

  /** Every live anchor key the index does not list expires by `bound`. */
  ghost predicate StraysEnd(s: State, bound: int) {
    forall t :: Live(s.slice, Territory(t), s.now) && !(Live(s.slice, Index, s.now) && t in Listed(s)) ==>
      s.slice[Territory(t)].deadline <= bound
  }

  lemma SwapStrays(p: Params, s: State, bound: int)
    requires Inv(p, s) && s.act.Reading? && s.act.req.Swapping? && p.ttl >= SECOND && StraysEnd(s, bound)
    ensures StraysEnd(Executed(p, s), bound)
  {
    var s1 := Executed(p, s);
    SwapSlice(p, s, Index);
    forall t | Live(s1.slice, Territory(t), s1.now) && t !in Listed(s1)
      ensures s1.slice[Territory(t)].deadline <= bound
    {
      SwapSlice(p, s, Territory(t));
      assert t in s.act.req.m.entries ==> t in Elements(Listed(s1));
    }
  }

  lemma RefreshStrays(p: Params, s: State, bound: int)
    requires Inv(p, s) && Enabled(s, ExecStep(Committed)) && s.act.req.Refreshing? && p.ttl >= SECOND
    requires StraysEnd(s, bound) && !Resurrects(s)
    ensures StraysEnd(Executed(p, s), bound)
  {
    var s1 := Executed(p, s);
    assert s.act.got.Keys <= Elements(s.act.prev);
    forall t | Live(s1.slice, Territory(t), s1.now) && !(Live(s1.slice, Index, s1.now) && t in Listed(s1))
      ensures s1.slice[Territory(t)].deadline <= bound
    {
      if t in s.act.prev && t !in s.act.got {
        UnpatchedIsDead(p, s, t);
      }
      StrayKept(p, s, t);
    }
  }

  /** A key the refreshed index does not list is as the refresh found it. */
  lemma StrayKept(p: Params, s: State, t: string)
    requires s.act.Reading? && s.act.req.Refreshing? && p.ttl >= SECOND
    requires s.act.got.Keys <= Elements(s.act.prev) && !Resurrects(s)
    requires Live(s.slice, Index, s.now) ==> s.slice[Index].value == IndexV(s.act.prev)
    requires t in s.act.prev && t !in s.act.got ==> !Live(s.slice, Territory(t), s.now)
    requires Live(ExecSlice(p, s), Territory(t), s.now)
    requires !(Live(ExecSlice(p, s), Index, s.now) && t in Listed(Executed(p, s)))
    ensures Look(ExecSlice(p, s), Territory(t)) == Look(s.slice, Territory(t))
    ensures !(Live(s.slice, Index, s.now) && t in Listed(s))
  {
    RefreshSlice(p, s, Index);
    RefreshSlice(p, s, Territory(t));
  }

  lemma ElapseStrays(p: Params, s: State, d: nat, bound: int)
    requires Inv(p, s) && StraysEnd(s, bound)
    ensures StraysEnd(s.(now := s.now + d), bound)
  {
    var s' := s.(now := s.now + d);
    forall t | Live(s'.slice, Territory(t), s'.now) && !(Live(s'.slice, Index, s'.now) && t in Listed(s'))
      ensures s'.slice[Territory(t)].deadline <= bound
    {
      if Live(s.slice, Index, s.now) && t in Listed(s) {
        ListedTogether(p, s.slice, s.feed, t);
      }
    }
  }

  lemma StepStrays(p: Params, s: State, step: Step, bound: int)
    requires Reachable(p, s) && p.ttl >= SECOND && Enabled(s, step) && !Revives(s, step)
    requires StraysEnd(s, bound)
    ensures StraysEnd(Apply(p, s, step), bound)
  {
    ReachableInv(p, s);
    if Aside(step) {
      AsideKeeps(p, s, step);
    } else if step.Elapse? {
      ElapseStrays(p, s, step.d, bound);
    } else {
      CommitsAlike(p, s, step);
      if s.act.req.Swapping? {
        SwapStrays(p, s, bound);
      } else {
        RefreshStrays(p, s, bound);
      }
    }
  }

  lemma {:induction false} StraysAlong(p: Params, s: State, steps: seq<Step>, bound: int)
    requires Reachable(p, s) && p.ttl >= SECOND && Legal(p, s, steps) && NeverRevives(p, s, steps)
    requires StraysEnd(s, bound)
    ensures StraysEnd(After(p, s, steps), bound)
    decreases |steps|
  {
    if steps == [] {
    } else {
      var front := steps[..|steps| - 1];
      StraysAlong(p, s, front, bound);
      ReachesAlong(p, s, front);
      StepStrays(p, After(p, s, front), steps[|steps| - 1], bound);
    }
  }

  /** Strays gone, the index covers; and a covering index leaves none. */
  lemma NoStraysIsIndexed(p: Params, s: State)
    requires Reachable(p, s) && p.ttl >= SECOND
    ensures StraysEnd(s, s.now) ==> Indexed(s)
    ensures Indexed(s) ==> forall bound :: StraysEnd(s, bound)
    ensures StraysEnd(s, s.now + Hold(p))
  {
    ReachableInv(p, s);
  }

  /** Coverage recovers by itself: from any reachable state, once the whole-second
      CacheTTL has passed without another key being revived, the index again lists
      every live anchor key. */
  lemma CoverageRecovers(p: Params, s: State, steps: seq<Step>)
    requires Reachable(p, s) && p.ttl >= SECOND && Legal(p, s, steps) && NeverRevives(p, s, steps)
    requires After(p, s, steps).now >= s.now + Hold(p)
    ensures Indexed(After(p, s, steps))
  {
    NoStraysIsIndexed(p, s);
    StraysAlong(p, s, steps, s.now + Hold(p));
    ReachesAlong(p, s, steps);
    NoStraysIsIndexed(p, After(p, s, steps));
  }
}
