/** Concurrent Run calls never give the store a second writer: whatever they do, the
    worker underneath takes the steps of one cycle at a time. */
module FlightRefinement {
  import opened Cache
  import opened Keys
  import opened Materialize
  import opened Protocol
  import opened ProtocolTheorems
  import opened Worker
  import opened Flight

  /** The worker with its one cycle, as the call inside SyncAll holds it. */
  ghost predicate Sees(f: Flight, w: World) {
    && w == f.world.(cycle := w.cycle)
    && (forall i :: 0 <= i < |f.calls| && f.calls[i].Working? ==> w.cycle == f.calls[i].cycle)
    && ((forall i :: 0 <= i < |f.calls| ==> !f.calls[i].Working?) ==> w.cycle == NoCycle)
  }

  lemma OutsideSees(c: Config, f: Flight, w: World, m: Move)
    requires FlightInv(f) && Sees(f, w) && IsOutside(m) && MayMove(c, f.world, m)
    ensures MayMove(c, w, m) && Sees(Stepped(c, f, Outside(m)), Moved(c, w, m))
  {
  }

  lemma NoneWorking(f: Flight, i: nat)
    requires FlightInv(f) && i < |f.calls| && Active(f.calls[i]) && !f.calls[i].Working?
    ensures forall j :: 0 <= j < |f.calls| ==> !f.calls[j].Working?
  {
    forall j | 0 <= j < |f.calls| ensures !f.calls[j].Working? {
      if f.calls[j].Working? {
        OneActive(f, i, j);
      }
    }
  }

  lemma BeginSees(c: Config, f: Flight, w: World, i: nat)
    requires FlightInv(f) && Sees(f, w) && i < |f.calls| && f.calls[i].OwnUnlock?
    ensures MayMove(c, w, Begin) && Sees(Acted(c, f, i, Unlock), Moved(c, w, Begin))
  {
    NoneWorking(f, i);
    assert Acted(c, f, i, Unlock).calls[i].Working?;
  }

  lemma WorkedSees(f: Flight, g: Flight, i: nat, d: nat, w: World)
    requires i < |f.calls| && forall j :: 0 <= j < |f.calls| && f.calls[j].Working? ==> j == i
    requires g.world == w.(cycle := NoCycle) && g.calls == f.calls[i := Working(d, w.cycle)]
    ensures Sees(g, w)
  {
    assert g.calls[i].Working?;
  }

  lemma WorkSees(c: Config, f: Flight, w: World, i: nat, m: Move)
    requires FlightInv(f) && Sees(f, w) && i < |f.calls| && CanAct(c, f, i, Work(m))
    ensures MayMove(c, w, m) && Sees(Acted(c, f, i, Work(m)), Moved(c, w, m))
  {
    OnlyWorking(f, i);
    assert w == Inside(f.world, f.calls[i].cycle);
    WorkedSees(f, Acted(c, f, i, Work(m)), i, f.calls[i].d, Moved(c, w, m));
  }

  lemma LeaveSees(c: Config, f: Flight, w: World, i: nat)
    requires FlightInv(f) && Sees(f, w) && i < |f.calls| && CanAct(c, f, i, Leave)
    ensures MayMove(c, w, Finish) && Sees(Acted(c, f, i, Leave), Moved(c, w, Finish))
  {
    OnlyWorking(f, i);
  }

  predicate Internal(f: Flight, i: nat, a: CallStep)
    requires i < |f.calls|
  {
    !a.Work? && !a.Leave? && !(a.Unlock? && f.calls[i].OwnUnlock?)
  }

  lemma InternalSees(c: Config, f: Flight, w: World, i: nat, a: CallStep)
    requires FlightInv(f) && Sees(f, w) && i < |f.calls| && CanAct(c, f, i, a) && Internal(f, i, a)
    ensures Sees(Acted(c, f, i, a), w)
  {
    var g := Acted(c, f, i, a);
    assert forall j :: 0 <= j < |f.calls| ==> (g.calls[j].Working? <==> f.calls[j].Working?);
  }

  lemma CrashSees(c: Config, f: Flight, w: World)
    requires FlightInv(f) && Sees(f, w)
    ensures MayMove(c, w, Reboot) && Sees(Stepped(c, f, Crash), Moved(c, w, Reboot))
  {
  }

  lemma StepSees(c: Config, f: Flight, s: FStep, w: World) returns (w': World)
    requires FlightInv(f) && CanStep(c, f, s) && Sees(f, w) && WorkerReaches(c, w)
    ensures WorkerReaches(c, w') && Sees(Stepped(c, f, s), w')
  {
    var m := Pass(0);
    match s {
      case Outside(n) => OutsideSees(c, f, w, n); m := n;
      case Expire(_) => return w;
      case Crash => CrashSees(c, f, w); m := Reboot;
      case By(i, a) =>
        if a.Work? {
          WorkSees(c, f, w, i, a.m);
          m := a.m;
        } else if a.Leave? {
          LeaveSees(c, f, w, i);
          m := Finish;
        } else if a.Unlock? && f.calls[i].OwnUnlock? {
          BeginSees(c, f, w, i);
          m := Begin;
        } else {
          InternalSees(c, f, w, i, a);
          return w;
        }
    }
    WorkerReachesOn(c, w, m);
    w' := Moved(c, w, m);
  }

  lemma {:induction false} RunSees(c: Config, f: Flight, ss: seq<FStep>) returns (w: World)
    requires FlightInit(f) && Runs(c, f, ss)
    ensures WorkerReaches(c, w) && Sees(AfterSteps(c, f, ss), w)
    decreases |ss|
  {
    if ss == [] {
      w := f.world;
      assert LegalMoves(c, w, []) && AfterMoves(c, w, []) == w;
    } else {
      var front := ss[..|ss| - 1];
      w := RunSees(c, f, front);
      FlightInvAlways(c, f, front);
      w := StepSees(c, AfterSteps(c, f, front), ss[|ss| - 1], w);
    }
  }

  /** Single flight discharges the sole-writer premise: in every state concurrent Run
      calls reach, each type is in a state its own one-writer protocol reaches, with
      the store and memory every call shares. */
  lemma ConcurrentRunsRefineProtocol(c: Config, f: Flight, k: string) returns (w: World)
    requires Reaches(c, f)
    ensures WorkerReaches(c, w) && Sees(f, w)
    ensures Reachable(ParamsOf(c, k), Project(w, k))
  {
    var f0, ss :| FlightInit(f0) && Runs(c, f0, ss) && AfterSteps(c, f0, ss) == f;
    w := RunSees(c, f0, ss);
    WorkerRefinesProtocol(c, w, k);
  }

  /** The worker as call i, inside SyncAll, sees it. */
  function SeenBy(f: Flight, i: nat): World
    requires i < |f.calls| && f.calls[i].Working?
  {
    Inside(f.world, f.calls[i].cycle)
  }

  /** Call i is about to commit a type whose previous keys are unexpired. */
  ghost predicate CommitsUnexpired(c: Config, f: Flight, i: nat) {
    && i < |f.calls| && f.calls[i].Working? && CanAct(c, f, i, Work(Inner(ExecStep(Committed))))
    && CommitsNow(c, SeenBy(f, i))
  }

  /** What is served does not depend on where the cycle stands. */
  lemma CycleAsideServes(p: Params, w: World, k: string, req: Request)
    ensures Materialized(p, Project(w.(cycle := NoCycle), k), req) <==> Materialized(p, Project(w, k), req)
  {
    var a, b := Project(w.(cycle := NoCycle), k), Project(w, k);
    var id, horizon := FreshnessOf(req).snapshotId, FreshnessOf(req).validUntil;
    if id in a.feed.pubs {
      forall t ensures Serves(p, a, id, horizon, t) <==> Serves(p, b, id, horizon, t) {
      }
    }
  }

  lemma CommitActs(c: Config, f: Flight, i: nat)
    requires CommitsUnexpired(c, f, i)
    ensures Acted(c, f, i, Work(Inner(ExecStep(Committed)))).world
      == Moved(c, SeenBy(f, i), Inner(ExecStep(Committed))).(cycle := NoCycle)
  {
  }

  /** The headline for any number of callers and any schedule of them: when the call
      inside SyncAll commits a type whose previous keys are unexpired, that type's
      live anchors are exactly upstream's confirmed snapshot if and only if its live
      anchor keys are accounted for. */
  lemma ConcurrentRunsServeUpstream(c: Config, f: Flight, i: nat)
    requires Reaches(c, f) && c.ttl >= SECOND && CommitsUnexpired(c, f, i)
    ensures var k, s := SeenBy(f, i).cycle.kind, InHand(SeenBy(f, i));
      var w := Acted(c, f, i, Work(Inner(ExecStep(Committed)))).world;
      Materialized(ParamsOf(c, k), Project(w, k), s.act.req) <==> Accounted(s)
  {
    var k, w := SeenBy(f, i).cycle.kind, SeenBy(f, i);
    SeenIsReached(c, f, i);
    WorkerRefinesUpstream(c, w);
    CommitActs(c, f, i);
    CycleAsideServes(ParamsOf(c, k), Moved(c, w, Inner(ExecStep(Committed))), k, InHand(w).act.req);
  }

  lemma SeenIsReached(c: Config, f: Flight, i: nat)
    requires Reaches(c, f) && i < |f.calls| && f.calls[i].Working?
    ensures WorkerReaches(c, SeenBy(f, i))
  {
    var w := ConcurrentRunsRefineProtocol(c, f, "");
    assert w == SeenBy(f, i);
  }
}
