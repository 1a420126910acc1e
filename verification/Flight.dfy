/** Any number of concurrent Run calls: the mutex, the in-flight channel, the gap
    between clearing it and closing it, and contexts that expire. */
module Flight {
  import opened Wrappers
  import opened Worker

  /** Where one Run call stands. A call that holds the mutex is in one of the
      bracketed sections; `d` is the done channel it owns or waits on. */
  datatype Pc =
    | NotCalled
    | WantTest
    | Testing
    | JoinUnlock(d: nat)
    | Waiting(d: nat)
    | OwnUnlock(d: nat)
    | Working(d: nat, cycle: Cycle)
    | WantClear(d: nat)
    | Clearing(d: nat)
    | ClearUnlock(d: nat)
    | Closing(d: nat)
    | Returned(d: nat, owner: bool, failed: bool)
    | Killed(owner: bool)

  /** `made` counts the channels made, `finished` the ones whose SyncAll returned. */
  datatype Flight = Flight(
    world: World, calls: seq<Pc>, mutex: Option<nat>, inflight: Option<nat>,
    made: nat, finished: set<nat>, closed: set<nat>, expired: set<nat>)

  datatype CallStep =
    | Call | Lock | Test | Unlock | Work(m: Move) | Leave | Clear | Close | Wake | GiveUp

  datatype FStep =
    | Outside(m: Move)
    | Expire(i: nat)
    | Crash
    | By(i: nat, act: CallStep)

  predicate Holds(pc: Pc) {
    pc.Testing? || pc.JoinUnlock? || pc.OwnUnlock? || pc.Clearing? || pc.ClearUnlock?
  }

  /** An owner that has not yet cleared `inflight`. */
  predicate Active(pc: Pc) {
    pc.OwnUnlock? || pc.Working? || pc.WantClear? || pc.Clearing?
  }

  /** An owner that has yet to close its channel. */
  predicate Owes(pc: Pc) { Active(pc) || pc.ClearUnlock? || pc.Closing? }

  predicate Awaits(pc: Pc) { pc.JoinUnlock? || pc.Waiting? }

  /** Moves of the world that no Run call makes. */
  predicate IsOutside(m: Move) { m.Pass? || m.Announce? || m.Foreign? }

  /** Moves a Run call makes inside SyncAll. */
  predicate IsWork(m: Move) { m.Visit? || m.Inner? }

  /** The worker as the call inside SyncAll sees it. */
  function Inside(w: World, cycle: Cycle): World { w.(cycle := cycle) }

  predicate CanAct(c: Config, f: Flight, i: nat, a: CallStep)
    requires i < |f.calls|
  {
    var pc := f.calls[i];
    match a
    case Call => pc.NotCalled?
    case Lock => (pc.WantTest? || pc.WantClear?) && f.mutex.None?
    case Test => pc.Testing?
    case Unlock => pc.JoinUnlock? || pc.OwnUnlock? || pc.ClearUnlock?
    case Work(m) => pc.Working? && IsWork(m) && MayMove(c, Inside(f.world, pc.cycle), m)
    case Leave => pc.Working? && pc.cycle == Between([])
    case Clear => pc.Clearing?
    case Close => pc.Closing?
    case Wake => pc.Waiting? && pc.d in f.closed
    case GiveUp => pc.Waiting? && i in f.expired
  }

  predicate CanStep(c: Config, f: Flight, s: FStep) {
    match s
    case Outside(m) => IsOutside(m) && MayMove(c, f.world, m)
    case Expire(_) => true
    case Crash => true
    case By(i, a) => i < |f.calls| && CanAct(c, f, i, a)
  }

  ghost function Acted(c: Config, f: Flight, i: nat, a: CallStep): Flight
    requires i < |f.calls| && CanAct(c, f, i, a)
  {
    var pc := f.calls[i];
    match a
    case Call => f.(calls := f.calls[i := WantTest])
    case Lock => f.(mutex := Some(i), calls := f.calls[i := if pc.WantTest? then Testing else Clearing(pc.d)])
    case Test =>
      if f.inflight.Some? then f.(calls := f.calls[i := JoinUnlock(f.inflight.value)])
      else f.(calls := f.calls[i := OwnUnlock(f.made)], inflight := Some(f.made), made := f.made + 1)
    case Unlock =>
      f.(mutex := None, calls := f.calls[i :=
        if pc.JoinUnlock? then Waiting(pc.d)
        else if pc.OwnUnlock? then Working(pc.d, Between(c.types))
        else Closing(pc.d)])
    case Work(m) =>
      var w := Moved(c, Inside(f.world, pc.cycle), m);
      f.(world := w.(cycle := NoCycle), calls := f.calls[i := Working(pc.d, w.cycle)])
    case Leave => f.(finished := f.finished + {pc.d}, calls := f.calls[i := WantClear(pc.d)])
    case Clear => f.(inflight := None, calls := f.calls[i := ClearUnlock(pc.d)])
    case Close => f.(closed := f.closed + {pc.d}, calls := f.calls[i := Returned(pc.d, true, false)])
    case Wake => f.(calls := f.calls[i := Returned(pc.d, false, false)])
    case GiveUp => f.(calls := f.calls[i := Returned(pc.d, false, true)])
  }

  /** The role a call has taken so far: it owns a cycle, or not. */
  predicate IsOwner(pc: Pc) {
    Owes(pc) || (pc.Returned? && pc.owner) || (pc.Killed? && pc.owner)
  }

  /** A process crash ends every call under way and forgets the process memory. */
  function AfterCrash(pc: Pc): Pc {
    if pc.NotCalled? || pc.Returned? then pc else Killed(IsOwner(pc))
  }

  ghost function Stepped(c: Config, f: Flight, s: FStep): Flight
    requires CanStep(c, f, s)
  {
    match s
    case Outside(m) => f.(world := Moved(c, f.world, m))
    case Expire(i) => f.(expired := f.expired + {i})
    case Crash =>
      f.(world := Moved(c, f.world, Reboot), mutex := None, inflight := None,
         calls := seq(|f.calls|, i requires 0 <= i < |f.calls| => AfterCrash(f.calls[i])))
    case By(i, a) => Acted(c, f, i, a)
  }

  ghost predicate FlightInit(f: Flight) {
    && WorkerInit(f.world)
    && (forall i :: 0 <= i < |f.calls| ==> f.calls[i] == NotCalled)
    && f.mutex == None && f.inflight == None && f.made == 0 && f.finished == {} && f.closed == {}
  }

  ghost predicate Runs(c: Config, f: Flight, ss: seq<FStep>)
    decreases |ss|, 0
  {
    ss == [] || (Runs(c, f, ss[..|ss| - 1]) && CanStep(c, AfterSteps(c, f, ss[..|ss| - 1]), ss[|ss| - 1]))
  }

  ghost function AfterSteps(c: Config, f: Flight, ss: seq<FStep>): Flight
    requires Runs(c, f, ss)
    decreases |ss|, 1
  {
    if ss == [] then f else Stepped(c, AfterSteps(c, f, ss[..|ss| - 1]), ss[|ss| - 1])
  }

  ghost predicate Reaches(c: Config, f: Flight) {
    exists f0, ss :: FlightInit(f0) && Runs(c, f0, ss) && AfterSteps(c, f0, ss) == f
  }

  // ---- safety -------------------------------------------------------------------

  ghost predicate PcOk(f: Flight, i: nat)
    requires i < |f.calls|
  {
    var pc := f.calls[i];
    && (Holds(pc) <==> f.mutex == Some(i))
    && (Active(pc) ==> f.inflight == Some(pc.d))
    && (Owes(pc) ==> pc.d < f.made && pc.d !in f.closed)
    && (pc.WantClear? || pc.Clearing? || pc.ClearUnlock? || pc.Closing? ==> pc.d in f.finished)
    && (pc.ClearUnlock? || pc.Closing? ==> f.inflight != Some(pc.d))
    && (Awaits(pc) ==> pc.d in f.closed || exists j :: 0 <= j < |f.calls| && Owes(f.calls[j]) && f.calls[j].d == pc.d)
    && (pc.Returned? && !pc.failed ==> pc.d in f.finished && pc.d in f.closed)
    && (pc.Returned? && pc.failed ==> !pc.owner && i in f.expired)
  }

  /** No two owners share a channel. */
  ghost predicate Apart(f: Flight) {
    forall i, j :: 0 <= i < j < |f.calls| && Owes(f.calls[i]) && Owes(f.calls[j]) ==> f.calls[i].d != f.calls[j].d
  }

  ghost predicate FlightInv(f: Flight) {
    && f.world.cycle == NoCycle
    && (forall i :: 0 <= i < |f.calls| ==> PcOk(f, i))
    && Apart(f)
    && (f.inflight.Some? ==> f.inflight.value < f.made)
    && (f.inflight.Some? ==>
          exists i :: 0 <= i < |f.calls| && Active(f.calls[i]) && f.calls[i].d == f.inflight.value)
    && (f.mutex.Some? ==> f.mutex.value < |f.calls|)
    && (forall d :: d in f.finished ==> d < f.made)
    && f.closed <= f.finished
  }

  /** At most one call is an active owner; in particular at most one is inside SyncAll. */
  lemma OneActive(f: Flight, i: nat, j: nat)
    requires FlightInv(f) && i < |f.calls| && j < |f.calls| && Active(f.calls[i]) && Active(f.calls[j])
    ensures i == j
  {
    assert PcOk(f, i) && PcOk(f, j);
  }

  lemma OnlyWorking(f: Flight, i: nat)
    requires FlightInv(f) && i < |f.calls| && f.calls[i].Working?
    ensures forall j :: 0 <= j < |f.calls| && f.calls[j].Working? ==> j == i
  {
    forall j | 0 <= j < |f.calls| && f.calls[j].Working? ensures j == i {
      OneActive(f, i, j);
    }
  }

  /** Changing one call's position keeps every awaited channel served, as long as that
      call still owes its channel or has just closed it. */
  lemma StillServed(f: Flight, g: Flight, i: nat, d: nat)
    requires i < |f.calls| && |g.calls| == |f.calls| && f.closed <= g.closed
    requires forall j :: 0 <= j < |f.calls| && j != i ==> g.calls[j] == f.calls[j]
    requires Owes(f.calls[i]) ==> (Owes(g.calls[i]) && g.calls[i].d == f.calls[i].d) || f.calls[i].d in g.closed
    requires d in f.closed || exists j :: 0 <= j < |f.calls| && Owes(f.calls[j]) && f.calls[j].d == d
    ensures d in g.closed || exists j :: 0 <= j < |g.calls| && Owes(g.calls[j]) && g.calls[j].d == d
  {
    if d !in f.closed {
      var j :| 0 <= j < |f.calls| && Owes(f.calls[j]) && f.calls[j].d == d;
      if j != i {
        assert Owes(g.calls[j]);
      }
    }
  }

  lemma OthersOk(c: Config, f: Flight, i: nat, a: CallStep, j: nat)
    requires FlightInv(f) && i < |f.calls| && j < |f.calls| && j != i && CanAct(c, f, i, a)
    ensures PcOk(Acted(c, f, i, a), j)
  {
    var g := Acted(c, f, i, a);
    assert PcOk(f, j) && PcOk(f, i);
    if Awaits(f.calls[j]) {
      StillServed(f, g, i, f.calls[j].d);
    }
    if a.Clear? && Active(f.calls[j]) {
      OneActive(f, i, j);
    }
    if a.Close? && Owes(f.calls[j]) {
      assert f.calls[i].d != f.calls[j].d;
    }
  }

  lemma ActorOk(c: Config, f: Flight, i: nat, a: CallStep)
    requires FlightInv(f) && i < |f.calls| && CanAct(c, f, i, a)
    ensures PcOk(Acted(c, f, i, a), i)
  {
    var g := Acted(c, f, i, a);
    assert PcOk(f, i);
    if a.Test? && f.inflight.Some? {
      var j :| 0 <= j < |f.calls| && Active(f.calls[j]) && f.calls[j].d == f.inflight.value;
      assert Owes(g.calls[j]);
    }
    if Awaits(f.calls[i]) && Awaits(g.calls[i]) {
      StillServed(f, g, i, f.calls[i].d);
    }
  }

  lemma ActKeepsApart(c: Config, f: Flight, i: nat, a: CallStep)
    requires FlightInv(f) && i < |f.calls| && CanAct(c, f, i, a)
    ensures Apart(Acted(c, f, i, a))
  {
    var g := Acted(c, f, i, a);
    forall j, k | 0 <= j < k < |g.calls| && Owes(g.calls[j]) && Owes(g.calls[k])
      ensures g.calls[j].d != g.calls[k].d
    {
      assert PcOk(f, j) && PcOk(f, k);
    }
  }

  lemma ActKeepsFlightInv(c: Config, f: Flight, i: nat, a: CallStep)
    requires FlightInv(f) && i < |f.calls| && CanAct(c, f, i, a)
    ensures FlightInv(Acted(c, f, i, a))
  {
    var g := Acted(c, f, i, a);
    forall j | 0 <= j < |g.calls| ensures PcOk(g, j) {
      if j == i {
        ActorOk(c, f, i, a);
      } else {
        OthersOk(c, f, i, a, j);
      }
    }
    ActKeepsApart(c, f, i, a);
    assert PcOk(f, i);
    if g.inflight.Some? {
      if f.inflight.Some? {
        var j :| 0 <= j < |f.calls| && Active(f.calls[j]) && f.calls[j].d == f.inflight.value;
        assert Active(g.calls[j]) && g.calls[j].d == f.inflight.value;
      } else {
        assert Active(g.calls[i]) && g.calls[i].d == g.inflight.value;
      }
    }
  }

  lemma CrashKeepsFlightInv(c: Config, f: Flight)
    requires FlightInv(f)
    ensures FlightInv(Stepped(c, f, Crash))
  {
    var g := Stepped(c, f, Crash);
    forall j | 0 <= j < |g.calls| ensures PcOk(g, j) {
      assert PcOk(f, j);
    }
  }

  lemma StepKeepsFlightInv(c: Config, f: Flight, s: FStep)
    requires FlightInv(f) && CanStep(c, f, s)
    ensures FlightInv(Stepped(c, f, s))
  {
    match s
    case By(i, a) => ActKeepsFlightInv(c, f, i, a);
    case Crash => CrashKeepsFlightInv(c, f);
    case Outside(m) =>
      var g := Stepped(c, f, s);
      forall j | 0 <= j < |g.calls| ensures PcOk(g, j) {
        assert PcOk(f, j);
      }
    case Expire(i) =>
      var g := Stepped(c, f, s);
      forall j | 0 <= j < |g.calls| ensures PcOk(g, j) {
        assert PcOk(f, j);
      }
  }

  lemma {:induction false} FlightInvAlways(c: Config, f: Flight, ss: seq<FStep>)
    requires FlightInit(f) && Runs(c, f, ss)
    ensures FlightInv(AfterSteps(c, f, ss))
    decreases |ss|
  {
    if ss == [] {
    } else {
      FlightInvAlways(c, f, ss[..|ss| - 1]);
      StepKeepsFlightInv(c, AfterSteps(c, f, ss[..|ss| - 1]), ss[|ss| - 1]);
    }
  }

  /** Single-flight safety for any number of calls and any schedule: at most one call
      is inside SyncAll; `inflight` names a channel exactly while its owner has not
      cleared it; an owner about to close finds its channel open, and the channel of
      no other owner, so each is closed once; and a call between clearing and closing
      has its cycle's work behind it, so a new cycle never overlaps the old one. */
  lemma SingleFlight(c: Config, f: Flight, i: nat, j: nat)
    requires Reaches(c, f) && i < |f.calls| && j < |f.calls|
    ensures f.calls[i].Working? && f.calls[j].Working? ==> i == j
    ensures f.inflight.Some? <==> exists k :: 0 <= k < |f.calls| && Active(f.calls[k])
    ensures Active(f.calls[i]) ==> f.inflight == Some(f.calls[i].d)
    ensures f.calls[i].Closing? ==> f.calls[i].d !in f.closed && f.calls[i].d in f.finished
    ensures Owes(f.calls[i]) && Owes(f.calls[j]) && i != j ==> f.calls[i].d != f.calls[j].d
  {
    var f0, ss :| FlightInit(f0) && Runs(c, f0, ss) && AfterSteps(c, f0, ss) == f;
    FlightInvAlways(c, f0, ss);
    assert PcOk(f, i) && PcOk(f, j);
    if Active(f.calls[i]) && Active(f.calls[j]) {
      OneActive(f, i, j);
    }
    forall k | 0 <= k < |f.calls| && Active(f.calls[k]) ensures f.inflight.Some? {
      assert PcOk(f, k);
    }
  }

  predicate HasChannel(pc: Pc) {
    Owes(pc) || Awaits(pc) || pc.Returned?
  }

  /** Call i, having arrived, held channel d while d was the one in flight. */
  ghost predicate TookInFlight(c: Config, f: Flight, ss: seq<FStep>, n: nat, i: nat, d: nat)
    requires Runs(c, f, ss)
  {
    && n <= |ss| && Runs(c, f, ss[..n])
    && var g := AfterSteps(c, f, ss[..n]);
    && i < |g.calls| && g.inflight == Some(d)
    && (g.calls[i] == JoinUnlock(d) || g.calls[i] == OwnUnlock(d))
  }

  lemma ChannelKept(c: Config, f: Flight, s: FStep, i: nat)
    requires CanStep(c, f, s) && i < |f.calls| && HasChannel(Stepped(c, f, s).calls[i])
    requires s != By(i, Test)
    ensures HasChannel(f.calls[i]) && Stepped(c, f, s).calls[i].d == f.calls[i].d
  {
  }

  lemma {:induction false} ChannelWasInFlight(c: Config, f: Flight, ss: seq<FStep>, i: nat)
    requires FlightInit(f) && Runs(c, f, ss)
    requires i < |AfterSteps(c, f, ss).calls| && HasChannel(AfterSteps(c, f, ss).calls[i])
    ensures exists n: nat :: TookInFlight(c, f, ss, n, i, AfterSteps(c, f, ss).calls[i].d)
    decreases |ss|
  {
    if ss == [] {
    } else {
      var front, last := ss[..|ss| - 1], ss[|ss| - 1];
      var g := AfterSteps(c, f, ss);
      if last == By(i, Test) {
        assert ss[..|ss|] == ss;
        assert TookInFlight(c, f, ss, |ss|, i, g.calls[i].d);
      } else {
        ChannelKept(c, AfterSteps(c, f, front), last, i);
        ChannelWasInFlight(c, f, front, i);
        var n: nat :| TookInFlight(c, f, front, n, i, g.calls[i].d);
        assert front[..n] == ss[..n];
        assert TookInFlight(c, f, ss, n, i, g.calls[i].d);
      }
    }
  }

  /** What a return means: nil, that the cycle in flight at arrival, or started then,
      has finished and its channel is closed; an error, that the caller was waiting
      on someone else's cycle and its own context expired. */
  lemma ReturnsMean(c: Config, f: Flight, ss: seq<FStep>, i: nat)
    requires FlightInit(f) && Runs(c, f, ss)
    requires i < |AfterSteps(c, f, ss).calls| && AfterSteps(c, f, ss).calls[i].Returned?
    ensures var g := AfterSteps(c, f, ss);
      && (!g.calls[i].failed ==> g.calls[i].d in g.finished && g.calls[i].d in g.closed)
      && (g.calls[i].failed ==> !g.calls[i].owner && i in g.expired)
      && exists n: nat :: TookInFlight(c, f, ss, n, i, g.calls[i].d)
  {
    FlightInvAlways(c, f, ss);
    assert PcOk(AfterSteps(c, f, ss), i);
    ChannelWasInFlight(c, f, ss, i);
  }

  /** How many calls, up to the n-th, own or owned a cycle. */
  function Owners(calls: seq<Pc>, n: nat): nat
    requires n <= |calls|
  {
    if n == 0 then 0 else Owners(calls, n - 1) + if IsOwner(calls[n - 1]) then 1 else 0
  }

  lemma {:induction false} OwnersUpdate(calls: seq<Pc>, i: nat, pc: Pc, n: nat)
    requires i < |calls| && n <= |calls|
    ensures Owners(calls[i := pc], n) == Owners(calls, n)
      + (if i < n && IsOwner(pc) then 1 else 0) - (if i < n && IsOwner(calls[i]) then 1 else 0)
  {
    if n == 0 {
    } else {
      OwnersUpdate(calls, i, pc, n - 1);
    }
  }

  lemma {:induction false} OwnersAfterCrash(a: seq<Pc>, b: seq<Pc>, n: nat)
    requires |a| == |b| && n <= |a|
    requires forall i :: 0 <= i < |a| ==> b[i] == AfterCrash(a[i])
    ensures Owners(b, n) == Owners(a, n)
  {
    if n == 0 {
    } else {
      OwnersAfterCrash(a, b, n - 1);
    }
  }

  lemma StepCountsOwners(c: Config, f: Flight, s: FStep)
    requires CanStep(c, f, s)
    ensures var g := Stepped(c, f, s);
      |g.calls| == |f.calls| && g.made - Owners(g.calls, |g.calls|) == f.made - Owners(f.calls, |f.calls|)
  {
    var g := Stepped(c, f, s);
    match s
    case By(i, a) => OwnersUpdate(f.calls, i, g.calls[i], |f.calls|);
    case Crash => OwnersAfterCrash(f.calls, g.calls, |f.calls|);
    case _ =>
  }

  /** Conservation: exactly one cycle is started per owner, so of all calls that got
      past the test every one either started a cycle of its own or joined one. */
  lemma {:induction false} OneCyclePerOwner(c: Config, f: Flight, ss: seq<FStep>)
    requires FlightInit(f) && Runs(c, f, ss)
    ensures var g := AfterSteps(c, f, ss); |g.calls| == |f.calls| && g.made == Owners(g.calls, |g.calls|)
    decreases |ss|
  {
    if ss == [] {
      NoOwners(f.calls, |f.calls|);
    } else {
      OneCyclePerOwner(c, f, ss[..|ss| - 1]);
      StepCountsOwners(c, AfterSteps(c, f, ss[..|ss| - 1]), ss[|ss| - 1]);
    }
  }

  lemma {:induction false} NoOwners(calls: seq<Pc>, n: nat)
    requires n <= |calls| && forall i :: 0 <= i < |calls| ==> calls[i] == NotCalled
    ensures Owners(calls, n) == 0
  {
    if n == 0 {
    } else {
      NoOwners(calls, n - 1);
    }
  }
}
