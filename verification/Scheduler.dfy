/** The ticker task: one goroutine that runs its job at once and then on every tick,
    and any number of concurrent Stop calls. */
module Scheduler {

  /** The loop's goroutine: not yet at its first run, inside a job, at the select, with
      a tick in hand, or gone. */
  datatype Loop = Spawned | InJob | AtSelect | Ticked | Gone

  /** One Stop call; the one that won the Once stops the ticker, then closes the channel. */
  datatype Stopper = NotCalled | Entered | StoppingTicker | ClosingChannel | Returned

  datatype Once = Unused | Held | Done

  /** `received` counts ticks taken, `begun` and `ended` job runs, `late` the runs
      begun after some Stop had returned. */
  datatype Task = Task(
    loop: Loop, ticking: bool, pending: bool, closes: nat, once: Once, stoppers: seq<Stopper>,
    received: nat, begun: nat, ended: nat, late: nat)

  datatype Step =
    | Fire
    | BeginJob
    | EndJob
    | TakeTick
    | TakeStop
    | CallStop(i: nat)
    | WinOnce(i: nat)
    | StopTicker(i: nat)
    | CloseChannel(i: nat)
    | PassOnce(i: nat)

  predicate Stopped(t: Task) {
    exists i :: 0 <= i < |t.stoppers| && t.stoppers[i].Returned?
  }

  predicate At(t: Task, i: nat, p: Stopper) { i < |t.stoppers| && t.stoppers[i] == p }

  predicate CanStep(t: Task, s: Step) {
    match s
    case Fire => t.ticking
    case BeginJob => t.loop.Spawned? || t.loop.Ticked?
    case EndJob => t.loop.InJob?
    case TakeTick => t.loop.AtSelect? && t.pending
    case TakeStop => t.loop.AtSelect? && t.closes > 0
    case CallStop(i) => At(t, i, NotCalled)
    case WinOnce(i) => At(t, i, Entered) && t.once.Unused?
    case StopTicker(i) => At(t, i, StoppingTicker)
    case CloseChannel(i) => At(t, i, ClosingChannel)
    case PassOnce(i) => At(t, i, Entered) && t.once.Done?
  }

  /** `stale` says whether a tick already buffered survives Ticker.Stop. */
  function Stepped(stale: bool, t: Task, s: Step): Task
    requires CanStep(t, s)
  {
    match s
    case Fire => t.(pending := true)
    case BeginJob => t.(loop := InJob, begun := t.begun + 1, late := t.late + if Stopped(t) then 1 else 0)
    case EndJob => t.(loop := AtSelect, ended := t.ended + 1)
    case TakeTick => t.(loop := Ticked, pending := false, received := t.received + 1)
    case TakeStop => t.(loop := Gone)
    case CallStop(i) => t.(stoppers := t.stoppers[i := Entered])
    case WinOnce(i) => t.(stoppers := t.stoppers[i := StoppingTicker], once := Held)
    case StopTicker(i) =>
      t.(stoppers := t.stoppers[i := ClosingChannel], ticking := false, pending := t.pending && stale)
    case CloseChannel(i) => t.(stoppers := t.stoppers[i := Returned], closes := t.closes + 1, once := Done)
    case PassOnce(i) => t.(stoppers := t.stoppers[i := Returned])
  }

  /** What Start leaves behind, with any number of Stop calls to come. */
  predicate Started(t: Task) {
    && t == Task(Spawned, true, false, 0, Unused, t.stoppers, 0, 0, 0, 0)
    && forall i :: 0 <= i < |t.stoppers| ==> t.stoppers[i] == NotCalled
  }

  predicate Runs(stale: bool, t: Task, ss: seq<Step>)
    decreases |ss|, 0
  {
    ss == [] || (Runs(stale, t, ss[..|ss| - 1]) && CanStep(AfterRun(stale, t, ss[..|ss| - 1]), ss[|ss| - 1]))
  }

  function AfterRun(stale: bool, t: Task, ss: seq<Step>): Task
    requires Runs(stale, t, ss)
    decreases |ss|, 1
  {
    if ss == [] then t else Stepped(stale, AfterRun(stale, t, ss[..|ss| - 1]), ss[|ss| - 1])
  }

  predicate Inside(p: Stopper) { p.StoppingTicker? || p.ClosingChannel? }

  /** At most this many more runs can begin without another tick firing. */
  function Owing(t: Task): nat {
    (if t.loop.Spawned? || t.loop.Ticked? then 1 else 0) + (if t.pending then 1 else 0)
  }

  predicate TaskInv(stale: bool, t: Task) {
    && t.begun == t.ended + (if t.loop.InJob? then 1 else 0)
    && t.begun == t.received + (if t.loop.Spawned? then 0 else 1) - (if t.loop.Ticked? then 1 else 0)
    && t.closes == (if t.once.Done? then 1 else 0)
    && (forall i :: 0 <= i < |t.stoppers| ==>
          && (Inside(t.stoppers[i]) ==> t.once.Held?)
          && (t.stoppers[i].Returned? ==> t.once.Done?)
          && (t.stoppers[i].ClosingChannel? ==> !t.ticking))
    && (forall i, j :: 0 <= i < j < |t.stoppers| && Inside(t.stoppers[i]) ==> !Inside(t.stoppers[j]))
    && (t.once.Held? ==> exists i :: 0 <= i < |t.stoppers| && Inside(t.stoppers[i]))
    && (t.once.Done? ==> !t.ticking)
    && (!t.ticking && !stale ==> !t.pending)
    && (!Stopped(t) ==> t.late == 0)
    && (Stopped(t) ==> t.late + Owing(t) <= if stale then 2 else 1)
    && (t.loop.Gone? ==> t.closes > 0)
  }

  lemma StopperMoves(stale: bool, t: Task, s: Step, i: nat)
    requires TaskInv(stale, t) && CanStep(t, s) && i < |t.stoppers|
    requires s == CallStop(i) || s == WinOnce(i) || s == StopTicker(i)
    ensures TaskInv(stale, Stepped(stale, t, s))
  {
    var u := Stepped(stale, t, s);
    assert Stopped(u) <==> Stopped(t) by {
      assert forall j :: 0 <= j < |t.stoppers| ==> (u.stoppers[j].Returned? <==> t.stoppers[j].Returned?);
    }
    if s.CallStop? && t.once.Held? {
      var j :| 0 <= j < |t.stoppers| && Inside(t.stoppers[j]);
      assert Inside(u.stoppers[j]);
    } else if !s.CallStop? {
      assert Inside(u.stoppers[i]);
    }
  }

  lemma StopperLeaves(stale: bool, t: Task, s: Step, i: nat)
    requires TaskInv(stale, t) && CanStep(t, s) && i < |t.stoppers|
    requires s == CloseChannel(i) || s == PassOnce(i)
    ensures TaskInv(stale, Stepped(stale, t, s))
  {
    var u := Stepped(stale, t, s);
    assert u.stoppers[i].Returned?;
  }

  lemma StepKeepsTaskInv(stale: bool, t: Task, s: Step)
    requires TaskInv(stale, t) && CanStep(t, s)
    ensures TaskInv(stale, Stepped(stale, t, s))
  {
    match s
    case CallStop(i) => StopperMoves(stale, t, s, i);
    case WinOnce(i) => StopperMoves(stale, t, s, i);
    case StopTicker(i) => StopperMoves(stale, t, s, i);
    case CloseChannel(i) => StopperLeaves(stale, t, s, i);
    case PassOnce(i) => StopperLeaves(stale, t, s, i);
    case _ => assert Stopped(Stepped(stale, t, s)) <==> Stopped(t);
  }

  lemma {:induction false} TaskInvAlways(stale: bool, t: Task, ss: seq<Step>)
    requires Started(t) && Runs(stale, t, ss)
    ensures TaskInv(stale, AfterRun(stale, t, ss))
    decreases |ss|
  {
    if ss == [] {
    } else {
      TaskInvAlways(stale, t, ss[..|ss| - 1]);
      StepKeepsTaskInv(stale, AfterRun(stale, t, ss[..|ss| - 1]), ss[|ss| - 1]);
    }
  }

  /** Runs never overlap; the first needs no tick and every later one takes exactly one;
      the stop channel is closed at most once, and by the time any Stop returns, it is. */
  lemma RunsAreOrderly(stale: bool, t: Task, ss: seq<Step>)
    requires Started(t) && Runs(stale, t, ss)
    ensures var u := AfterRun(stale, t, ss);
      && u.ended <= u.begun <= u.ended + 1
      && u.begun <= u.received + 1
      && (u.begun == 0 ==> CanStep(u, BeginJob) && u.received == 0)
      && u.closes <= 1 && (Stopped(u) ==> u.closes == 1 && !u.ticking)
  {
    TaskInvAlways(stale, t, ss);
  }

  /** After a Stop has returned at most one more run begins when Ticker.Stop discards a
      buffered tick (Go 1.23 on), and at most two when it leaves one behind. */
  lemma FewRunsAfterStop(stale: bool, t: Task, ss: seq<Step>)
    requires Started(t) && Runs(stale, t, ss)
    ensures AfterRun(stale, t, ss).late <= if stale then 2 else 1
  {
    TaskInvAlways(stale, t, ss);
  }

  /** Both bounds are met: the second run needs a tick buffered before the first began. */
  lemma StopBoundsAreMet(stale: bool) returns (t: Task, ss: seq<Step>)
    ensures Started(t) && Runs(stale, t, ss)
    ensures AfterRun(stale, t, ss).late == if stale then 2 else 1
  {
    t := Task(Spawned, true, false, 0, Unused, [NotCalled], 0, 0, 0, 0);
    ss := Extend(stale, t, [], Fire);
    ss := Extend(stale, t, ss, CallStop(0));
    ss := Extend(stale, t, ss, WinOnce(0));
    ss := Extend(stale, t, ss, StopTicker(0));
    ss := Extend(stale, t, ss, CloseChannel(0));
    assert AfterRun(stale, t, ss).stoppers[0].Returned?;
    ss := Extend(stale, t, ss, BeginJob);
    if stale {
      ss := Extend(stale, t, ss, EndJob);
      ss := Extend(stale, t, ss, TakeTick);
      assert AfterRun(stale, t, ss).stoppers[0].Returned?;
      ss := Extend(stale, t, ss, BeginJob);
    }
  }

  lemma Extend(stale: bool, t: Task, ss: seq<Step>, s: Step) returns (more: seq<Step>)
    requires Runs(stale, t, ss) && CanStep(AfterRun(stale, t, ss), s)
    ensures Runs(stale, t, more) && AfterRun(stale, t, more) == Stepped(stale, AfterRun(stale, t, ss), s)
  {
    more := ss + [s];
    assert more[..|more| - 1] == ss;
  }

  /** No tick is lost on a waiting loop: at the select with a tick buffered and no Stop
      done, taking it is the only thing the loop can do, and a run follows. */
  lemma TickStartsRun(stale: bool, t: Task, ss: seq<Step>)
    requires Started(t) && Runs(stale, t, ss)
    requires var u := AfterRun(stale, t, ss); u.loop.AtSelect? && u.pending && u.closes == 0
    ensures var u := AfterRun(stale, t, ss);
      && (forall s :: OfLoop(s) && CanStep(u, s) <==> s == TakeTick)
      && var v := Stepped(stale, u, TakeTick);
      && (forall s :: OfLoop(s) && CanStep(v, s) <==> s == BeginJob)
      && Stepped(stale, v, BeginJob).loop.InJob? && Stepped(stale, v, BeginJob).begun == u.begun + 1
  {
  }

  /** The loop runs as often as it is ticked: for every n a schedule with n ticks taken
      and n + 1 runs completed. */
  lemma {:induction false} EveryTickRuns(stale: bool, t: Task, n: nat) returns (ss: seq<Step>)
    requires Started(t)
    ensures Runs(stale, t, ss)
    ensures var u := AfterRun(stale, t, ss);
      u.received == n && u.begun == n + 1 && u.ended == n + 1 && u.loop.AtSelect? && u.ticking && u.closes == 0
  {
    if n == 0 {
      ss := Extend(stale, t, [], BeginJob);
      ss := Extend(stale, t, ss, EndJob);
    } else {
      ss := EveryTickRuns(stale, t, n - 1);
      ss := Extend(stale, t, ss, Fire);
      ss := Extend(stale, t, ss, TakeTick);
      ss := Extend(stale, t, ss, BeginJob);
      ss := Extend(stale, t, ss, EndJob);
    }
  }

  predicate OfStopper(s: Step) { s.WinOnce? || s.StopTicker? || s.CloseChannel? || s.PassOnce? }

  /** Stop never blocks for good: while some call has begun and not returned, one of
      them can go on. */
  lemma StopNeverStuck(stale: bool, t: Task, ss: seq<Step>, i: nat)
    requires Started(t) && Runs(stale, t, ss) && i < |AfterRun(stale, t, ss).stoppers|
    requires var p := AfterRun(stale, t, ss).stoppers[i]; !p.NotCalled? && !p.Returned?
    ensures exists s :: OfStopper(s) && CanStep(AfterRun(stale, t, ss), s)
  {
    TaskInvAlways(stale, t, ss);
    var u := AfterRun(stale, t, ss);
    if u.once.Held? {
      var j: nat :| j < |u.stoppers| && Inside(u.stoppers[j]);
      var s := if u.stoppers[j].StoppingTicker? then StopTicker(j) else CloseChannel(j);
      assert CanStep(u, s) && OfStopper(s);
    } else {
      var s := if u.once.Unused? then WinOnce(i) else PassOnce(i);
      assert CanStep(u, s) && OfStopper(s);
    }
  }

  /** Loop steps ahead, a buffered tick aside. */
  function Left(t: Task): nat {
    match t.loop
    case Spawned => 3
    case Ticked => 3
    case InJob => 2
    case AtSelect => 1
    case Gone => 0
  }

  predicate OfLoop(s: Step) { s.BeginJob? || s.EndJob? || s.TakeTick? || s.TakeStop? }

  /** Once stopped, the goroutine is gone or has a step to take, and every step it
      takes leaves it fewer: it always ends, as long as its jobs do. */
  lemma StoppedLoopEnds(stale: bool, t: Task, ss: seq<Step>)
    requires Started(t) && Runs(stale, t, ss) && Stopped(AfterRun(stale, t, ss))
    ensures var u := AfterRun(stale, t, ss);
      && (u.loop.Gone? <==> forall s :: OfLoop(s) ==> !CanStep(u, s))
      && forall s :: OfLoop(s) && CanStep(u, s) ==>
           var v := Stepped(stale, u, s);
           !v.ticking && 3 * (if v.pending then 1 else 0) + Left(v) < 3 * (if u.pending then 1 else 0) + Left(u)
  {
    TaskInvAlways(stale, t, ss);
    var u := AfterRun(stale, t, ss);
    if u.loop.AtSelect? {
      assert CanStep(u, TakeStop);
    } else if u.loop.InJob? {
      assert CanStep(u, EndJob);
    } else if !u.loop.Gone? {
      assert CanStep(u, BeginJob);
    }
  }
}
