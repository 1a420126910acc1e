/** Every Run call returns: a measure no step raises and every step of a call lowers,
    and no state in which a call is under way but none can move. */
module FlightProgress {
  import opened Wrappers
  import opened Materialize
  import opened Protocol
  import opened Worker
  import opened Flight

  // ---- the measure --------------------------------------------------------------

  /** Steps a call has ahead of it, SyncAll counted as one. */
  function Rank(pc: Pc): nat {
    match pc
    case NotCalled => 10
    case WantTest => 9
    case Testing => 8
    case OwnUnlock(_) => 7
    case Working(_, _) => 6
    case WantClear(_) => 5
    case Clearing(_) => 4
    case ClearUnlock(_) => 3
    case Closing(_) | JoinUnlock(_) => 2
    case Waiting(_) => 1
    case Returned(_, _, _) | Killed(_) => 0
  }

  /** Steps a cycle has ahead of it: types to visit, phases of the visit in hand, entry gets. */
  datatype Ahead = Ahead(types: nat, phase: nat, gets: nat)

  function ReadsLeft(act: Act): nat {
    if act.Reading? && act.next < |act.prev| then |act.prev| - act.next else 0
  }

  function Phase(act: Act): nat {
    match act
    case Quiet => 0
    case Confirmed(_) => 1
    case Reading(_, _, _, _, _) => 2
    case Asked(_) => 3
    case Replied(_) => 4
  }

  function AheadOf(cycle: Cycle): Ahead {
    match cycle
    case NoCycle => Ahead(0, 0, 0)
    case Between(todo) => Ahead(|todo|, 0, 0)
    case Busy(_, act, todo) => Ahead(|todo|, Phase(act), ReadsLeft(act))
  }

  predicate Lower(a: Ahead, b: Ahead) {
    || a.types < b.types
    || (a.types == b.types && a.phase < b.phase)
    || (a.types == b.types && a.phase == b.phase && a.gets < b.gets)
  }

  function Ranks(calls: seq<Pc>, n: nat): nat
    requires n <= |calls|
  {
    if n == 0 then 0 else Ranks(calls, n - 1) + Rank(calls[n - 1])
  }

  /** The cycle of the first call inside SyncAll, if any. */
  function CycleIn(calls: seq<Pc>): Cycle {
    if calls == [] then NoCycle
    else if calls[0].Working? then calls[0].cycle
    else CycleIn(calls[1..])
  }

  predicate Less(f: Flight, g: Flight) {
    var m, n := Ranks(f.calls, |f.calls|), Ranks(g.calls, |g.calls|);
    m < n || (m == n && Lower(AheadOf(CycleIn(f.calls)), AheadOf(CycleIn(g.calls))))
  }

  predicate AtMost(f: Flight, g: Flight) {
    var m, n := Ranks(f.calls, |f.calls|), Ranks(g.calls, |g.calls|);
    m < n || (m == n && (AheadOf(CycleIn(f.calls)) == AheadOf(CycleIn(g.calls))
                         || Lower(AheadOf(CycleIn(f.calls)), AheadOf(CycleIn(g.calls)))))
  }

  lemma {:induction false} RanksUpdate(calls: seq<Pc>, i: nat, pc: Pc, n: nat)
    requires i < |calls| && n <= |calls|
    ensures Ranks(calls[i := pc], n) == Ranks(calls, n) + if i < n then Rank(pc) - Rank(calls[i]) else 0
  {
    if n == 0 {
    } else {
      RanksUpdate(calls, i, pc, n - 1);
    }
  }

  lemma {:induction false} RanksAfterCrash(a: seq<Pc>, b: seq<Pc>, n: nat)
    requires |a| == |b| && n <= |a|
    requires forall i :: 0 <= i < |a| ==> b[i] == AfterCrash(a[i])
    ensures Ranks(b, n) <= Ranks(a, n)
    ensures (exists i :: 0 <= i < n && !Settled(a[i])) ==> Ranks(b, n) < Ranks(a, n)
  {
    if n == 0 {
    } else {
      RanksAfterCrash(a, b, n - 1);
    }
  }

  lemma {:induction false} CycleInIs(calls: seq<Pc>, i: nat)
    requires i < |calls| && calls[i].Working?
    requires forall j :: 0 <= j < |calls| && calls[j].Working? ==> j == i
    ensures CycleIn(calls) == calls[i].cycle
  {
    if i == 0 {
    } else {
      assert !calls[0].Working?;
      CycleInIs(calls[1..], i - 1);
    }
  }

  predicate Settled(pc: Pc) { pc.NotCalled? || pc.Returned? || pc.Killed? }

  predicate AllSettled(f: Flight) {
    forall i :: 0 <= i < |f.calls| ==> Settled(f.calls[i])
  }

  // ---- what a cycle keeps ---------------------------------------------------------

  /** A visit in progress always has a next step. */
  predicate CycleOk(cycle: Cycle) {
    !cycle.NoCycle? && (cycle.Busy? ==> GoesOn(cycle.act))
  }

  ghost predicate Sound(f: Flight) {
    FlightInv(f) && forall i :: 0 <= i < |f.calls| && f.calls[i].Working? ==> CycleOk(f.calls[i].cycle)
  }

  predicate GoesOn(act: Act) {
    && !act.Quiet?
    && (act.Replied? ==> !act.reply.Failed?)
    && (act.Reading? ==> act.next <= |act.prev|)
  }

  lemma InnerShrinks(p: Params, s: State, step: Step)
    requires IsInner(step) && Enabled(s, step) && GoesOn(s.act)
    ensures var act := Apply(p, s, step).act;
      act.Quiet?
      || (GoesOn(act) && Lower(Ahead(0, Phase(act), ReadsLeft(act)), Ahead(0, Phase(s.act), ReadsLeft(s.act))))
  {
  }

  lemma VisitShrinks(c: Config, w: World, m: Move)
    requires CycleOk(w.cycle) && IsWork(m) && MayMove(c, w, m)
    ensures CycleOk(Moved(c, w, m).cycle) && Lower(AheadOf(Moved(c, w, m).cycle), AheadOf(w.cycle))
  {
    match m
    case Visit(reply) =>
      var k := w.cycle.todo[0];
      var s := Project(w, k);
      EmbedFields(w, k, Apply(ParamsOf(c, k), s, Poll(reply)), w.cycle.todo[1..]);
    case Inner(step) =>
      var k := w.cycle.kind;
      var s := Project(w, k);
      assert s.act == w.cycle.act;
      InnerShrinks(ParamsOf(c, k), s, step);
      EmbedFields(w, k, Apply(ParamsOf(c, k), s, step), w.cycle.todo);
  }

  lemma ActShrinks(c: Config, f: Flight, i: nat, a: CallStep)
    requires Sound(f) && i < |f.calls| && CanAct(c, f, i, a)
    ensures Sound(Acted(c, f, i, a)) && Less(Acted(c, f, i, a), f)
  {
    var g := Acted(c, f, i, a);
    ActKeepsFlightInv(c, f, i, a);
    RanksUpdate(f.calls, i, g.calls[i], |f.calls|);
    if a.Work? {
      VisitShrinks(c, Inside(f.world, f.calls[i].cycle), a.m);
      OnlyWorking(f, i);
      OnlyWorking(g, i);
      CycleInIs(f.calls, i);
      CycleInIs(g.calls, i);
    } else {
      assert Rank(g.calls[i]) < Rank(f.calls[i]);
    }
  }

  lemma {:induction false} NobodyInside(calls: seq<Pc>)
    requires forall i :: 0 <= i < |calls| ==> !calls[i].Working?
    ensures CycleIn(calls) == NoCycle
  {
    if calls == [] {
    } else {
      NobodyInside(calls[1..]);
    }
  }

  lemma CrashShrinks(c: Config, f: Flight)
    requires Sound(f)
    ensures Sound(Stepped(c, f, Crash)) && AtMost(Stepped(c, f, Crash), f) && AllSettled(Stepped(c, f, Crash))
  {
    var g := Stepped(c, f, Crash);
    CrashKeepsFlightInv(c, f);
    RanksAfterCrash(f.calls, g.calls, |f.calls|);
    if forall i :: 0 <= i < |f.calls| ==> Settled(f.calls[i]) {
      NobodyInside(f.calls);
      NobodyInside(g.calls);
    }
  }

  /** No step raises the measure; every step of a call lowers it. */
  lemma StepsShrink(c: Config, f: Flight, s: FStep)
    requires Sound(f) && CanStep(c, f, s)
    ensures Sound(Stepped(c, f, s)) && AtMost(Stepped(c, f, s), f)
    ensures s.By? ==> Less(Stepped(c, f, s), f)
    ensures s.Outside? || s.Expire? ==> Stepped(c, f, s).calls == f.calls
  {
    match s
    case By(i, a) => ActShrinks(c, f, i, a);
    case Crash => CrashShrinks(c, f);
    case _ => StepKeepsFlightInv(c, f, s);
  }

  // ---- no deadlock ----------------------------------------------------------------

  /** Some call can go on by itself, without a new call arriving or one giving up. */
  ghost predicate CanProceed(c: Config, f: Flight) {
    exists i: nat, a: CallStep :: i < |f.calls| && !a.Call? && !a.GiveUp? && CanAct(c, f, i, a)
  }

  lemma WorkingProceeds(c: Config, f: Flight, i: nat)
    requires Sound(f) && i < |f.calls| && f.calls[i].Working?
    ensures CanProceed(c, f)
  {
    var cycle := f.calls[i].cycle;
    match cycle
    case Between(todo) =>
      if todo == [] {
        assert CanAct(c, f, i, Leave);
      } else {
        assert CanAct(c, f, i, Work(Visit(Failed)));
      }
    case Busy(k, act, todo) =>
      var s := Project(Inside(f.world, cycle), k);
      assert s.act == act;
      var step :=
        if act.Replied? then Receive
        else if act.Asked? then ReadIndexStep(false)
        else if act.Confirmed? then Record
        else if act.req.Refreshing? && act.next < |act.prev| then ReadEntryStep(false)
        else ExecStep(Committed);
      assert CanAct(c, f, i, Work(Inner(step)));
  }

  /** Unless every call has returned or not yet begun, some call can proceed: a held
      mutex is released, an awaited channel has an owner on its way to closing it. */
  lemma NeverStuck(c: Config, f: Flight)
    requires Sound(f) && !AllSettled(f)
    ensures CanProceed(c, f)
  {
    if f.mutex.Some? {
      HolderProceeds(c, f, f.mutex.value);
    } else {
      var i: nat :| i < |f.calls| && !Settled(f.calls[i]);
      assert PcOk(f, i);
      if f.calls[i].Waiting? && f.calls[i].d !in f.closed {
        var j: nat :| j < |f.calls| && Owes(f.calls[j]) && f.calls[j].d == f.calls[i].d;
        FreeProceeds(c, f, j);
      } else {
        FreeProceeds(c, f, i);
      }
    }
  }

  lemma HolderProceeds(c: Config, f: Flight, i: nat)
    requires Sound(f) && f.mutex == Some(i)
    ensures CanProceed(c, f)
  {
    assert PcOk(f, i);
    var a := if f.calls[i].Testing? then Test else if f.calls[i].Clearing? then Clear else Unlock;
    assert CanAct(c, f, i, a);
  }

  lemma FreeProceeds(c: Config, f: Flight, i: nat)
    requires Sound(f) && f.mutex == None && i < |f.calls| && !Settled(f.calls[i])
    requires f.calls[i].Waiting? ==> f.calls[i].d in f.closed
    ensures CanProceed(c, f)
  {
    assert PcOk(f, i);
    if f.calls[i].Working? {
      WorkingProceeds(c, f, i);
    } else {
      var a := if f.calls[i].Waiting? then Wake else if f.calls[i].Closing? then Close else Lock;
      assert CanAct(c, f, i, a);
    }
  }

  // ---- liveness -------------------------------------------------------------------

  /** An endless schedule from the start: `sched(n)` takes `trace(n)` to `trace(n + 1)`. */
  ghost predicate Endless(c: Config, trace: nat -> Flight, sched: nat -> FStep) {
    && FlightInit(trace(0))
    && forall n: nat :: CanStep(c, trace(n), sched(n)) && trace(n + 1) == Stepped(c, trace(n), sched(n))
  }

  /** The scheduler is just: calls that can proceed for ever are not ignored for ever. */
  ghost predicate Just(c: Config, trace: nat -> Flight, sched: nat -> FStep) {
    forall n: nat :: AlwaysAble(c, trace, n) ==> exists m: nat :: n <= m && sched(m).By?
  }

  ghost predicate AlwaysAble(c: Config, trace: nat -> Flight, n: nat) {
    forall m: nat :: n <= m ==> CanProceed(c, trace(m))
  }

  lemma {:induction false} SoundAlong(c: Config, trace: nat -> Flight, sched: nat -> FStep, n: nat)
    requires Endless(c, trace, sched)
    ensures Sound(trace(n))
  {
    if n == 0 {
    } else {
      SoundAlong(c, trace, sched, n - 1);
      StepsShrink(c, trace(n - 1), sched(n - 1));
      assert trace(n - 1 + 1) == Stepped(c, trace(n - 1), sched(n - 1));
    }
  }

  lemma {:induction false} AtMostAlong(c: Config, trace: nat -> Flight, sched: nat -> FStep, n: nat, m: nat)
    requires Endless(c, trace, sched) && n <= m
    ensures AtMost(trace(m), trace(n))
    decreases m - n
  {
    if n == m {
    } else {
      AtMostAlong(c, trace, sched, n, m - 1);
      SoundAlong(c, trace, sched, m - 1);
      StepsShrink(c, trace(m - 1), sched(m - 1));
      assert trace(m - 1 + 1) == Stepped(c, trace(m - 1), sched(m - 1));
    }
  }

  /** From some instant on no call moves any more. */
  lemma {:induction false} Quiesces(c: Config, trace: nat -> Flight, sched: nat -> FStep, n: nat) returns (last: nat)
    requires Endless(c, trace, sched)
    ensures n <= last && forall m: nat :: last <= m ==> !sched(m).By?
    decreases Ranks(trace(n).calls, |trace(n).calls|), AheadOf(CycleIn(trace(n).calls)).types,
      AheadOf(CycleIn(trace(n).calls)).phase, AheadOf(CycleIn(trace(n).calls)).gets
  {
    if exists m: nat :: n <= m && sched(m).By? {
      var m: nat :| n <= m && sched(m).By?;
      AtMostAlong(c, trace, sched, n, m);
      SoundAlong(c, trace, sched, m);
      StepsShrink(c, trace(m), sched(m));
      assert trace(m + 1) == Stepped(c, trace(m), sched(m));
      last := Quiesces(c, trace, sched, m + 1);
    } else {
      last := n;
    }
  }

  lemma {:induction false} StaySettled(c: Config, trace: nat -> Flight, sched: nat -> FStep, n: nat, m: nat)
    requires Endless(c, trace, sched) && n <= m && AllSettled(trace(n))
    requires forall k: nat :: n <= k ==> !sched(k).By?
    ensures AllSettled(trace(m))
    decreases m - n
  {
    if n == m {
    } else {
      StaySettled(c, trace, sched, n, m - 1);
      SoundAlong(c, trace, sched, m - 1);
      StepsShrink(c, trace(m - 1), sched(m - 1));
      assert trace(m - 1 + 1) == Stepped(c, trace(m - 1), sched(m - 1));
      if sched(m - 1).Crash? {
        CrashShrinks(c, trace(m - 1));
      }
    }
  }

  lemma NeverSettledIsAble(c: Config, trace: nat -> Flight, sched: nat -> FStep, n: nat)
    requires Endless(c, trace, sched) && forall m: nat :: n <= m ==> !AllSettled(trace(m))
    ensures AlwaysAble(c, trace, n)
  {
    forall m: nat | n <= m ensures CanProceed(c, trace(m)) {
      SoundAlong(c, trace, sched, m);
      NeverStuck(c, trace(m));
    }
  }

  /** Liveness: under every just scheduler, whatever crashes, expiries, failures and
      arrivals it mixes in, there is an instant after which every call that began has
      returned or died with its process; no waiter is left behind. */
  lemma EveryCallSettles(c: Config, trace: nat -> Flight, sched: nat -> FStep) returns (n: nat)
    requires Endless(c, trace, sched) && Just(c, trace, sched)
    ensures forall m: nat :: n <= m ==> AllSettled(trace(m))
  {
    var last := Quiesces(c, trace, sched, 0);
    if !exists m: nat :: last <= m && AllSettled(trace(m)) {
      NeverSettledIsAble(c, trace, sched, last);
    }
    n :| last <= n && AllSettled(trace(n));
    forall m: nat | n <= m ensures AllSettled(trace(m)) {
      StaySettled(c, trace, sched, n, m);
    }
  }
}
