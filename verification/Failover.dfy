/** The failover budget: how long upstream may fail before a cached type lapses, given
    the poll period, the longest cycle and the longest run of misses. */
module Failover {
  import opened Wrappers
  import opened Keys
  import opened Cache
  import opened Materialize
  import opened Protocol
  import opened ProtocolInvariant
  import opened ProtocolTheorems
  import opened ProtocolCoverage
  import opened Worker
  import Health

  /** Poll period, longest cycle, and most consecutive misses of a type once synced. */
  datatype Budget = Budget(period: int, span: int, misses: nat)

  function LongestGap(b: Budget): int { (b.misses + 1) * b.period + 2 * b.span }

  ghost predicate Suffices(c: Config, b: Budget) {
    0 <= b.span <= b.period && LongestGap(b) < c.ttl / SECOND * SECOND
  }

  /** The worker with its schedule: the next tick, when the cycle in hand began,
      whether the scheduled call is part of it, and each type's misses in a row. */
  datatype Timed = Timed(w: World, next: int, begun: int, joined: bool, missed: map<string, nat>)

  datatype TStep =
    | Go(m: Move)
    | Tick
    | Resync

  function MissedBy(t: Timed, k: string): nat { if k in t.missed then t.missed[k] else 0 }

  /** The type a move is about to settle or has settled. */
  function KindOf(w: World): string {
    match w.cycle
    case Between(todo) => if todo == [] then "" else todo[0]
    case Busy(kind, _, _) => kind
    case NoCycle => ""
  }

  /** The move ends a type's visit without a record. */
  ghost predicate Misses(c: Config, w: World, m: Move)
    requires MayMove(c, w, m)
  {
    (m.Visit? && m.reply.Failed?) || (m.Inner? && !m.step.Record? && Moved(c, w, m).cycle.Between?)
  }

  ghost predicate MayGo(c: Config, b: Budget, t: Timed, m: Move) {
    && MayMove(c, t.w, m) && !m.Reboot? && !m.Begin?
    && (m.Pass? ==> t.w.now + m.d <= t.next && (!t.w.cycle.NoCycle? ==> t.w.now + m.d <= t.begun + b.span))
    && (Misses(c, t.w, m) && KindOf(t.w) in t.w.known ==> MissedBy(t, KindOf(t.w)) < b.misses)
  }

  /** A tick starts a cycle, or joins the one in flight; the scheduler's one goroutine
      is then busy until that cycle ends. */
  ghost predicate MayStep(c: Config, b: Budget, t: Timed, s: TStep) {
    match s
    case Go(m) => MayGo(c, b, t, m)
    case Tick => t.w.now == t.next && (t.w.cycle.NoCycle? || !t.joined)
    case Resync => t.w.cycle.NoCycle?
  }

  function CountsAfter(t: Timed, m: Move, missed: bool): map<string, nat> {
    var k := KindOf(t.w);
    if missed then t.missed[k := MissedBy(t, k) + 1]
    else if m.Inner? && m.step.Record? then t.missed[k := 0]
    else t.missed
  }

  ghost function Next(c: Config, b: Budget, t: Timed, s: TStep): Timed
    requires MayStep(c, b, t, s)
  {
    match s
    case Go(m) =>
      Timed(Moved(c, t.w, m), t.next, t.begun, t.joined, CountsAfter(t, m, Misses(c, t.w, m)))
    case Tick =>
      if t.w.cycle.NoCycle? then Timed(Moved(c, t.w, Begin), t.next + b.period, t.w.now, true, t.missed)
      else t.(next := t.next + b.period, joined := true)
    case Resync => Timed(Moved(c, t.w, Begin), t.next, t.w.now, false, t.missed)
  }

  /** A process that has just started over whatever the store holds; the first
      scheduled run is due at once. */
  ghost predicate Started(c: Config, t: Timed) {
    && WorkerReaches(c, t.w)
    && t.w.etags == map[] && t.w.known == map[] && t.w.cycle == NoCycle
    && t.next == t.w.now
  }

  ghost predicate Runs(c: Config, b: Budget, t: Timed, ss: seq<TStep>)
    decreases |ss|, 0
  {
    ss == [] || (Runs(c, b, t, ss[..|ss| - 1]) && MayStep(c, b, AfterRun(c, b, t, ss[..|ss| - 1]), ss[|ss| - 1]))
  }

  ghost function AfterRun(c: Config, b: Budget, t: Timed, ss: seq<TStep>): Timed
    requires Runs(c, b, t, ss)
    decreases |ss|, 1
  {
    if ss == [] then t else Next(c, b, AfterRun(c, b, t, ss[..|ss| - 1]), ss[|ss| - 1])
  }

  // ---- the clock ------------------------------------------------------------------

  /** The cycle in hand has yet to settle type k. */
  predicate Awaiting(cycle: Cycle, k: string) {
    match cycle
    case NoCycle => false
    case Between(todo) => k in todo
    case Busy(kind, _, todo) => kind == k || k in todo
  }

  /** Where the clock stands, type by type aside. */
  predicate OnSchedule(b: Budget, t: Timed) {
    && t.w.now <= t.next <= t.w.now + b.period
    && (!t.w.cycle.NoCycle? ==>
          && t.begun <= t.w.now <= t.begun + b.span
          && (if t.joined then t.begun <= t.next - b.period <= t.begun + b.span else t.next <= t.begun + b.period))
  }

  /** How far the next tick may be from the last good poll, at `fetched`, after f misses. */
  predicate WithinGap(b: Budget, t: Timed, k: string, fetched: int, f: int) {
    && 0 <= f <= b.misses && fetched <= t.w.now
    && (t.w.cycle.NoCycle? ==> t.next <= fetched + (f + 1) * b.period + b.span)
    && (!t.w.cycle.NoCycle? && Awaiting(t.w.cycle, k) ==>
          t.next <= fetched + (f + 1) * b.period + b.span + if t.joined then b.period else 0)
    && (!t.w.cycle.NoCycle? && !Awaiting(t.w.cycle, k) ==>
          (fetched >= t.begun && f == 0)
          || t.next <= fetched + f * b.period + b.span + if t.joined then b.period else 0)
  }

  lemma Monotone(f: nat, m: nat, p: nat)
    requires f <= m
    ensures f * p <= m * p
  {
  }

  lemma GapIsShort(b: Budget, t: Timed, k: string, fetched: int, f: int)
    requires 0 <= b.span <= b.period && OnSchedule(b, t) && WithinGap(b, t, k, fetched, f)
    ensures t.w.now <= fetched + LongestGap(b)
  {
    Monotone(f, b.misses, b.period);
    assert (f + 1) * b.period == f * b.period + b.period;
    assert (b.misses + 1) * b.period == b.misses * b.period + b.period;
  }

  // ---- one type -------------------------------------------------------------------

  function RequestIn(act: Act): Option<Request> {
    match act
    case Quiet => None
    case Replied(_) => None
    case Asked(req) => Some(req)
    case Reading(req, _, _, _, _) => Some(req)
    case Confirmed(req) => Some(req)
  }

  /** What a type keeps as long as its keys never lapse. */
  ghost predicate Steady(p: Params, s: State, begun: int) {
    && (s.etag != "" ==> s.known.Some?)
    && (s.known.Some? ==> !s.hist.blind && s.known.value.validUntil == s.known.value.fetchedAt + p.ttl)
    && (s.act.Confirmed? ==> !s.hist.blind)
    && (RequestIn(s.act).Some? ==> begun <= FreshnessOf(RequestIn(s.act).value).fetchedAt)
  }

  ghost predicate Unlapsed(p: Params, s: State) {
    s.known.Some? ==> s.now < s.known.value.fetchedAt + Hold(p)
  }

  lemma RefreshSees(p: Params, s: State)
    requires p.ttl >= SECOND && s.act.Reading? && s.act.req.Refreshing? && Live(s.slice, Index, s.now)
    ensures Live(ExecSlice(p, s), Index, s.now)
  {
    RefreshSlice(p, s, Index);
  }

  lemma RefreshFollowsARecord(p: Params, s: State)
    requires Reachable(p, s) && p.ttl >= SECOND && s.act.Reading? && s.act.req.Refreshing?
    ensures s.etag != ""
  {
    ReachableInv(p, s);
  }

  /** A commit leaves a live index: a swap writes one, and a refresh, which needs a
      remembered ETag and so an earlier record, still finds one. */
  lemma CommitSees(p: Params, s: State)
    requires Reachable(p, s) && p.ttl >= SECOND && s.act.Reading?
    requires Unlapsed(p, s)
    requires s.etag != "" ==> s.known.Some?
    requires s.known.Some? ==> !s.hist.blind && s.known.value.validUntil == s.known.value.fetchedAt + p.ttl
    ensures !ExecHist(s).blind
  {
    if s.act.req.Refreshing? {
      RefreshFollowsARecord(p, s);
      ReadyMeansStored(p, s);
      RefreshSees(p, s);
    }
  }

  lemma RequestHorizon(p: Params, s: State)
    requires Reachable(p, s) && p.ttl >= SECOND && RequestIn(s.act).Some?
    ensures var fr := FreshnessOf(RequestIn(s.act).value);
      fr.validUntil == fr.fetchedAt + p.ttl && fr.fetchedAt <= s.now
  {
    ReachableInv(p, s);
  }

  lemma SteadyStep(p: Params, s: State, step: Step, begun: int)
    requires Reachable(p, s) && p.ttl >= SECOND && Enabled(s, step) && !step.Restart?
    requires Steady(p, s, begun) && Unlapsed(p, s) && (step.Receive? ==> begun <= s.now)
    ensures Steady(p, Apply(p, s, step), begun)
  {
    if step.ExecStep? && step.outcome != Lost {
      CommitSees(p, s);
    }
    if step.Record? {
      RequestHorizon(p, s);
    }
  }

  // ---- the whole run --------------------------------------------------------------

  ghost predicate TypeInv(c: Config, b: Budget, t: Timed, k: string) {
    && Steady(ParamsOf(c, k), Project(t.w, k), t.begun)
    && (k in t.w.known ==> WithinGap(b, t, k, t.w.known[k].fetchedAt, MissedBy(t, k)))
  }

  ghost predicate TimedInv(c: Config, b: Budget, t: Timed) {
    && WorkerReaches(c, t.w) && OnSchedule(b, t)
    && forall k :: k in c.types ==> TypeInv(c, b, t, k)
  }

  lemma TypeIsUnlapsed(c: Config, b: Budget, t: Timed, k: string)
    requires Suffices(c, b) && OnSchedule(b, t) && TypeInv(c, b, t, k)
    ensures Unlapsed(ParamsOf(c, k), Project(t.w, k)) && c.ttl >= SECOND
  {
    assert LongestGap(b) >= 0 by {
      Monotone(0, b.misses + 1, b.period);
    }
    if k in t.w.known {
      GapIsShort(b, t, k, t.w.known[k].fetchedAt, MissedBy(t, k));
    }
  }

  lemma BeginKeeps(b: Budget, t: Timed, t': Timed, k: string, fetched: int, f: int)
    requires 0 <= b.span <= b.period && OnSchedule(b, t) && WithinGap(b, t, k, fetched, f)
    requires t'.w.now == t.w.now
    requires t.w.cycle.NoCycle? ==> Awaiting(t'.w.cycle, k)
    requires !t.w.cycle.NoCycle? ==> t'.w.cycle == t.w.cycle && t'.begun == t.begun && !t.joined && t'.joined
    requires if t'.joined then t'.next == t.next + b.period && t.w.now == t.next else t'.next == t.next
    ensures WithinGap(b, t', k, fetched, f)
  {
  }

  lemma StartKeeps(c: Config, b: Budget, t: Timed, s: TStep, k: string)
    requires 0 <= b.span <= b.period && OnSchedule(b, t) && TypeInv(c, b, t, k) && k in c.types
    requires MayStep(c, b, t, s) && !s.Go?
    ensures TypeInv(c, b, Next(c, b, t, s), k)
  {
    var t' := Next(c, b, t, s);
    if t.w.cycle.NoCycle? {
      assert Project(t'.w, k) == Project(t.w, k);
    }
    if k in t.w.known {
      BeginKeeps(b, t, t', k, t.w.known[k].fetchedAt, MissedBy(t, k));
    }
  }

  lemma GoKeepsSteady(c: Config, b: Budget, t: Timed, m: Move, k: string)
    requires Suffices(c, b) && TimedInv(c, b, t) && k in c.types && MayGo(c, b, t, m)
    ensures Steady(ParamsOf(c, k), Project(Moved(c, t.w, m), k), t.begun)
  {
    assert TypeInv(c, b, t, k);
    TypeIsUnlapsed(c, b, t, k);
    WorkerRefinesProtocol(c, t.w, k);
    MoveProjects(c, t.w, m, k);
    SteadyStep(ParamsOf(c, k), Project(t.w, k), StepFor(t.w, m, k), t.begun);
  }

  lemma ActAfter(p: Params, s: State, step: Step)
    requires Enabled(s, step)
    ensures step.Poll? ==> (Apply(p, s, step).act.Quiet? <==> step.reply.Failed?)
    ensures step.Record? ==> Apply(p, s, step).act.Quiet? && Apply(p, s, step).known == Some(FreshnessOf(s.act.req))
    ensures IsInner(step) && !step.Record? ==> Apply(p, s, step).known == s.known
    ensures step.Poll? ==> Apply(p, s, step).known == s.known
  {
  }

  /** The cycle after a move inside a visit of type k. */
  ghost predicate VisitMoved(w: World, m: Move, w': World) {
    var k := KindOf(w);
    var rest := if m.Visit? && w.cycle.Between? && w.cycle.todo != [] then w.cycle.todo[1..] else TodoLeft(w.cycle);
    && w'.now == w.now
    && (w'.cycle == Between(rest) || (w'.cycle.Busy? && w'.cycle.kind == k && w'.cycle.todo == rest))
    && (m.Visit? ==> (w'.cycle.Between? <==> m.reply.Failed?))
    && (m.Inner? && m.step.Record? ==> w'.cycle.Between?)
    && (forall j :: j != k || !m.Inner? || !m.step.Record? ==> Look(w'.known, j) == Look(w.known, j))
    && (m.Inner? && m.step.Record? ==>
          w.cycle.Busy? && w.cycle.act.Confirmed? && Look(w'.known, k) == Some(FreshnessOf(w.cycle.act.req)))
  }

  function TodoLeft(cycle: Cycle): seq<string> { if cycle.NoCycle? then [] else cycle.todo }

  lemma VisitCycle(c: Config, w: World, m: Move)
    requires MayMove(c, w, m) && (m.Visit? || m.Inner?)
    ensures VisitMoved(w, m, Moved(c, w, m))
  {
    var k := KindOf(w);
    var s := Project(w, k);
    if m.Visit? {
      ActAfter(ParamsOf(c, k), s, Poll(m.reply));
      EmbedFields(w, k, Apply(ParamsOf(c, k), s, Poll(m.reply)), w.cycle.todo[1..]);
    } else {
      ActAfter(ParamsOf(c, k), s, m.step);
      EmbedFields(w, k, Apply(ParamsOf(c, k), s, m.step), w.cycle.todo);
    }
  }

  /** A move outside any visit touches neither the record nor, but for Finish, the cycle. */
  lemma PlainMove(c: Config, w: World, m: Move)
    requires MayMove(c, w, m) && (m.Pass? || m.Announce? || m.Foreign? || m.Finish?)
    ensures Moved(c, w, m).known == w.known
    ensures Moved(c, w, m).cycle == if m.Finish? then NoCycle else w.cycle
    ensures Moved(c, w, m).now == w.now + if m.Pass? then m.d else 0
  {
  }

  /** The clock of one type after a move inside a visit. */
  lemma VisitGap(b: Budget, t: Timed, t': Timed, m: Move, k: string, fetched: int, f: int)
    requires 0 <= b.span <= b.period && WithinGap(b, t, k, fetched, f) && OnSchedule(b, t)
    requires m.Visit? ==> t.w.cycle.Between? && t.w.cycle.todo != []
    requires m.Inner? ==> t.w.cycle.Busy?
    requires (m.Visit? || m.Inner?) && VisitMoved(t.w, m, t'.w)
    requires t'.next == t.next && t'.begun == t.begun && t'.joined == t.joined
    ensures !t'.w.cycle.Between? || k != KindOf(t.w) ==> WithinGap(b, t', k, fetched, f)
    ensures t'.w.cycle.Between? && k == KindOf(t.w) && f < b.misses ==> WithinGap(b, t', k, fetched, f + 1)
  {
    assert (f + 1) * b.period == f * b.period + b.period;
    assert (f + 2) * b.period == f * b.period + 2 * b.period;
  }

  /** What a move leaves of the schedule and the miss counts. */
  ghost predicate Counted(t: Timed, m: Move, t': Timed, missed: bool) {
    && t'.next == t.next && t'.begun == t.begun && t'.joined == t.joined
    && (!missed && !(m.Inner? && m.step.Record?) ==> t'.missed == t.missed)
    && forall k :: MissedBy(t', k) ==
         if k != KindOf(t.w) then MissedBy(t, k)
         else if missed then MissedBy(t, k) + 1
         else if m.Inner? && m.step.Record? then 0
         else MissedBy(t, k)
  }

  lemma GoCounts(c: Config, b: Budget, t: Timed, m: Move)
    requires MayGo(c, b, t, m)
    ensures Counted(t, m, Next(c, b, t, Go(m)), Misses(c, t.w, m))
    ensures Next(c, b, t, Go(m)).w == Moved(c, t.w, m)
  {
    Counts(t, m, Moved(c, t.w, m), Misses(c, t.w, m));
  }

  lemma Counts(t: Timed, m: Move, w': World, missed: bool)
    ensures Counted(t, m, Timed(w', t.next, t.begun, t.joined, CountsAfter(t, m, missed)), missed)
  {
  }

  lemma VisitKeepsGap(c: Config, b: Budget, t: Timed, t': Timed, m: Move, missed: bool, k: string)
    requires Suffices(c, b) && TimedInv(c, b, t) && k in c.types && MayGo(c, b, t, m)
    requires (m.Visit? || m.Inner?) && VisitMoved(t.w, m, t'.w) && Counted(t, m, t', missed)
    requires missed <==> t'.w.cycle.Between? && !(m.Inner? && m.step.Record?)
    requires missed && KindOf(t.w) in t.w.known ==> MissedBy(t, KindOf(t.w)) < b.misses
    ensures k in t'.w.known ==> WithinGap(b, t', k, t'.w.known[k].fetchedAt, MissedBy(t', k))
  {
    if m.Inner? && m.step.Record? && k == KindOf(t.w) {
      RecordGap(c, b, t, t', m, k);
    } else {
      SameRecord(t.w, t'.w, k);
      assert TypeInv(c, b, t, k);
      if k in t.w.known {
        VisitGap(b, t, t', m, k, t.w.known[k].fetchedAt, MissedBy(t, k));
      }
    }
  }

  lemma GoKeepsGap(c: Config, b: Budget, t: Timed, m: Move, k: string)
    requires Suffices(c, b) && TimedInv(c, b, t) && k in c.types && MayGo(c, b, t, m)
    ensures var t' := Next(c, b, t, Go(m));
      k in t'.w.known ==> WithinGap(b, t', k, t'.w.known[k].fetchedAt, MissedBy(t', k))
  {
    var t' := Next(c, b, t, Go(m));
    GoCounts(c, b, t, m);
    if m.Visit? || m.Inner? {
      VisitCycle(c, t.w, m);
      VisitKeepsGap(c, b, t, t', m, Misses(c, t.w, m), k);
    } else {
      PlainMove(c, t.w, m);
      assert TypeInv(c, b, t, k);
      PlainGap(b, t, t', m, k);
    }
  }

  lemma SameRecord(w: World, w': World, k: string)
    requires Look(w'.known, k) == Look(w.known, k)
    ensures k in w'.known <==> k in w.known
    ensures k in w'.known ==> w'.known[k] == w.known[k]
  {
  }

  /** A recorded success restarts the type's clock at the instant its answer arrived. */
  lemma RecordGap(c: Config, b: Budget, t: Timed, t': Timed, m: Move, k: string)
    requires Suffices(c, b) && TimedInv(c, b, t) && k in c.types && k == KindOf(t.w) && MayGo(c, b, t, m)
    requires m.Inner? && m.step.Record? && VisitMoved(t.w, m, t'.w)
    requires t'.next == t.next && t'.begun == t.begun && t'.joined == t.joined && MissedBy(t', k) == 0
    ensures k in t'.w.known && WithinGap(b, t', k, t'.w.known[k].fetchedAt, 0)
  {
    assert TypeInv(c, b, t, k);
    WorkerRefinesProtocol(c, t.w, k);
    TypeIsUnlapsed(c, b, t, k);
    var s := Project(t.w, k);
    assert s.act == t.w.cycle.act;
    RequestHorizon(ParamsOf(c, k), s);
    var fr := FreshnessOf(t.w.cycle.act.req);
    assert Look(t'.w.known, k) == Some(fr);
    assert t'.w.known[k] == fr && t.begun <= fr.fetchedAt <= t.w.now;
    assert (0 + 1) * b.period == b.period;
  }

  lemma PlainGap(b: Budget, t: Timed, t': Timed, m: Move, k: string)
    requires k in t.w.known ==> WithinGap(b, t, k, t.w.known[k].fetchedAt, MissedBy(t, k))
    requires OnSchedule(b, t)
    requires m.Finish? ==> t.w.cycle == Between([])
    requires t'.w.known == t.w.known && t'.w.cycle == (if m.Finish? then NoCycle else t.w.cycle)
    requires t'.w.now >= t.w.now
    requires t'.next == t.next && t'.begun == t.begun && t'.joined == t.joined && t'.missed == t.missed
    ensures k in t'.w.known ==> WithinGap(b, t', k, t'.w.known[k].fetchedAt, MissedBy(t', k))
  {
    if k in t.w.known {
      var f := MissedBy(t, k);
      assert (f + 1) * b.period == f * b.period + b.period;
    }
  }

  lemma VisitSchedule(b: Budget, t: Timed, t': Timed, m: Move)
    requires OnSchedule(b, t)
    requires m.Visit? ==> t.w.cycle.Between? && t.w.cycle.todo != []
    requires m.Inner? ==> t.w.cycle.Busy?
    requires (m.Visit? || m.Inner?) && VisitMoved(t.w, m, t'.w)
    requires t'.next == t.next && t'.begun == t.begun && t'.joined == t.joined
    ensures OnSchedule(b, t')
  {
  }

  lemma PlainSchedule(b: Budget, t: Timed, t': Timed, m: Move)
    requires OnSchedule(b, t)
    requires t'.w.cycle == if m.Finish? then NoCycle else t.w.cycle
    requires t'.w.now == t.w.now + if m.Pass? then m.d else 0
    requires m.Pass? ==> t.w.now + m.d <= t.next && (!t.w.cycle.NoCycle? ==> t.w.now + m.d <= t.begun + b.span)
    requires t'.next == t.next && t'.begun == t.begun && t'.joined == t.joined
    ensures OnSchedule(b, t')
  {
  }

  lemma GoKeepsSchedule(c: Config, b: Budget, t: Timed, m: Move)
    requires OnSchedule(b, t) && MayGo(c, b, t, m)
    ensures OnSchedule(b, Next(c, b, t, Go(m)))
  {
    GoCounts(c, b, t, m);
    var t' := Next(c, b, t, Go(m));
    if m.Visit? || m.Inner? {
      VisitCycle(c, t.w, m);
      VisitSchedule(b, t, t', m);
    } else {
      PlainMove(c, t.w, m);
      PlainSchedule(b, t, t', m);
    }
  }

  lemma StepKeepsTimedInv(c: Config, b: Budget, t: Timed, s: TStep)
    requires Suffices(c, b) && TimedInv(c, b, t) && MayStep(c, b, t, s)
    ensures TimedInv(c, b, Next(c, b, t, s))
  {
    match s
    case Go(m) =>
      WorkerReachesOn(c, t.w, m);
      GoKeepsSchedule(c, b, t, m);
      forall k | k in c.types ensures TypeInv(c, b, Next(c, b, t, s), k) {
        GoKeepsSteady(c, b, t, m, k);
        GoKeepsGap(c, b, t, m, k);
      }
    case _ =>
      if t.w.cycle.NoCycle? {
        WorkerReachesOn(c, t.w, Begin);
      }
      forall k | k in c.types ensures TypeInv(c, b, Next(c, b, t, s), k) {
        StartKeeps(c, b, t, s, k);
      }
  }

  lemma {:induction false} TimedInvAlways(c: Config, b: Budget, t: Timed, ss: seq<TStep>)
    requires Suffices(c, b) && Started(c, t) && Runs(c, b, t, ss)
    ensures TimedInv(c, b, AfterRun(c, b, t, ss))
    decreases |ss|
  {
    if ss == [] {
      forall k | k in c.types ensures TypeInv(c, b, t, k) {
      }
    } else {
      TimedInvAlways(c, b, t, ss[..|ss| - 1]);
      StepKeepsTimedInv(c, b, AfterRun(c, b, t, ss[..|ss| - 1]), ss[|ss| - 1]);
    }
  }

  /** The failover bound: from a type's first success on, whatever else fails within
      the budget, its index, etag, freshness and every listed anchor key stay live
      and its horizon stays ahead. */
  lemma NeverLapses(c: Config, b: Budget, t: Timed, ss: seq<TStep>, k: string)
    requires Suffices(c, b) && Started(c, t) && Runs(c, b, t, ss) && k in c.types
    requires k in AfterRun(c, b, t, ss).w.known
    ensures var w := AfterRun(c, b, t, ss).w;
      && w.now < w.known[k].validUntil
      && Live(w.db, Typed(k, Index), w.now) && Live(w.db, Typed(k, ETag), w.now)
      && Live(w.db, Typed(k, Freshness), w.now)
      && forall r :: r in Listed(Project(w, k)) ==> Live(w.db, Typed(k, Territory(r)), w.now)
  {
    TimedInvAlways(c, b, t, ss);
    var t' := AfterRun(c, b, t, ss);
    assert TypeInv(c, b, t', k);
    TypeIsUnlapsed(c, b, t', k);
    WorkerRefinesProtocol(c, t'.w, k);
    var s := Project(t'.w, k);
    ReadyMeansStored(ParamsOf(c, k), s);
    forall q ensures Live(s.slice, q, s.now) <==> Live(t'.w.db, Typed(k, q), s.now) {
      assert Look(s.slice, q) == Look(t'.w.db, Typed(k, q));
    }
  }

  lemma KnownAfterVisit(w: World, m: Move, w': World, k: string)
    requires VisitMoved(w, m, w') && k in w.known
    ensures k in w'.known
  {
    assert Look(w.known, k).Some?;
    assert Look(w'.known, k).Some?;
  }

  lemma KnownStays(c: Config, w: World, m: Move, k: string)
    requires MayMove(c, w, m) && !m.Reboot? && !m.Begin? && k in w.known
    ensures k in Moved(c, w, m).known
  {
    if m.Visit? || m.Inner? {
      VisitCycle(c, w, m);
      KnownAfterVisit(w, m, Moved(c, w, m), k);
    } else {
      PlainMove(c, w, m);
    }
  }

  /** Within the budget no commit finds the index dead, so none revives a key. */
  lemma NoRevival(p: Params, s: State, step: Step, begun: int)
    requires Reachable(p, s) && p.ttl >= SECOND && Enabled(s, step)
    requires Steady(p, s, begun) && Unlapsed(p, s)
    ensures !Revives(s, step)
  {
    if step.ExecStep? && s.act.req.Refreshing? {
      RefreshFollowsARecord(p, s);
      ReadyMeansStored(p, s);
    }
  }

  lemma StraysStep(c: Config, b: Budget, t: Timed, s: TStep, k: string, bound: int)
    requires Suffices(c, b) && TimedInv(c, b, t) && MayStep(c, b, t, s) && k in c.types
    requires StraysEnd(Project(t.w, k), bound)
    ensures StraysEnd(Project(Next(c, b, t, s).w, k), bound)
  {
    if s.Go? {
      var p, state, step := ParamsOf(c, k), Project(t.w, k), StepFor(t.w, s.m, k);
      assert TypeInv(c, b, t, k);
      TypeIsUnlapsed(c, b, t, k);
      WorkerRefinesProtocol(c, t.w, k);
      MoveProjects(c, t.w, s.m, k);
      NoRevival(p, state, step, t.begun);
      StepStrays(p, state, step, bound);
    } else if t.w.cycle.NoCycle? {
      MoveProjects(c, t.w, Begin, k);
    }
  }

  lemma {:induction false} StraysInBudget(c: Config, b: Budget, t: Timed, ss: seq<TStep>, k: string, bound: int)
    requires Suffices(c, b) && Started(c, t) && Runs(c, b, t, ss) && k in c.types
    requires StraysEnd(Project(t.w, k), bound)
    ensures StraysEnd(Project(AfterRun(c, b, t, ss).w, k), bound)
    decreases |ss|
  {
    if ss == [] {
    } else {
      var front := ss[..|ss| - 1];
      StraysInBudget(c, b, t, front, k, bound);
      TimedInvAlways(c, b, t, front);
      StraysStep(c, b, AfterRun(c, b, t, front), ss[|ss| - 1], k, bound);
    }
  }

  /** What the live keys hold: from a type's first success on, at every instant, the live
      anchors are exactly the snapshot last committed, if the process started over
      covered keys or has run for the whole-second CacheTTL. */
  lemma ServesThroughout(c: Config, b: Budget, t: Timed, ss: seq<TStep>, k: string)
    requires Suffices(c, b) && Started(c, t) && Runs(c, b, t, ss) && k in c.types
    requires k in AfterRun(c, b, t, ss).w.known
    requires Indexed(Project(t.w, k)) || AfterRun(c, b, t, ss).w.now >= t.w.now + Hold(ParamsOf(c, k))
    ensures var p, s := ParamsOf(c, k), Project(AfterRun(c, b, t, ss).w, k);
      && Aligned(p, s.slice, s.feed)
      && ServesExactly(p, s, s.slice[ETag].value.text, s.slice[Freshness].value.freshness.validUntil)
  {
    var p, w := ParamsOf(c, k), AfterRun(c, b, t, ss).w;
    NeverLapses(c, b, t, ss, k);
    TimedInvAlways(c, b, t, ss);
    assert TypeInv(c, b, AfterRun(c, b, t, ss), k);
    TypeIsUnlapsed(c, b, AfterRun(c, b, t, ss), k);
    WorkerRefinesProtocol(c, t.w, k);
    WorkerRefinesProtocol(c, w, k);
    NoStraysIsIndexed(p, Project(t.w, k));
    StraysInBudget(c, b, t, ss, k, w.now);
    NoStraysIsIndexed(p, Project(w, k));
    assert Look(Project(w, k).slice, Index) == Look(w.db, Typed(k, Index));
    LiveIndexServesIff(p, Project(w, k));
  }

  lemma {:induction false} KnownGrows(c: Config, b: Budget, t: Timed, ss: seq<TStep>, n: nat, k: string)
    requires Runs(c, b, t, ss) && n <= |ss| && Runs(c, b, t, ss[..n])
    requires k in AfterRun(c, b, t, ss[..n]).w.known
    ensures k in AfterRun(c, b, t, ss).w.known
    decreases |ss|
  {
    if n == |ss| {
      assert ss[..n] == ss;
    } else {
      var front, last := ss[..|ss| - 1], ss[|ss| - 1];
      assert front[..n] == ss[..n];
      KnownGrows(c, b, t, front, n, k);
      var u := AfterRun(c, b, t, front);
      if last.Go? {
        KnownStays(c, u.w, last.m, k);
      }
    }
  }

  /** Once every configured type has been synced, Ready never turns false again. */
  lemma ReadyForGood(c: Config, b: Budget, t: Timed, ss: seq<TStep>, n: nat)
    requires Suffices(c, b) && Started(c, t) && Runs(c, b, t, ss) && n <= |ss| && Runs(c, b, t, ss[..n])
    requires Health.ReadyAt(c.types, AfterRun(c, b, t, ss[..n]).w.known, AfterRun(c, b, t, ss[..n]).w.now)
    ensures Health.ReadyAt(c.types, AfterRun(c, b, t, ss).w.known, AfterRun(c, b, t, ss).w.now)
  {
    forall k | k in c.types
      ensures k in AfterRun(c, b, t, ss).w.known
      ensures AfterRun(c, b, t, ss).w.now < AfterRun(c, b, t, ss).w.known[k].validUntil
    {
      KnownGrows(c, b, t, ss, n, k);
      NeverLapses(c, b, t, ss, k);
    }
  }
}
