/** The failover budget is exact: for every type named once and every budget there is a
    run that spends all of it, so the bound can be neither loosened nor its second cycle
    time dropped. */
module FailoverTight {
  import opened Wrappers
  import opened Keys
  import opened Cache
  import opened Materialize
  import opened Protocol
  import opened ProtocolInvariant
  import opened ProtocolTheorems
  import opened Worker
  import opened Failover

  ghost predicate LeadsTo(c: Config, b: Budget, t0: Timed, t: Timed) {
    exists ss :: Failover.Runs(c, b, t0, ss) && AfterRun(c, b, t0, ss) == t
  }

  lemma StepOn(c: Config, b: Budget, t0: Timed, t: Timed, s: TStep)
    requires LeadsTo(c, b, t0, t) && MayStep(c, b, t, s)
    ensures LeadsTo(c, b, t0, Next(c, b, t, s))
  {
    var ss :| Failover.Runs(c, b, t0, ss) && AfterRun(c, b, t0, ss) == t;
    var more := ss + [s];
    assert more[..|more| - 1] == ss;
    assert Failover.Runs(c, b, t0, more) && AfterRun(c, b, t0, more) == Next(c, b, t, s);
  }

  /** The same instant and the same schedule. */
  predicate SameClock(t: Timed, t': Timed) {
    t'.w.now == t.w.now && t'.next == t.next && t'.begun == t.begun && t'.joined == t.joined
  }

  /** No type but k has been synced. */
  ghost predicate OnlyKnows(t: Timed, k: string) {
    forall j :: j != k ==> Look(t.w.known, j) == None
  }

  lemma InwardMoves(c: Config, w: World, k: string, step: Protocol.Step)
    requires w.cycle.Busy? && w.cycle.kind == k && IsInner(step) && Enabled(Project(w, k), step)
    requires step.Record? || !Apply(ParamsOf(c, k), Project(w, k), step).act.Quiet?
    ensures MayMove(c, w, Inner(step)) && !Misses(c, w, Inner(step))
    ensures var w' := Moved(c, w, Inner(step));
      && Project(w', k) == Apply(ParamsOf(c, k), Project(w, k), step)
      && w'.cycle == (if step.Record? then Between(w.cycle.todo) else Busy(k, Project(w', k).act, w.cycle.todo))
  {
    var s' := Apply(ParamsOf(c, k), Project(w, k), step);
    MoveProjects(c, w, Inner(step), k);
    ActAfter(ParamsOf(c, k), Project(w, k), step);
    EmbedFields(w, k, s', w.cycle.todo);
  }

  /** One step of the visit in hand that does not end it, or records it. */
  lemma Inward(c: Config, b: Budget, t0: Timed, t: Timed, k: string, step: Protocol.Step) returns (t': Timed)
    requires LeadsTo(c, b, t0, t) && t.w.cycle.Busy? && t.w.cycle.kind == k
    requires IsInner(step) && Enabled(Project(t.w, k), step)
    requires step.Record? || !Apply(ParamsOf(c, k), Project(t.w, k), step).act.Quiet?
    ensures LeadsTo(c, b, t0, t') && SameClock(t, t')
    ensures Project(t'.w, k) == Apply(ParamsOf(c, k), Project(t.w, k), step)
    ensures t'.w.cycle
      == if step.Record? then Between(t.w.cycle.todo) else Busy(k, Project(t'.w, k).act, t.w.cycle.todo)
    ensures MissedBy(t', k) == if step.Record? then 0 else MissedBy(t, k)
    ensures OnlyKnows(t, k) ==> OnlyKnows(t', k)
  {
    var m := Inner(step);
    InwardMoves(c, t.w, k, step);
    VisitCycle(c, t.w, m);
    assert MayGo(c, b, t, m);
    GoCounts(c, b, t, m);
    StepOn(c, b, t0, t, Go(m));
    t' := Next(c, b, t, Go(m));
  }

  lemma Answered(c: Config, b: Budget, t0: Timed, t: Timed, k: string, rest: seq<string>)
    returns (t': Timed, reply: Reply)
    requires LeadsTo(c, b, t0, t) && t.w.cycle == Between([k] + rest)
    requires FeedOf(t.w, k).current in FeedOf(t.w, k).pubs
    ensures LeadsTo(c, b, t0, t') && SameClock(t, t') && reply.Body?
    ensures Project(t'.w, k) == Project(t.w, k).(act := Replied(reply))
    ensures t'.w.cycle == Busy(k, Replied(reply), rest) && MissedBy(t', k) == MissedBy(t, k)
    ensures OnlyKnows(t, k) ==> OnlyKnows(t', k)
  {
    var feed := FeedOf(t.w, k);
    reply := Body(feed.current, feed.pubs[feed.current], false);
    var m := Visit(reply);
    var s := Project(t.w, k);
    assert MayAnswer(s, reply) && t.w.cycle.todo[0] == k && t.w.cycle.todo[1..] == rest;
    MoveProjects(c, t.w, m, k);
    StepOn(c, b, t0, t, Go(m));
    t' := Next(c, b, t, Go(m));
    GoCounts(c, b, t, m);
    VisitCycle(c, t.w, m);
    assert Project(t'.w, k) == s.(act := Replied(reply));
  }

  lemma IndexReads(p: Params, s: State)
    requires Reachable(p, s) && p.ttl >= SECOND
    ensures ReadIndex(s.slice, s.now).Ok? && s.feed.current in s.feed.pubs
  {
    ReachableInv(p, s);
  }

  /** The four steps from a 200 to its record, at one instant. */
  lemma SwapAtOnce(p: Params, s: State)
    requires s.act.Replied? && s.act.reply.Body? && ReadIndex(s.slice, s.now).Ok?
    ensures var s1 := Apply(p, s, Receive);
      && Enabled(s1, ReadIndexStep(false))
      && var s2 := Apply(p, s1, ReadIndexStep(false));
      && Enabled(s2, ExecStep(Committed))
      && var s3 := Apply(p, s2, ExecStep(Committed));
      && Enabled(s3, Record)
      && var s4 := Apply(p, s3, Record);
      && !s1.act.Quiet? && !s2.act.Quiet? && !s3.act.Quiet?
      && s4.known.Some? && s4.known.value.fetchedAt == s.now && s4.now == s.now
      && Index in s4.slice && s4.slice[Index].deadline == s.now + Hold(p)
  {
    var s2 := Apply(p, Apply(p, s, Receive), ReadIndexStep(false));
    SwapSlice(p, s2, Index);
    assert Look(ExecSlice(p, s2), Index).Some?;
  }

  lemma StoredAndKnown(w: World, k: string)
    requires Project(w, k).known.Some? && Index in Project(w, k).slice
    ensures k in w.known && w.known[k] == Project(w, k).known.value
    ensures Typed(k, Index) in w.db && w.db[Typed(k, Index)] == Project(w, k).slice[Index]
  {
    assert Look(Project(w, k).slice, Index) == Look(w.db, Typed(k, Index));
  }

  /** A visit in which everything goes well, all at one instant. */
  lemma SyncWell(c: Config, b: Budget, t0: Timed, t: Timed, k: string, rest: seq<string>) returns (t': Timed)
    requires LeadsTo(c, b, t0, t) && t.w.cycle == Between([k] + rest) && c.ttl >= SECOND && OnlyKnows(t, k)
    requires Reachable(ParamsOf(c, k), Project(t.w, k))
    ensures LeadsTo(c, b, t0, t') && SameClock(t, t') && t'.w.cycle == Between(rest) && MissedBy(t', k) == 0
    ensures OnlyKnows(t', k)
    ensures k in t'.w.known && t'.w.known[k].fetchedAt == t.w.now
    ensures Typed(k, Index) in t'.w.db && t'.w.db[Typed(k, Index)].deadline == t.w.now + Hold(ParamsOf(c, k))
  {
    var p := ParamsOf(c, k);
    IndexReads(p, Project(t.w, k));
    var a, reply := Answered(c, b, t0, t, k, rest);
    SwapAtOnce(p, Project(a.w, k));
    t' := RecordsAnswer(c, b, t0, a, k);
    StoredAndKnown(t'.w, k);
  }

  lemma RecordsAnswer(c: Config, b: Budget, t0: Timed, a: Timed, k: string) returns (t': Timed)
    requires LeadsTo(c, b, t0, a) && a.w.cycle.Busy? && a.w.cycle.kind == k
    requires var p, s := ParamsOf(c, k), Project(a.w, k);
      && Enabled(s, Receive)
      && var s1 := Apply(p, s, Receive);
      && !s1.act.Quiet? && Enabled(s1, ReadIndexStep(false))
      && var s2 := Apply(p, s1, ReadIndexStep(false));
      && !s2.act.Quiet? && Enabled(s2, ExecStep(Committed))
      && var s3 := Apply(p, s2, ExecStep(Committed));
      && !s3.act.Quiet? && Enabled(s3, Record)
    ensures LeadsTo(c, b, t0, t') && SameClock(a, t') && t'.w.cycle == Between(a.w.cycle.todo) && MissedBy(t', k) == 0
    ensures OnlyKnows(a, k) ==> OnlyKnows(t', k)
    ensures Project(t'.w, k) == Apply(ParamsOf(c, k), Apply(ParamsOf(c, k), Apply(ParamsOf(c, k),
      Apply(ParamsOf(c, k), Project(a.w, k), Receive), ReadIndexStep(false)), ExecStep(Committed)), Record)
  {
    var d := Inward(c, b, t0, a, k, Receive);
    var e := Inward(c, b, t0, d, k, ReadIndexStep(false));
    var f := Inward(c, b, t0, e, k, ExecStep(Committed));
    t' := Inward(c, b, t0, f, k, Record);
  }

  lemma Waits(c: Config, b: Budget, t0: Timed, t: Timed, d: nat) returns (t': Timed)
    requires LeadsTo(c, b, t0, t) && t.w.now + d <= t.next
    requires !t.w.cycle.NoCycle? ==> t.w.now + d <= t.begun + b.span
    ensures LeadsTo(c, b, t0, t') && t' == t.(w := t.w.(now := t.w.now + d))
  {
    StepOn(c, b, t0, t, Go(Pass(d)));
    t' := Next(c, b, t, Go(Pass(d)));
  }

  lemma Ends(c: Config, b: Budget, t0: Timed, t: Timed) returns (t': Timed)
    requires LeadsTo(c, b, t0, t) && t.w.cycle == Between([])
    ensures LeadsTo(c, b, t0, t') && t' == t.(w := t.w.(cycle := NoCycle))
  {
    StepOn(c, b, t0, t, Go(Finish));
    t' := Next(c, b, t, Go(Finish));
  }

  /** An idle worker waits for its tick and starts a cycle. */
  lemma Ticks(c: Config, b: Budget, t0: Timed, t: Timed) returns (t': Timed)
    requires LeadsTo(c, b, t0, t) && t.w.cycle == NoCycle && t.w.now <= t.next
    ensures LeadsTo(c, b, t0, t')
    ensures t' == Timed(t.w.(now := t.next, cycle := Between(c.types)), t.next + b.period, t.next, true, t.missed)
  {
    t' := Waits(c, b, t0, t, t.next - t.w.now);
    StepOn(c, b, t0, t', Tick);
    t' := Next(c, b, t', Tick);
  }

  /** The types are `before`, then k, then `after`, and k is named once. */
  predicate Around(types: seq<string>, before: seq<string>, k: string, after: seq<string>) {
    types == before + ([k] + after) && k !in before && k !in after
  }

  predicate NamedOnce(types: seq<string>, k: string) {
    k in types && forall i, j :: 0 <= i < j < |types| && types[i] == k ==> types[j] != k
  }

  lemma SplitAround(types: seq<string>, k: string) returns (before: seq<string>, after: seq<string>)
    requires NamedOnce(types, k)
    ensures Around(types, before, k, after)
  {
    var i :| 0 <= i < |types| && types[i] == k;
    before, after := types[..i], types[i + 1..];
    assert types == before + ([k] + after);
  }

  /** A cycle that starts on its tick and whose every visit fails at once. */
  lemma MissesOnce(
      c: Config, b: Budget, t0: Timed, t: Timed, before: seq<string>, k: string, after: seq<string>)
    returns (t': Timed)
    requires LeadsTo(c, b, t0, t) && t.w.cycle == NoCycle && t.w.now <= t.next && Around(c.types, before, k, after)
    requires MissedBy(t, k) < b.misses && OnlyKnows(t, k)
    ensures LeadsTo(c, b, t0, t') && t'.w.cycle == NoCycle
    ensures t'.w.now == t.next && t'.next == t.next + b.period && MissedBy(t', k) == MissedBy(t, k) + 1
    ensures t'.w.known == t.w.known && t'.w.db == t.w.db
  {
    t' := Ticks(c, b, t0, t);
    t' := FailsThrough(c, b, t0, t', before, [k] + after, k);
    t' := MissesVisit(c, b, t0, t', k, after);
    assert after + [] == after;
    t' := FailsThrough(c, b, t0, t', after, [], k);
    t' := Ends(c, b, t0, t');
  }

  lemma MissMoves(c: Config, w: World, k: string, rest: seq<string>)
    requires w.cycle == Between([k] + rest)
    ensures MayMove(c, w, Visit(Failed)) && Misses(c, w, Visit(Failed)) && KindOf(w) == k
    ensures var w' := Moved(c, w, Visit(Failed));
      w'.now == w.now && w'.cycle == Between(rest) && w'.known == w.known && w'.db == w.db
  {
    var s := Project(w, k);
    assert s.act == Quiet;
    assert Apply(ParamsOf(c, k), s, Poll(Failed)) == s;
    assert w.cycle.todo[0] == k && w.cycle.todo[1..] == rest;
    EmbedsItself(w, k, rest);
  }

  /** Putting a type's own share back changes no key and no record. */
  lemma EmbedsItself(w: World, k: string, todo: seq<string>)
    requires ActOf(w.cycle, k) == Quiet
    ensures var w' := Embed(w, k, Project(w, k), todo);
      w'.now == w.now && w'.cycle == Between(todo) && w'.known == w.known && w'.db == w.db
  {
    var s := Project(w, k);
    EmbedFields(w, k, s, todo);
    SameMap(Embed(w, k, s, todo).known, w.known);
    PutsItself(w.db, k);
  }

  lemma PutsItself(db: Db, k: string)
    ensures PutSlice(db, k, SliceOf(db, k)) == db
  {
    var db' := PutSlice(db, k, SliceOf(db, k));
    PutSliceFrames(db, k, SliceOf(db, k));
    forall key ensures Look(db', key) == Look(db, key) {
      if Owns(k, key) {
        assert Look(SliceOf(db', k), key.part) == Look(SliceOf(db, k), key.part);
        assert key == Typed(k, key.part);
      }
    }
    SameMap(db', db);
  }

  lemma MissesVisit(c: Config, b: Budget, t0: Timed, u: Timed, j: string, rest: seq<string>) returns (v: Timed)
    requires LeadsTo(c, b, t0, u) && u.w.cycle == Between([j] + rest)
    requires j in u.w.known ==> MissedBy(u, j) < b.misses
    ensures LeadsTo(c, b, t0, v) && SameClock(u, v) && v.w.cycle == Between(rest)
    ensures forall x :: MissedBy(v, x) == MissedBy(u, x) + if x == j then 1 else 0
    ensures v.w.known == u.w.known && v.w.db == u.w.db
  {
    MissMoves(c, u.w, j, rest);
    assert MayGo(c, b, u, Visit(Failed));
    GoCounts(c, b, u, Visit(Failed));
    StepOn(c, b, t0, u, Go(Visit(Failed)));
    v := Next(c, b, u, Go(Visit(Failed)));
  }

  /** Types other than k, never synced, fail one after the other. */
  lemma {:induction false} FailsThrough(
      c: Config, b: Budget, t0: Timed, t: Timed, todo: seq<string>, rest: seq<string>, k: string)
    returns (t': Timed)
    requires LeadsTo(c, b, t0, t) && t.w.cycle == Between(todo + rest) && OnlyKnows(t, k) && k !in todo
    ensures LeadsTo(c, b, t0, t') && SameClock(t, t') && t'.w.cycle == Between(rest)
    ensures MissedBy(t', k) == MissedBy(t, k) && t'.w.known == t.w.known && t'.w.db == t.w.db
    decreases |todo|
  {
    if todo == [] {
      assert todo + rest == rest;
      t' := t;
    } else {
      assert todo + rest == [todo[0]] + (todo[1..] + rest);
      assert Look(t.w.known, todo[0]) == None;
      t' := MissesVisit(c, b, t0, t, todo[0], todo[1..] + rest);
      t' := FailsThrough(c, b, t0, t', todo[1..], rest, k);
    }
  }

  /** A cycle in which k syncs and every other type fails, all at one instant. */
  lemma SyncsOnly(
      c: Config, b: Budget, t0: Timed, t: Timed, before: seq<string>, k: string, after: seq<string>)
    returns (t': Timed)
    requires Started(c, t0) && LeadsTo(c, b, t0, t) && t.w.cycle == Between(c.types) && c.ttl >= SECOND
    requires Around(c.types, before, k, after) && OnlyKnows(t, k)
    ensures LeadsTo(c, b, t0, t') && SameClock(t, t') && t'.w.cycle == Between([]) && MissedBy(t', k) == 0
    ensures OnlyKnows(t', k) && k in t'.w.known && t'.w.known[k].fetchedAt == t.w.now
    ensures Typed(k, Index) in t'.w.db && t'.w.db[Typed(k, Index)].deadline == t.w.now + Hold(ParamsOf(c, k))
  {
    t' := FailsThrough(c, b, t0, t, before, [k] + after, k);
    AlwaysReachable(c, b, t0, t', k);
    t' := SyncWell(c, b, t0, t', k, after);
    assert after + [] == after;
    t' := FailsThrough(c, b, t0, t', after, [], k);
  }

  lemma {:induction false} MissesMany(
      c: Config, b: Budget, t0: Timed, t: Timed, before: seq<string>, k: string, after: seq<string>, n: nat)
    returns (t': Timed)
    requires LeadsTo(c, b, t0, t) && t.w.cycle == NoCycle && t.w.now <= t.next && Around(c.types, before, k, after)
    requires MissedBy(t, k) == 0 && n <= b.misses && 0 <= b.period && OnlyKnows(t, k)
    ensures LeadsTo(c, b, t0, t') && t'.w.cycle == NoCycle && t'.w.now <= t'.next
    ensures t'.next == t.next + n * b.period && MissedBy(t', k) == n
    ensures t'.w.known == t.w.known && t'.w.db == t.w.db
  {
    if n == 0 {
      t' := t;
    } else {
      var u := MissesMany(c, b, t0, t, before, k, after, n - 1);
      t' := MissesOnce(c, b, t0, u, before, k, after);
      AnotherPeriod(b, t.next, n);
    }
  }

  lemma AnotherPeriod(b: Budget, next: int, n: nat)
    requires n > 0
    ensures next + (n - 1) * b.period + b.period == next + n * b.period
  {
  }

  lemma AlwaysReachable(c: Config, b: Budget, t0: Timed, t: Timed, k: string)
    requires Started(c, t0) && LeadsTo(c, b, t0, t)
    ensures Reachable(ParamsOf(c, k), Project(t.w, k))
  {
    var ss :| Failover.Runs(c, b, t0, ss) && AfterRun(c, b, t0, ss) == t;
    RunStaysReachable(c, b, t0, ss);
    WorkerRefinesProtocol(c, t.w, k);
  }

  lemma {:induction false} RunStaysReachable(c: Config, b: Budget, t0: Timed, ss: seq<TStep>)
    requires Started(c, t0) && Failover.Runs(c, b, t0, ss)
    ensures WorkerReaches(c, AfterRun(c, b, t0, ss).w)
    decreases |ss|
  {
    if ss == [] {
    } else {
      RunStaysReachable(c, b, t0, ss[..|ss| - 1]);
      var t, s := AfterRun(c, b, t0, ss[..|ss| - 1]), ss[|ss| - 1];
      if s.Go? {
        WorkerReachesOn(c, t.w, s.m);
      } else if t.w.cycle.NoCycle? {
        WorkerReachesOn(c, t.w, Begin);
      }
    }
  }

  function ColdStart(): Timed {
    Timed(World(0, map[], map[], map[], map[], map[], NoCycle), 0, 0, false, map[])
  }

  lemma ColdStartIsAStart(c: Config)
    ensures Started(c, ColdStart())
  {
    var w := ColdStart().w;
    assert LegalMoves(c, w, []) && AfterMoves(c, w, []) == w;
    assert WorkerInit(w);
  }

  /** The type syncs in a resync just before a tick joins it: the tick is spent. */
  lemma TickJoinsPassedResync(c: Config, b: Budget, before: seq<string>, k: string, after: seq<string>)
    returns (t: Timed)
    requires Around(c.types, before, k, after) && c.ttl >= SECOND && 0 <= b.span <= b.period
    ensures Started(c, ColdStart()) && LeadsTo(c, b, ColdStart(), t) && t.w.cycle == NoCycle
    ensures t.w.now <= t.next && t.next == 2 * b.period && MissedBy(t, k) == 0 && OnlyKnows(t, k)
    ensures k in t.w.known && t.w.known[k].fetchedAt == b.period - b.span
    ensures Typed(k, Index) in t.w.db && t.w.db[Typed(k, Index)].deadline == b.period - b.span + Hold(ParamsOf(c, k))
  {
    var t0 := ColdStart();
    ColdStartIsAStart(c);
    assert Failover.Runs(c, b, t0, []) && AfterRun(c, b, t0, []) == t0;
    StepOn(c, b, t0, t0, Tick);
    t := Next(c, b, t0, Tick);
    t := SyncsOnly(c, b, t0, t, before, k, after);
    t := Ends(c, b, t0, t);
    t := Waits(c, b, t0, t, b.period - b.span);
    StepOn(c, b, t0, t, Resync);
    t := Next(c, b, t, Resync);
    t := SyncsOnly(c, b, t0, t, before, k, after);
    t := Waits(c, b, t0, t, b.span);
    StepOn(c, b, t0, t, Tick);
    t := Next(c, b, t, Tick);
    t := Ends(c, b, t0, t);
  }

  /** For every budget there is a run within it in which a synced type waits the whole
      longest gap, (m + 1)·P + 2·D, between the answer it last recorded and the next. */
  lemma GapIsReached(c: Config, b: Budget, k: string) returns (t: Timed)
    requires NamedOnce(c.types, k) && c.ttl >= SECOND && 0 <= b.span <= b.period
    ensures Started(c, ColdStart()) && LeadsTo(c, b, ColdStart(), t)
    ensures k in t.w.known && t.w.now == t.w.known[k].fetchedAt + LongestGap(b)
    ensures Typed(k, Index) in t.w.db
    ensures t.w.db[Typed(k, Index)].deadline == t.w.known[k].fetchedAt + Hold(ParamsOf(c, k))
  {
    var before, after := SplitAround(c.types, k);
    var u := TickJoinsPassedResync(c, b, before, k, after);
    var v := MissesMany(c, b, ColdStart(), u, before, k, after, b.misses);
    t := SpendsSpan(c, b, ColdStart(), v);
    GapAddsUp(b, u.next, v.next);
  }

  lemma GapAddsUp(b: Budget, joined: int, due: int)
    requires joined == 2 * b.period && due == joined + b.misses * b.period
    ensures due + b.span == b.period - b.span + LongestGap(b)
  {
    assert (b.misses + 1) * b.period == b.misses * b.period + b.period;
  }

  /** An idle worker waits for its tick, and its cycle then takes its whole time. */
  lemma SpendsSpan(c: Config, b: Budget, t0: Timed, u: Timed) returns (t: Timed)
    requires LeadsTo(c, b, t0, u) && u.w.cycle == NoCycle && u.w.now <= u.next && 0 <= b.span <= b.period
    ensures LeadsTo(c, b, t0, t) && t.w.now == u.next + b.span && t.w.known == u.w.known && t.w.db == u.w.db
  {
    var v := Ticks(c, b, t0, u);
    t := Waits(c, b, t0, v, b.span);
  }

  /** Every run within the budget keeps a synced type's index alive exactly when the
      longest gap is shorter than CacheTTL as the server counts it. */
  lemma BudgetIsExact(c: Config, b: Budget, k: string)
    requires NamedOnce(c.types, k) && c.ttl >= SECOND && 0 <= b.span <= b.period
    ensures (forall t0, t ::
        Started(c, t0) && LeadsTo(c, b, t0, t) && k in t.w.known ==> Live(t.w.db, Typed(k, Index), t.w.now))
      <==> LongestGap(b) < Hold(ParamsOf(c, k))
  {
    if LongestGap(b) < Hold(ParamsOf(c, k)) {
      forall t0, t | Started(c, t0) && LeadsTo(c, b, t0, t) && k in t.w.known
        ensures Live(t.w.db, Typed(k, Index), t.w.now)
      {
        var ss :| Failover.Runs(c, b, t0, ss) && AfterRun(c, b, t0, ss) == t;
        NeverLapses(c, b, t0, ss, k);
      }
    } else {
      var t := GapIsReached(c, b, k);
      assert !Live(t.w.db, Typed(k, Index), t.w.now);
    }
  }
}
