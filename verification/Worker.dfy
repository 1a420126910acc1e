/** The whole worker process: all configured types over one keyspace, one sync cycle
    at a time, and the proof that each type sees only its own protocol. */
module Worker {
  import opened Wrappers
  import opened Keys
  import opened Cache
  import opened Materialize
  import opened Protocol
  import opened ProtocolTheorems
  import Health

  datatype Config = Config(types: seq<string>, ttl: int, norm: string -> string)

  function ParamsOf(c: Config, kind: string): Params { Params(kind, c.ttl, c.norm) }

  /** The sync cycle: none, between two types, or inside one. */
  datatype Cycle =
    | NoCycle
    | Between(todo: seq<string>)
    | Busy(kind: string, act: Act, todo: seq<string>)

  datatype World = World(
    now: int, db: Db, etags: map<string, string>, known: map<string, TypeFreshness>,
    feeds: map<string, Feed>, hists: map<string, Hist>, cycle: Cycle)

  datatype Move =
    | Pass(d: nat)
    | Announce(kind: string, id: string, anchors: seq<Anchor>)
    | Foreign(key: Key, cell: Option<Cell>)
    | Reboot
    | Begin
    | Visit(reply: Reply)
    | Inner(step: Step)
    | Finish

  function ETagOf(w: World, k: string): string { if k in w.etags then w.etags[k] else "" }

  function FeedOf(w: World, k: string): Feed { if k in w.feeds then w.feeds[k] else Feed("", map["" := []]) }

  function HistOf(w: World, k: string): Hist { if k in w.hists then w.hists[k] else Hist(map[], false) }

  function ActOf(cycle: Cycle, k: string): Act { if cycle.Busy? && cycle.kind == k then cycle.act else Quiet }

  /** The worker as one type sees it. */
  function Project(w: World, k: string): State {
    State(w.now, SliceOf(w.db, k), ETagOf(w, k), Look(w.known, k), FeedOf(w, k), ActOf(w.cycle, k), HistOf(w, k))
  }

  function PutSlice(db: Db, kind: string, s: Slice): Db {
    (map k | k in db && !Owns(kind, k) :: db[k]) + (map p | p in s :: Typed(kind, p) := s[p])
  }

  lemma PutSliceFrames(db: Db, kind: string, s: Slice)
    ensures SliceOf(PutSlice(db, kind, s), kind) == s
    ensures OthersKept(db, PutSlice(db, kind, s), kind)
  {
    var db' := PutSlice(db, kind, s);
    forall p ensures Look(SliceOf(db', kind), p) == Look(s, p) {
      assert Look(db', Typed(kind, p)) == Look(s, p);
    }
    SameMap(SliceOf(db', kind), s);
  }

  /** One type's share of the world replaced; the clock stands still. */
  function Embed(w: World, k: string, s: State, todo: seq<string>): World {
    WithType(w, PutSlice(w.db, k, s.slice), k, s, todo)
  }

  function WithType(w: World, db: Db, k: string, s: State, todo: seq<string>): World {
    w.(db := db,
       etags := w.etags[k := s.etag],
       known := if s.known.Some? then w.known[k := s.known.value] else w.known - {k},
       feeds := w.feeds[k := s.feed],
       hists := w.hists[k := s.hist],
       cycle := if s.act.Quiet? then Between(todo) else Busy(k, s.act, todo))
  }

  /** What Embed does to the fields that are not maps over types. */
  lemma EmbedFields(w: World, k: string, s: State, todo: seq<string>)
    ensures Embed(w, k, s, todo).cycle == if s.act.Quiet? then Between(todo) else Busy(k, s.act, todo)
    ensures Embed(w, k, s, todo).now == w.now
    ensures forall j :: Look(Embed(w, k, s, todo).known, j) == if j == k then s.known else Look(w.known, j)
  {
    WithTypeFields(w, PutSlice(w.db, k, s.slice), k, s, todo);
  }

  lemma WithTypeFields(w: World, db: Db, k: string, s: State, todo: seq<string>)
    ensures WithType(w, db, k, s, todo).cycle == if s.act.Quiet? then Between(todo) else Busy(k, s.act, todo)
    ensures WithType(w, db, k, s, todo).now == w.now
    ensures forall j :: Look(WithType(w, db, k, s, todo).known, j) == if j == k then s.known else Look(w.known, j)
  {
  }

  lemma EmbedOwn(w: World, k: string, s: State, todo: seq<string>)
    requires s.now == w.now
    ensures Project(Embed(w, k, s, todo), k) == s
  {
    PutSliceFrames(w.db, k, s.slice);
  }

  lemma EmbedOther(w: World, k: string, s: State, todo: seq<string>, j: string)
    requires j != k && ActOf(w.cycle, j) == Quiet
    ensures Project(Embed(w, k, s, todo), j) == Project(w, j)
  {
    PutSliceFrames(w.db, k, s.slice);
    OtherSlicesKept(w.db, PutSlice(w.db, k, s.slice), k, j);
    WithTypeOther(w, PutSlice(w.db, k, s.slice), k, s, todo, j);
  }

  lemma WithTypeOther(w: World, db: Db, k: string, s: State, todo: seq<string>, j: string)
    requires j != k && ActOf(w.cycle, j) == Quiet && SliceOf(db, j) == SliceOf(w.db, j)
    ensures Project(WithType(w, db, k, s, todo), j) == Project(w, j)
  {
  }

  /** Steps a sync takes after its poll. */
  predicate IsInner(step: Step) {
    step.Receive? || step.ReadIndexStep? || step.ReadEntryStep? || step.ExecStep? || step.Record?
  }

  predicate MayMove(c: Config, w: World, m: Move) {
    match m
    case Pass(_) => true
    case Announce(k, id, _) => id !in FeedOf(w, k).pubs
    case Foreign(key, _) => !key.Typed?
    case Reboot => true
    case Begin => w.cycle == NoCycle
    case Visit(reply) => w.cycle.Between? && w.cycle.todo != [] && MayAnswer(Project(w, w.cycle.todo[0]), reply)
    case Inner(step) => w.cycle.Busy? && IsInner(step) && Enabled(Project(w, w.cycle.kind), step)
    case Finish => w.cycle == Between([])
  }

  ghost function Moved(c: Config, w: World, m: Move): World
    requires MayMove(c, w, m)
  {
    match m
    case Pass(d) => w.(now := w.now + d)
    case Announce(k, id, anchors) => w.(feeds := w.feeds[k := Feed(id, FeedOf(w, k).pubs[id := anchors])])
    case Foreign(key, cell) => w.(db := if cell.Some? then w.db[key := cell.value] else w.db - {key})
    case Reboot => w.(etags := map[], known := map[], cycle := NoCycle)
    case Begin => w.(cycle := Between(c.types))
    case Visit(reply) =>
      var k := w.cycle.todo[0];
      Embed(w, k, Apply(ParamsOf(c, k), Project(w, k), Poll(reply)), w.cycle.todo[1..])
    case Inner(step) =>
      var k := w.cycle.kind;
      Embed(w, k, Apply(ParamsOf(c, k), Project(w, k), step), w.cycle.todo)
    case Finish => w.(cycle := NoCycle)
  }

  /** What a move of the worker is to one type. */
  function StepFor(w: World, m: Move, k: string): Step {
    match m
    case Pass(d) => Elapse(d)
    case Announce(j, id, anchors) => if j == k then Publish(id, anchors) else Stutter
    case Reboot => Restart
    case Visit(reply) => if w.cycle.Between? && w.cycle.todo != [] && w.cycle.todo[0] == k then Poll(reply) else Stutter
    case Inner(step) => if w.cycle.Busy? && w.cycle.kind == k then step else Stutter
    case _ => Stutter
  }

  lemma ForeignSlices(db: Db, key: Key, cell: Option<Cell>, k: string)
    requires !key.Typed?
    ensures SliceOf(if cell.Some? then db[key := cell.value] else db - {key}, k) == SliceOf(db, k)
  {
    var db' := if cell.Some? then db[key := cell.value] else db - {key};
    forall p ensures Look(SliceOf(db', k), p) == Look(SliceOf(db, k), p) {
      assert Look(db', Typed(k, p)) == Look(db, Typed(k, p));
    }
    SameMap(SliceOf(db', k), SliceOf(db, k));
  }

  /** Type isolation: whatever the worker does, each type takes one enabled step of
      its own protocol, or none. */
  lemma MoveProjects(c: Config, w: World, m: Move, k: string)
    requires MayMove(c, w, m)
    ensures Enabled(Project(w, k), StepFor(w, m, k))
    ensures Project(Moved(c, w, m), k) == Apply(ParamsOf(c, k), Project(w, k), StepFor(w, m, k))
  {
    match m
    case Foreign(key, cell) => ForeignSlices(w.db, key, cell, k);
    case Visit(reply) => SyncProjects(c, w, w.cycle.todo[0], Poll(reply), w.cycle.todo[1..], k);
    case Inner(step) => SyncProjects(c, w, w.cycle.kind, step, w.cycle.todo, k);
    case _ =>
  }

  lemma SyncProjects(c: Config, w: World, j: string, step: Step, todo: seq<string>, k: string)
    requires Enabled(Project(w, j), step) && !step.Elapse?
    requires j != k ==> ActOf(w.cycle, k) == Quiet
    ensures Project(Embed(w, j, Apply(ParamsOf(c, j), Project(w, j), step), todo), k)
      == if j == k then Apply(ParamsOf(c, k), Project(w, k), step) else Project(w, k)
  {
    var s := Apply(ParamsOf(c, j), Project(w, j), step);
    if j == k {
      EmbedOwn(w, j, s, todo);
    } else {
      EmbedOther(w, j, s, todo, k);
    }
  }

  ghost predicate WorkerInit(w: World) {
    && (forall k :: k in w.db ==> !k.Typed?)
    && w.etags == map[] && w.known == map[] && w.hists == map[] && w.cycle == NoCycle
    && forall k :: FeedOf(w, k).current in FeedOf(w, k).pubs
  }

  ghost predicate LegalMoves(c: Config, w: World, ms: seq<Move>)
    decreases |ms|, 0
  {
    ms == [] || (LegalMoves(c, w, ms[..|ms| - 1]) && MayMove(c, AfterMoves(c, w, ms[..|ms| - 1]), ms[|ms| - 1]))
  }

  ghost function AfterMoves(c: Config, w: World, ms: seq<Move>): World
    requires LegalMoves(c, w, ms)
    decreases |ms|, 1
  {
    if ms == [] then w else Moved(c, AfterMoves(c, w, ms[..|ms| - 1]), ms[|ms| - 1])
  }

  ghost predicate WorkerReaches(c: Config, w: World) {
    exists w0, ms :: WorkerInit(w0) && LegalMoves(c, w0, ms) && AfterMoves(c, w0, ms) == w
  }

  lemma WorkerReachesOn(c: Config, w: World, m: Move)
    requires WorkerReaches(c, w) && MayMove(c, w, m)
    ensures WorkerReaches(c, Moved(c, w, m))
  {
    var w0, ms :| WorkerInit(w0) && LegalMoves(c, w0, ms) && AfterMoves(c, w0, ms) == w;
    var more := ms + [m];
    assert more[..|more| - 1] == ms;
    assert LegalMoves(c, w0, more) && AfterMoves(c, w0, more) == Moved(c, w, m);
  }

  lemma InitProjects(w: World, k: string)
    requires WorkerInit(w)
    ensures Init(Project(w, k))
  {
    forall p ensures Look(SliceOf(w.db, k), p) == None {
      assert Look(w.db, Typed(k, p)) == None;
    }
    SameMap(SliceOf(w.db, k), map[]);
  }

  lemma {:induction false} RunProjects(c: Config, w0: World, ms: seq<Move>, k: string) returns (steps: seq<Step>)
    requires WorkerInit(w0) && LegalMoves(c, w0, ms)
    ensures Legal(ParamsOf(c, k), Project(w0, k), steps)
    ensures After(ParamsOf(c, k), Project(w0, k), steps) == Project(AfterMoves(c, w0, ms), k)
    decreases |ms|
  {
    if ms == [] {
      steps := [];
    } else {
      var front, last := ms[..|ms| - 1], ms[|ms| - 1];
      var before := RunProjects(c, w0, front, k);
      var step := StepFor(AfterMoves(c, w0, front), last, k);
      MoveProjects(c, AfterMoves(c, w0, front), last, k);
      steps := before + [step];
      assert steps[..|steps| - 1] == before;
    }
  }

  /** Every state the worker reaches is, for every type, a state that type's own
      protocol reaches: other types, foreign keys and their interleavings add nothing. */
  lemma WorkerRefinesProtocol(c: Config, w: World, k: string)
    requires WorkerReaches(c, w)
    ensures Reachable(ParamsOf(c, k), Project(w, k))
  {
    var w0, ms :| WorkerInit(w0) && LegalMoves(c, w0, ms) && AfterMoves(c, w0, ms) == w;
    var steps := RunProjects(c, w0, ms, k);
    InitProjects(w0, k);
  }

  /** The protocol state of the type in hand. */
  function InHand(w: World): State
    requires w.cycle.Busy?
  {
    Project(w, w.cycle.kind)
  }

  /** The type in hand is about to commit with its previous keys unexpired. */
  ghost predicate CommitsNow(c: Config, w: World) {
    && w.cycle.Busy? && MayMove(c, w, Inner(ExecStep(Committed)))
    && Unexpired(InHand(w))
  }

  predicate Unexpired(s: State) {
    s.act.Reading? && (s.act.req.Refreshing? ==> Live(s.slice, Index, s.now))
  }

  /** Cache refinement with all types at work over one keyspace. */
  lemma WorkerRefinesUpstream(c: Config, w: World)
    requires WorkerReaches(c, w) && c.ttl >= SECOND && CommitsNow(c, w)
    ensures var k := w.cycle.kind;
      Materialized(ParamsOf(c, k), Project(Moved(c, w, Inner(ExecStep(Committed))), k), InHand(w).act.req)
      <==> Accounted(InHand(w))
  {
    var k := w.cycle.kind;
    WorkerRefinesProtocol(c, w, k);
    CacheRefinesUpstream(ParamsOf(c, k), InHand(w));
    MoveProjects(c, w, Inner(ExecStep(Committed)), k);
  }

  /** Ready at an instant, with a whole-second CacheTTL: every configured type's
      freshness key is live with a horizon at least the in-memory one, and its index,
      etag and listed anchors are live exactly if its last commit was not a refresh
      that found the index dead. */
  lemma ReadyNeverAheadOfStore(c: Config, w: World, k: string)
    requires WorkerReaches(c, w) && c.ttl >= SECOND && c.ttl % SECOND == 0
    requires Health.ReadyAt(c.types, w.known, w.now) && k in c.types
    ensures Live(w.db, Typed(k, Freshness), w.now) && w.db[Typed(k, Freshness)].value.FreshV?
    ensures w.db[Typed(k, Freshness)].value.freshness.validUntil >= w.known[k].validUntil
    ensures StoredLive(w, k) <==> !HistOf(w, k).blind
    ensures Live(w.db, Typed(k, Index), w.now) <==> !HistOf(w, k).blind
  {
    WorkerRefinesProtocol(c, w, k);
    var s := Project(w, k);
    ReadyMeansStored(ParamsOf(c, k), s);
    forall p ensures Live(s.slice, p, w.now) <==> Live(w.db, Typed(k, p), w.now) {
      assert Look(s.slice, p) == Look(w.db, Typed(k, p));
    }
  }

  /** The type's index, etag and every listed anchor key are live. */
  ghost predicate StoredLive(w: World, k: string) {
    && Live(w.db, Typed(k, Index), w.now) && Live(w.db, Typed(k, ETag), w.now)
    && forall t :: t in Listed(Project(w, k)) ==> Live(w.db, Typed(k, Territory(t)), w.now)
  }
}
