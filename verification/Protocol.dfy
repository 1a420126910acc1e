/** One anchor type's protocol in atomic steps: the upstream poll, the reads outside
    the transaction, EXEC, and the in-memory record, with time passing, upstream
    publishing and the process restarting between any two of them. */
module Protocol {
  import opened Wrappers
  import opened Keys
  import opened Cache
  import opened Grouping
  import opened Materialize

  /** What is fixed for one type: its wire name, CacheTTL and territory normalization. */
  datatype Params = Params(kind: string, ttl: int, norm: string -> string)

  /** CacheTTL as the server counts it: whole seconds. */
  function Hold(p: Params): int { p.ttl / SECOND * SECOND }

  /** The part of CacheTTL the server drops. */
  function Fraction(p: Params): int { p.ttl - Hold(p) }

  /** Upstream's view of the type: every snapshot it ever published, and the current one. */
  datatype Feed = Feed(current: string, pubs: map<string, seq<Anchor>>)

  datatype Reply = Failed | NotModified | Body(id: string, anchors: seq<Anchor>, stale: bool)

  datatype Request = Swapping(m: Material) | Refreshing(fr: TypeFreshness)

  function FreshnessOf(r: Request): TypeFreshness {
    match r case Swapping(m) => m.freshness case Refreshing(fr) => fr
  }

  /** Where the type's sync stands. `covered` records whether, when the index was
      read, it listed every live anchor key. */
  datatype Act =
    | Quiet
    | Replied(reply: Reply)
    | Asked(req: Request)
    | Reading(req: Request, prev: seq<string>, next: nat, got: map<string, Entry>, covered: bool)
    | Confirmed(req: Request)

  /** History: the instant each snapshot was last confirmed to the worker, and whether
      the last commit was a refresh that found the index already dead. */
  datatype Hist = Hist(confirmed: map<string, int>, blind: bool)

  datatype State = State(
    now: int, slice: Slice, etag: string, known: Option<TypeFreshness>,
    feed: Feed, act: Act, hist: Hist)

  datatype Step =
    | Stutter
    | Elapse(d: nat)
    | Publish(id: string, anchors: seq<Anchor>)
    | Restart
    | Poll(reply: Reply)
    | Receive
    | ReadIndexStep(fails: bool)
    | ReadEntryStep(fails: bool)
    | ExecStep(outcome: Outcome)
    | Record

  /** What upstream may answer: 304 only to a non-empty ETag that is the current one
      (sections 13.1.2 and 15.4.5 of RFC 9110), 200 only with the current snapshot. */
  predicate MayAnswer(s: State, reply: Reply) {
    match reply
    case Failed => true
    case NotModified => s.etag != "" && s.etag == s.feed.current
    case Body(id, anchors, _) => id == s.feed.current && id in s.feed.pubs && s.feed.pubs[id] == anchors
  }

  predicate Enabled(s: State, step: Step) {
    match step
    case Stutter | Elapse(_) | Restart => true
    case Publish(id, _) => id !in s.feed.pubs
    case Poll(reply) => s.act.Quiet? && MayAnswer(s, reply)
    case Receive => s.act.Replied? && !s.act.reply.Failed?
    case ReadIndexStep(_) => s.act.Asked?
    case ReadEntryStep(_) => s.act.Reading? && s.act.req.Refreshing? && s.act.next < |s.act.prev|
    case ExecStep(_) => s.act.Reading? && (s.act.req.Refreshing? ==> s.act.next == |s.act.prev|)
    case Record => s.act.Confirmed?
  }

  /** Every live anchor key is one of `listed`. */
  ghost predicate Covers(s: Slice, listed: seq<string>, at: int) {
    forall t :: Live(s, Territory(t), at) ==> t in listed
  }

  /** The request built from the reply received now. */
  function RequestFor(p: Params, s: State, reply: Reply): Request
    requires !reply.Failed?
  {
    match reply
    case NotModified => Refreshing(TypeFreshness(s.etag, s.now, s.now + p.ttl, false))
    case Body(id, anchors, stale) =>
      Swapping(Material(id,
        EntriesFor(p.norm, p.kind, id, anchors, stale, s.now, s.now + p.ttl),
        TypeFreshness(id, s.now, s.now + p.ttl, stale)))
  }

  /** The type's keys after a committed EXEC now. */
  ghost function ExecSlice(p: Params, s: State): Slice
    requires s.act.Reading?
  {
    match s.act.req
    case Swapping(m) => SwapEffect(s.slice, s.act.prev, m, p.ttl / SECOND, s.now)
    case Refreshing(fr) => RefreshEffect(s.slice, s.act.prev, s.act.got, fr, p.ttl / SECOND, s.now)
  }

  /** A refresh about to write entries although the index has expired. */
  predicate Resurrects(s: State)
    requires s.act.Reading?
  {
    s.act.req.Refreshing? && !Live(s.slice, Index, s.now) && s.act.got != map[]
  }

  function ExecHist(s: State): Hist
    requires s.act.Reading?
  {
    var h := s.hist;
    match s.act.req
    case Swapping(_) => h.(blind := false)
    case Refreshing(_) => h.(blind := !Live(s.slice, Index, s.now))
  }

  ghost function Apply(p: Params, s: State, step: Step): State
    requires Enabled(s, step)
  {
    match step
    case Stutter => s
    case Elapse(d) => s.(now := s.now + d)
    case Publish(id, anchors) => s.(feed := Feed(id, s.feed.pubs[id := anchors]))
    case Restart => s.(etag := "", known := None, act := Quiet)
    case Poll(reply) => s.(act := if reply.Failed? then Quiet else Replied(reply))
    case Receive =>
      var req := RequestFor(p, s, s.act.reply);
      s.(act := Asked(req), hist := s.hist.(confirmed := s.hist.confirmed[FreshnessOf(req).snapshotId := s.now]))
    case ReadIndexStep(fails) =>
      (match ReadIndex(s.slice, s.now)
       case Ok(prev) =>
         s.(act := if fails then Quiet else Reading(s.act.req, prev, 0, map[], Covers(s.slice, prev, s.now)))
       case Err => s.(act := Quiet))
    case ReadEntryStep(fails) =>
      (match PatchOne(s.slice, s.act.prev[s.act.next], s.act.got, s.now, FreshnessOf(s.act.req).validUntil)
       case Ok(got) => s.(act := if fails then Quiet else s.act.(next := s.act.next + 1, got := got))
       case Err => s.(act := Quiet))
    case ExecStep(Lost) => s.(act := Quiet)
    case ExecStep(Committed) => s.(slice := ExecSlice(p, s), hist := ExecHist(s), act := Confirmed(s.act.req))
    case ExecStep(CommittedUnacknowledged) => s.(slice := ExecSlice(p, s), hist := ExecHist(s), act := Quiet)
    case Record =>
      (match s.act.req
       case Swapping(m) => s.(etag := m.etag, known := Some(m.freshness), act := Quiet)
       case Refreshing(fr) => s.(known := Some(fr), act := Quiet))
  }

  /** A process starting over an empty keyspace. */
  ghost predicate Init(s: State) {
    && s.slice == map[] && s.etag == "" && s.known == None && s.act == Quiet
    && s.feed.current in s.feed.pubs
    && s.hist == Hist(map[], false)
  }

  /** A schedule: each step enabled where it is taken. */
  ghost predicate Legal(p: Params, s: State, steps: seq<Step>)
    decreases |steps|, 0
  {
    steps == [] || (Legal(p, s, steps[..|steps| - 1]) && Enabled(After(p, s, steps[..|steps| - 1]), steps[|steps| - 1]))
  }

  ghost function After(p: Params, s: State, steps: seq<Step>): State
    requires Legal(p, s, steps)
    decreases |steps|, 1
  {
    if steps == [] then s else Apply(p, After(p, s, steps[..|steps| - 1]), steps[|steps| - 1])
  }
}
