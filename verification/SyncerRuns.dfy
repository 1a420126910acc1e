/** The sequential sync of the process is one run of the step-by-step protocol, so
    what the protocol guarantees after every schedule holds of it. */
module SyncerRuns {
  import opened Wrappers
  import opened Cache
  import opened Materialize
  import opened Store
  import opened Protocol
  import opened Syncer

  /** A run leads from s to s', and records a freshness on its way, or does not. */
  ghost predicate Leads(p: Params, s: State, s': State, records: bool) {
    exists steps :: Legal(p, s, steps) && After(p, s, steps) == s' && (records <==> Record in steps)
  }

  lemma LeadsNowhere(p: Params, s: State)
    ensures Leads(p, s, s, false)
  {
    assert Legal(p, s, []) && After(p, s, []) == s && Record !in [];
  }

  lemma LeadsStep(p: Params, s: State, a: State, step: Step)
    requires Leads(p, s, a, false) && Enabled(a, step)
    ensures Leads(p, s, Apply(p, a, step), step.Record?)
  {
    var steps :| Legal(p, s, steps) && After(p, s, steps) == a && Record !in steps;
    var more := steps + [step];
    assert more[..|more| - 1] == steps;
    assert Legal(p, s, more) && After(p, s, more) == Apply(p, a, step);
    assert Record in more <==> step.Record?;
  }

  lemma LeadsLater(p: Params, s: State, a: State, at: int)
    requires Leads(p, s, a, false) && a.now <= at
    ensures Leads(p, s, a.(now := at), false)
  {
    LeadsStep(p, s, a, Elapse(at - a.now));
  }

  /** The instants of a visit come in the order its requests are made. */
  ghost predicate Ordered(at: int, v: Visit) {
    && at <= v.receivedAt <= v.trip.indexAt <= v.trip.execAt
    && (forall i: nat :: v.trip.indexAt <= v.trip.entryAt(i) <= v.trip.execAt)
    && (forall i: nat, j: nat :: i <= j ==> v.trip.entryAt(i) <= v.trip.entryAt(j))
  }

  function MemOf(s: State): TypeMem { TypeMem(s.slice, s.etag, s.known) }

  /** Every visit, whatever fails in it, is a run of the protocol that ends with the
      keys, ETag and freshness the sequential code leaves, and that records a freshness
      exactly when that code reports success. */
  lemma VisitIsARun(p: Params, s: State, v: Visit) returns (s': State)
    requires s.act == Quiet && MayAnswer(s, v.reply) && Ordered(s.now, v)
    ensures Leads(p, s, s', SyncTypeSpec(p, MemOf(s), v).1) && s'.act == Quiet && s'.feed == s.feed
    ensures MemOf(s') == SyncTypeSpec(p, MemOf(s), v).0
  {
    if v.reply.Failed? {
      LeadsNowhere(p, s);
      return s;
    }
    var a := Replying(p, s, v);
    s' := IndexAndOn(p, s, a, v);
    RememberIsSpec(p, s, v);
  }

  /** The answer is received, and the request it calls for is about to read the index. */
  ghost function AskedBy(p: Params, s: State, v: Visit): State
    requires !v.reply.Failed?
  {
    var req := RequestFor(p, s.(now := v.receivedAt), v.reply);
    s.(now := v.trip.indexAt, act := Asked(req),
       hist := s.hist.(confirmed := s.hist.confirmed[FreshnessOf(req).snapshotId := v.receivedAt]))
  }

  lemma Replying(p: Params, s: State, v: Visit) returns (a: State)
    requires s.act == Quiet && MayAnswer(s, v.reply) && !v.reply.Failed?
    requires s.now <= v.receivedAt <= v.trip.indexAt
    ensures a == AskedBy(p, s, v) && Leads(p, s, a, false)
  {
    LeadsNowhere(p, s);
    LeadsStep(p, s, s, Poll(v.reply));
    a := Apply(p, s, Poll(v.reply));
    LeadsLater(p, s, a, v.receivedAt);
    a := a.(now := v.receivedAt);
    LeadsStep(p, s, a, Receive);
    a := Apply(p, a, Receive);
    LeadsLater(p, s, a, v.trip.indexAt);
    a := a.(now := v.trip.indexAt);
  }

  lemma RememberIsSpec(p: Params, s: State, v: Visit)
    requires !v.reply.Failed?
    ensures var a := AskedBy(p, s, v);
      var r := Stored(p, a, v.trip);
      Remember(a, a.act.req, r.1, r.0) == SyncTypeSpec(p, MemOf(s), v).0 && r.1 == SyncTypeSpec(p, MemOf(s), v).1
  {
    var req := AskedBy(p, s, v).act.req;
    if v.reply.NotModified? {
      VisitRefreshes(p, MemOf(s), v, req.fr);
    } else {
      VisitSwaps(p, MemOf(s), v, req.m.entries, req.m.freshness);
    }
  }

  /** What the store operation makes of the request in hand. */
  ghost function Stored(p: Params, s: State, w: Trip): (Slice, bool)
    requires s.act.Asked?
  {
    match s.act.req
    case Swapping(m) => SwapSpec(s.slice, m, p.ttl, w)
    case Refreshing(fr) => RefreshSpec(s.slice, fr, p.ttl, w)
  }

  ghost function Remember(s: State, req: Request, ok: bool, slice: Slice): TypeMem {
    TypeMem(slice,
      if ok && req.Swapping? then req.m.etag else s.etag,
      if ok then Some(FreshnessOf(req)) else s.known)
  }

  lemma IndexAndOn(p: Params, s: State, a: State, v: Visit) returns (s': State)
    requires Leads(p, s, a, false) && a.act.Asked? && a.now == v.trip.indexAt && Ordered(s.now, v)
    ensures Leads(p, s, s', Stored(p, a, v.trip).1) && s'.act == Quiet && s'.feed == a.feed
    ensures var r := Stored(p, a, v.trip);
      MemOf(s') == Remember(a, a.act.req, r.1, r.0)
  {
    var w := v.trip;
    LeadsStep(p, s, a, ReadIndexStep(w.indexFails));
    var b := Apply(p, a, ReadIndexStep(w.indexFails));
    if b.act.Quiet? {
      return b;
    }
    if b.act.req.Refreshing? {
      var c := ReadThrough(p, s, b, w, |b.act.prev|);
      if c.act.Quiet? {
        return c;
      }
      s' := ExecAndOn(p, s, c, w);
    } else {
      s' := ExecAndOn(p, s, b, w);
    }
  }

  lemma {:induction false} ReadThrough(p: Params, s: State, b: State, w: Trip, n: nat) returns (c: State)
    requires Leads(p, s, b, false) && b.act.Reading? && b.act.req.Refreshing? && b.act.next == 0 && b.act.got == map[]
    requires n <= |b.act.prev|
    requires forall i: nat :: b.now <= w.entryAt(i) <= w.execAt
    requires forall i: nat, j: nat :: i <= j ==> w.entryAt(i) <= w.entryAt(j)
    ensures Leads(p, s, c, false)
    ensures match Patched(b.slice, b.act.prev, n, w, b.act.req.fr.validUntil)
      case Err => c.act == Quiet && c == b.(now := c.now, act := Quiet)
      case Ok(got) => c == b.(now := c.now, act := b.act.(next := n, got := got))
    ensures b.now <= c.now <= (if n == 0 then b.now else w.entryAt(n - 1))
  {
    if n == 0 {
      return b;
    }
    var d := ReadThrough(p, s, b, w, n - 1);
    if d.act.Quiet? {
      return d;
    }
    c := ReadOneMore(p, s, b, d, w, n, d.act.got);
  }

  lemma ReadOneMore(p: Params, s: State, b: State, d: State, w: Trip, n: nat, got: map<string, Entry>)
    returns (c: State)
    requires b.act.Reading? && b.act.req.Refreshing? && 0 < n <= |b.act.prev|
    requires Leads(p, s, d, false) && d.now <= w.entryAt(n - 1)
    requires d == b.(now := d.now, act := b.act.(next := n - 1, got := got))
    requires Patched(b.slice, b.act.prev, n - 1, w, b.act.req.fr.validUntil) == Ok(got)
    ensures Leads(p, s, c, false) && c.now == w.entryAt(n - 1)
    ensures match Patched(b.slice, b.act.prev, n, w, b.act.req.fr.validUntil)
      case Err => c == b.(now := c.now, act := Quiet)
      case Ok(more) => c == b.(now := c.now, act := b.act.(next := n, got := more))
  {
    c := ReadOnce(p, s, d, w.entryAt(n - 1), w.entryFails(n - 1));
  }

  lemma ReadOnce(p: Params, s: State, c: State, at: int, fails: bool) returns (r: State)
    requires Leads(p, s, c, false) && c.now <= at
    requires c.act.Reading? && c.act.req.Refreshing? && c.act.next < |c.act.prev|
    ensures Leads(p, s, r, false) && r.now == at
    ensures match (if fails then Err
                   else PatchOne(c.slice, c.act.prev[c.act.next], c.act.got, at, c.act.req.fr.validUntil))
      case Err => r == c.(now := at, act := Quiet)
      case Ok(got) => r == c.(now := at, act := c.act.(next := c.act.next + 1, got := got))
  {
    LeadsLater(p, s, c, at);
    var d := c.(now := at);
    LeadsStep(p, s, d, ReadEntryStep(fails));
    r := Apply(p, d, ReadEntryStep(fails));
  }

  lemma ExecAndOn(p: Params, s: State, c: State, w: Trip) returns (s': State)
    requires Leads(p, s, c, false) && Enabled(c, ExecStep(w.outcome)) && c.now <= w.execAt
    ensures Leads(p, s, s', w.outcome == Committed) && s'.act == Quiet && s'.feed == c.feed
    ensures var e := c.(now := w.execAt);
      var r := Settle(c.slice, ExecSlice(p, e), w.outcome);
      MemOf(s') == Remember(c, c.act.req, r.1, r.0)
  {
    LeadsLater(p, s, c, w.execAt);
    var e := c.(now := w.execAt);
    LeadsStep(p, s, e, ExecStep(w.outcome));
    s' := Apply(p, e, ExecStep(w.outcome));
    if w.outcome.Committed? {
      LeadsStep(p, s, s', Record);
      s' := Apply(p, s', Record);
    }
  }
}
