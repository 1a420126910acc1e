/** The prefetch pass: every referenced status list that would not outlive the
    interval is fetched again, and one that fails never stops the others. */
module Prefetch {
  import opened Wrappers
  import opened Keys
  import opened Cache
  import opened Materialize
  import opened Store
  import opened StatusRefs
  import opened PeekTTL

  /** The newest references a trim keeps. */
  const REFS_KEEP_BOUND: nat := 1000

  datatype Config = Config(topN: int, interval: int64, dflt: int64, minTTL: int64, maxTTL: int64)

  predicate Configured(cfg: Config) {
    cfg.interval > 0 && cfg.dflt > 0 && 0 < cfg.minTTL < cfg.maxTTL
  }

  /** What the store, the fetcher and the clock do for one URI. */
  datatype Turn = Turn(ttlAt: int, ttlFails: bool, body: Option<Bytes>, nowAt: int, setAt: int, outcome: Outcome)

  datatype Decision = Hit | Refreshed | Failure

  /** What is fixed for a pass: settings, token decoding, and the hash that names a URI's key. */
  datatype Setup = Setup(cfg: Config, codec: Codec, hash: string -> string)

  function KeyOf(p: Setup, uri: string): Key { StatusList(p.hash(uri)) }

  /** The lifetime requested for a body fetched at `now`. */
  function Lifetime(p: Setup, body: Bytes, now: int): int64 {
    Clamp(Peeked(Shown(p.codec, body), p.cfg.dflt, now), p.cfg.minTTL, p.cfg.maxTTL)
  }

  /** The key outlives the interval. */
  predicate Warm(cell: Option<Cell>, at: int, interval: int) {
    TimeLeft(cell, at).Some? && TimeLeft(cell, at).value > interval
  }

  function VisitCell(p: Setup, cell: Option<Cell>, t: Turn): (Option<Cell>, Decision) {
    if t.ttlFails then (cell, Failure)
    else if Warm(cell, t.ttlAt, p.cfg.interval) then (cell, Hit)
    else match t.body
      case None => (cell, Failure)
      case Some(body) =>
        var life := Lifetime(p, body, t.nowAt);
        if life < SECOND || t.outcome == Lost then (cell, Failure)
        else (Some(Cell(RawV(body), t.setAt + life / SECOND * SECOND)),
              if t.outcome == Committed then Refreshed else Failure)
  }

  function Put(db: Db, k: Key, cell: Option<Cell>): Db {
    match cell case None => db case Some(c) => db[k := c]
  }

  datatype Tally = Tally(db: Db, hits: nat, refreshed: nat, errors: nat)

  /** The pass over the first n URIs. */
  function Pass(p: Setup, db: Db, uris: seq<string>, turns: nat -> Turn, n: nat): Tally
    requires n <= |uris|
  {
    if n == 0 then Tally(db, 0, 0, 0)
    else
      var t := Pass(p, db, uris, turns, n - 1);
      var k := KeyOf(p, uris[n - 1]);
      var v := VisitCell(p, Look(t.db, k), turns(n - 1));
      Tally(Put(t.db, k, v.0),
        t.hits + (if v.1.Hit? then 1 else 0),
        t.refreshed + (if v.1.Refreshed? then 1 else 0),
        t.errors + (if v.1.Failure? then 1 else 0))
  }

  // ---- properties of a pass -------------------------------------------------------

  /** The key has more than the interval left, by whole milliseconds as the server counts. */
  predicate Outlives(cell: Option<Cell>, at: int, interval: int) {
    cell.Some? && cell.value.deadline - at >= (interval / 1_000_000 + 1) * 1_000_000
  }

  /** What each turn decides, said on deadlines: a hit exactly when the time to live was
      read and the key outlives the interval; a refresh exactly when it was read, the
      key does not, and the fetch and the write went through; an error otherwise. */
  lemma VisitDecides(p: Setup, cell: Option<Cell>, t: Turn)
    requires Configured(p.cfg)
    ensures Outlives(cell, t.ttlAt, p.cfg.interval) ==> cell.value.deadline > t.ttlAt + p.cfg.interval
    ensures VisitCell(p, cell, t).1 == Hit <==> !t.ttlFails && Outlives(cell, t.ttlAt, p.cfg.interval)
    ensures VisitCell(p, cell, t).1 == Refreshed
      <==> && !t.ttlFails && !Outlives(cell, t.ttlAt, p.cfg.interval)
           && t.body.Some? && t.outcome == Committed && Lifetime(p, t.body.value, t.nowAt) >= 1_000_000_000
    ensures VisitCell(p, cell, t).1 == Hit ==> VisitCell(p, cell, t).0 == cell
    ensures VisitCell(p, cell, t).1 == Refreshed ==>
      VisitCell(p, cell, t).0 == Some(Cell(RawV(t.body.value),
        t.setAt + Lifetime(p, t.body.value, t.nowAt) / 1_000_000_000 * 1_000_000_000))
  {
    if cell.Some? {
      WholeMillis(cell.value.deadline - t.ttlAt, p.cfg.interval);
    }
  }

  lemma WholeMillis(left: int, interval: int)
    requires interval > 0
    ensures left > 0 && left / MILLISECOND * MILLISECOND > interval
      <==> left >= (interval / 1_000_000 + 1) * 1_000_000
    ensures (interval / 1_000_000 + 1) * 1_000_000 > interval
  {
  }

  /** The lifetime asked for, from what the token shows: the default when it shows
      nothing, else its ttl, capped by its exp, or its exp alone; always clamped. */
  lemma LifetimeMeans(p: Setup, body: Bytes, now: int)
    requires Configured(p.cfg) && Sane(now)
    ensures Silent(Shown(p.codec, body)) ==> Lifetime(p, body, now) == Max(p.cfg.minTTL, Min(p.cfg.maxTTL, p.cfg.dflt))
    ensures Shown(p.codec, body).Some? ==>
      var c := Shown(p.codec, body).value;
      && (c.exp.None? && HasTTL(c) && c.ttl.value <= LONGEST ==>
            Lifetime(p, body, now) == Max(p.cfg.minTTL, Min(p.cfg.maxTTL, c.ttl.value * SECOND)))
      && (c.exp.Some? && c.exp.value <= LAST_EXP && !HasTTL(c) ==>
            Lifetime(p, body, now) == Max(p.cfg.minTTL, Min(p.cfg.maxTTL, c.exp.value * SECOND - now)))
      && (c.exp.Some? && c.exp.value <= LAST_EXP && HasTTL(c) && c.ttl.value <= LONGEST ==>
            Lifetime(p, body, now)
            == Max(p.cfg.minTTL, Min(p.cfg.maxTTL, Min(c.ttl.value * SECOND, c.exp.value * SECOND - now))))
  {
    if Silent(Shown(p.codec, body)) {
      DefaultTaken(Shown(p.codec, body), p.cfg.dflt, now);
    } else {
      ShownLifetime(p, Shown(p.codec, body).value, now);
    }
  }

  lemma ShownLifetime(p: Setup, c: Claims, now: int)
    requires Configured(p.cfg) && Sane(now) && (c.ttl.Some? || c.exp.Some?)
    ensures var life := Clamp(Peeked(Some(c), p.cfg.dflt, now), p.cfg.minTTL, p.cfg.maxTTL);
      && (c.exp.None? && HasTTL(c) && c.ttl.value <= LONGEST ==>
            life == Max(p.cfg.minTTL, Min(p.cfg.maxTTL, c.ttl.value * SECOND)))
      && (c.exp.Some? && c.exp.value <= LAST_EXP && !HasTTL(c) ==>
            life == Max(p.cfg.minTTL, Min(p.cfg.maxTTL, c.exp.value * SECOND - now)))
      && (c.exp.Some? && c.exp.value <= LAST_EXP && HasTTL(c) && c.ttl.value <= LONGEST ==>
            life == Max(p.cfg.minTTL, Min(p.cfg.maxTTL, Min(c.ttl.value * SECOND, c.exp.value * SECOND - now))))
  {
    if c.exp.Some? {
      WrapNeverGains(c.exp.value);
    }
    if HasTTL(c) && c.ttl.value <= LONGEST {
      ShortIsExact(c.ttl.value);
    }
  }

  /** What the pass decided for its i-th URI. */
  function Decided(p: Setup, db: Db, uris: seq<string>, turns: nat -> Turn, i: nat): Decision
    requires i < |uris|
  {
    VisitCell(p, Look(Pass(p, db, uris, turns, i).db, KeyOf(p, uris[i])), turns(i)).1
  }

  /** `ds` lists what the pass decided, URI by URI. */
  ghost predicate Lists(p: Setup, db: Db, uris: seq<string>, turns: nat -> Turn, ds: seq<Decision>) {
    |ds| == |uris|
    && forall i {:trigger Decided(p, db, uris, turns, i)} :: 0 <= i < |uris| ==> ds[i] == Decided(p, db, uris, turns, i)
  }

  /** The first n positions at which d was decided. */
  ghost function DecidedAs(ds: seq<Decision>, n: nat, d: Decision): set<nat>
    requires n <= |ds|
  {
    set i: nat | i < n && ds[i] == d
  }

  lemma PassTallies(p: Setup, db: Db, uris: seq<string>, turns: nat -> Turn, ds: seq<Decision>, n: nat)
    requires 0 < n <= |uris| && Lists(p, db, uris, turns, ds)
    ensures var t, u := Pass(p, db, uris, turns, n - 1), Pass(p, db, uris, turns, n);
      && u.hits == t.hits + (if ds[n - 1] == Hit then 1 else 0)
      && u.refreshed == t.refreshed + (if ds[n - 1] == Refreshed then 1 else 0)
      && u.errors == t.errors + (if ds[n - 1] == Failure then 1 else 0)
  {
    assert ds[n - 1] == Decided(p, db, uris, turns, n - 1);
  }

  /** Each counter is the number of positions decided its way. */
  ghost predicate Counts(t: Tally, ds: seq<Decision>, n: nat)
    requires n <= |ds|
  {
    && t.hits == |DecidedAs(ds, n, Hit)|
    && t.refreshed == |DecidedAs(ds, n, Refreshed)|
    && t.errors == |DecidedAs(ds, n, Failure)|
  }

  lemma CountsOneMore(t: Tally, u: Tally, ds: seq<Decision>, n: nat)
    requires 0 < n <= |ds| && Counts(t, ds, n - 1)
    requires u.hits == t.hits + if ds[n - 1] == Hit then 1 else 0
    requires u.refreshed == t.refreshed + if ds[n - 1] == Refreshed then 1 else 0
    requires u.errors == t.errors + if ds[n - 1] == Failure then 1 else 0
    ensures Counts(u, ds, n)
  {
    OneMoreDecided(ds, n, Hit);
    OneMoreDecided(ds, n, Refreshed);
    OneMoreDecided(ds, n, Failure);
  }

  /** The counters of a pass count its decisions. */
  lemma {:induction false} CountersCount(
      p: Setup, db: Db, uris: seq<string>, turns: nat -> Turn, ds: seq<Decision>, n: nat)
    requires n <= |uris| && Lists(p, db, uris, turns, ds)
    ensures Counts(Pass(p, db, uris, turns, n), ds, n)
  {
    if n == 0 {
    } else {
      CountersCount(p, db, uris, turns, ds, n - 1);
      PassTallies(p, db, uris, turns, ds, n);
      CountsOneMore(Pass(p, db, uris, turns, n - 1), Pass(p, db, uris, turns, n), ds, n);
    }
  }

  lemma OneMoreDecided(ds: seq<Decision>, n: nat, d: Decision)
    requires 0 < n <= |ds|
    ensures |DecidedAs(ds, n, d)| == |DecidedAs(ds, n - 1, d)| + if ds[n - 1] == d then 1 else 0
  {
    var before, all := DecidedAs(ds, n - 1, d), DecidedAs(ds, n, d);
    var last: nat := n - 1;
    if ds[last] == d {
      assert all == before + {last};
    } else {
      assert all == before;
    }
  }

  predicate DistinctKeys(p: Setup, uris: seq<string>) {
    forall i, j :: 0 <= i < j < |uris| ==> KeyOf(p, uris[i]) != KeyOf(p, uris[j])
  }

  /** URIs with keys of their own are each treated as if they were the whole pass. */
  lemma {:induction false} EachURIOnItsOwn(p: Setup, db: Db, uris: seq<string>, turns: nat -> Turn, n: nat, i: nat)
    requires i < |uris| && n <= |uris| && DistinctKeys(p, uris)
    ensures var k := StatusList(p.hash(uris[i]));
      && Look(Pass(p, db, uris, turns, n).db, k)
         == (if i < n then VisitCell(p, Look(db, k), turns(i)).0 else Look(db, k))
      && (i == n ==> Decided(p, db, uris, turns, i) == VisitCell(p, Look(db, k), turns(i)).1)
  {
    if n == 0 {
    } else {
      EachURIOnItsOwn(p, db, uris, turns, n - 1, i);
      VisitKeeps(p, Look(Pass(p, db, uris, turns, n - 1).db, KeyOf(p, uris[n - 1])), turns(n - 1));
    }
  }

  lemma VisitKeeps(p: Setup, cell: Option<Cell>, t: Turn)
    ensures VisitCell(p, cell, t).0 == cell || VisitCell(p, cell, t).0.Some?
  {
  }

  /** Conservation: every URI is a hit, a refresh or an error, whatever fails. */
  lemma {:induction false} EveryURIIsCounted(p: Setup, db: Db, uris: seq<string>, turns: nat -> Turn, n: nat)
    requires n <= |uris|
    ensures var t := Pass(p, db, uris, turns, n); t.hits + t.refreshed + t.errors == n
  {
    if n == 0 {
    } else {
      EveryURIIsCounted(p, db, uris, turns, n - 1);
    }
  }

  /** The key holds a body fetched this pass under a lifetime within [MinTTL, MaxTTL]. */
  ghost predicate Rewritten(p: Setup, t: Turn, cell: Option<Cell>) {
    && t.body.Some? && t.outcome != Lost
    && var life := Lifetime(p, t.body.value, t.nowAt);
    && p.cfg.minTTL <= life <= p.cfg.maxTTL && life >= SECOND
    && cell == Some(Cell(RawV(t.body.value), t.setAt + life / SECOND * SECOND))
  }

  lemma VisitWrites(p: Setup, cell: Option<Cell>, t: Turn)
    requires Configured(p.cfg)
    ensures VisitCell(p, cell, t).0 == cell || Rewritten(p, t, VisitCell(p, cell, t).0)
    ensures VisitCell(p, cell, t).1 == Hit ==> VisitCell(p, cell, t).0 == cell
    ensures VisitCell(p, cell, t).1 == Refreshed ==> Rewritten(p, t, VisitCell(p, cell, t).0)
  {
  }

  /** Every key is as it was, or belongs to a URI of the pass and was rewritten on its
      turn; no other key is touched. */
  lemma {:induction false} OnlyListedKeysChange(p: Setup, db: Db, uris: seq<string>, turns: nat -> Turn, n: nat, k: Key)
    requires n <= |uris| && Configured(p.cfg)
    ensures var after := Look(Pass(p, db, uris, turns, n).db, k);
      after == Look(db, k)
      || exists i :: 0 <= i < n && k == StatusList(p.hash(uris[i])) && Rewritten(p, turns(i), after)
  {
    if n == 0 {
    } else {
      OnlyListedKeysChange(p, db, uris, turns, n - 1, k);
      var t := Pass(p, db, uris, turns, n - 1);
      VisitWrites(p, Look(t.db, KeyOf(p, uris[n - 1])), turns(n - 1));
    }
  }

  /** A cached body whose claims carry exp is kept past exp only as far as MinTTL
      forces it, counted from the instant its lifetime was computed. */
  lemma CachedWithinExp(p: Setup, t: Turn, cell: Option<Cell>)
    requires Configured(p.cfg) && Rewritten(p, t, cell)
    requires Shown(p.codec, t.body.value).Some? && Shown(p.codec, t.body.value).value.exp.Some?
    ensures cell.Some? && cell.value.deadline - t.setAt + t.nowAt
      <= Max(Shown(p.codec, t.body.value).value.exp.value * SECOND, t.nowAt + p.cfg.minTTL)
  {
    HorizonCapped(Shown(p.codec, t.body.value).value, p.cfg.dflt, p.cfg.minTTL, p.cfg.maxTTL, t.nowAt);
  }

  // ---- a second pass --------------------------------------------------------------

  /** Nothing fails on this turn and the clock stands at `at`. */
  predicate Smooth(t: Turn, at: int) {
    !t.ttlFails && t.body.Some? && t.outcome == Committed && t.ttlAt == at && t.nowAt == at && t.setAt == at
  }

  /** MinTTL in whole seconds exceeds the interval. */
  predicate Outlasts(cfg: Config) { cfg.minTTL / SECOND * SECOND > cfg.interval }

  lemma SmoothVisitWarms(p: Setup, cell: Option<Cell>, t: Turn, at: int)
    requires Configured(p.cfg) && Outlasts(p.cfg) && Smooth(t, at)
    ensures Warm(VisitCell(p, cell, t).0, at, p.cfg.interval)
  {
    if !Warm(cell, at, p.cfg.interval) {
      var life := Lifetime(p, t.body.value, at);
      assert life / SECOND >= p.cfg.minTTL / SECOND;
      WholeSeconds(life / SECOND);
      assert TimeLeft(VisitCell(p, cell, t).0, at) == Some(life / SECOND * SECOND);
    }
  }

  lemma WholeSeconds(secs: int)
    ensures secs * SECOND / MILLISECOND * MILLISECOND == secs * SECOND
  {
    assert secs * SECOND == secs * 1000 * MILLISECOND;
  }

  lemma {:induction false} SmoothPassWarms(
      p: Setup, db: Db, uris: seq<string>, turns: nat -> Turn, n: nat, at: int, j: nat)
    requires j < n <= |uris| && Configured(p.cfg) && Outlasts(p.cfg)
    requires forall i: nat :: i < n ==> Smooth(turns(i), at)
    ensures Warm(Look(Pass(p, db, uris, turns, n).db, KeyOf(p, uris[j])), at, p.cfg.interval)
  {
    if j == n - 1 {
    } else {
      SmoothPassWarms(p, db, uris, turns, n - 1, at, j);
    }
    var t := Pass(p, db, uris, turns, n - 1);
    SmoothVisitWarms(p, Look(t.db, KeyOf(p, uris[n - 1])), turns(n - 1), at);
  }

  lemma {:induction false} WarmPassOnlyHits(p: Setup, db: Db, uris: seq<string>, turns: nat -> Turn, n: nat, at: int)
    requires n <= |uris|
    requires forall i: nat :: i < n ==> !turns(i).ttlFails && turns(i).ttlAt == at
    requires forall i :: 0 <= i < |uris| ==> Warm(Look(db, KeyOf(p, uris[i])), at, p.cfg.interval)
    ensures Pass(p, db, uris, turns, n) == Tally(db, n, 0, 0)
  {
    if n == 0 {
    } else {
      WarmPassOnlyHits(p, db, uris, turns, n - 1, at);
      var k := KeyOf(p, uris[n - 1]);
      assert Warm(Look(db, k), at, p.cfg.interval);
      assert db[k := db[k]] == db;
    }
  }

  /** If nothing fails, the clock stands still and MinTTL in whole seconds exceeds the
      interval, the next pass, over the references the trim left, fetches nothing:
      each of its URIs is a hit and the store is untouched. */
  lemma SecondPassFetchesNothing(p: Setup, db: Db, ranked: seq<string>, turns: nat -> Turn, again: nat -> Turn, at: int)
    requires Configured(p.cfg) && Outlasts(p.cfg)
    requires forall i: nat :: Smooth(turns(i), at)
    requires forall i: nat :: !again(i).ttlFails && again(i).ttlAt == at
    ensures
      var first := Newest(ranked, p.cfg.topN);
      var next := Newest(Trimmed(ranked, REFS_KEEP_BOUND), p.cfg.topN);
      var db' := Pass(p, db, first, turns, |first|).db;
      Pass(p, db', next, again, |next|) == Tally(db', |next|, 0, 0)
  {
    var first := Newest(ranked, p.cfg.topN);
    var next := Newest(Trimmed(ranked, REFS_KEEP_BOUND), p.cfg.topN);
    var db' := Pass(p, db, first, turns, |first|).db;
    TrimThenTop(ranked, REFS_KEEP_BOUND, p.cfg.topN);
    forall i | 0 <= i < |next| ensures Warm(Look(db', KeyOf(p, next[i])), at, p.cfg.interval) {
      assert i < |first|;
      NewestIs(ranked, Least(p.cfg.topN, REFS_KEEP_BOUND));
      NewestIs(ranked, p.cfg.topN);
      assert next[i] == first[i];
      SmoothPassWarms(p, db, first, turns, |first|, at, i);
    }
    WarmPassOnlyHits(p, db', next, again, |next|, at);
  }

  /** The pass's own trim never changes what the next pass lists while TopN is at most
      the bound. */
  lemma TrimKeepsNextList(ranked: seq<string>, topN: int)
    ensures topN <= 1000 ==> Newest(Trimmed(ranked, REFS_KEEP_BOUND), topN) == Newest(ranked, topN)
    ensures |Trimmed(ranked, REFS_KEEP_BOUND)| <= 1000
  {
    TrimThenTop(ranked, REFS_KEEP_BOUND, topN);
    TrimRemovesLowest(ranked, REFS_KEEP_BOUND);
  }

  class Prefetcher {
    const setup: Setup
    const store: Store
    const refs: RankedSet
    var hits: nat
    var refreshed: nat
    var errors: nat

    constructor (setup: Setup, store: Store, refs: RankedSet)
      ensures this.setup == setup && this.store == store && this.refs == refs
      ensures hits == 0 && refreshed == 0 && errors == 0
    {
      this.setup, this.store, this.refs := setup, store, refs;
      hits, refreshed, errors := 0, 0, 0;
    }

    /** One pass. A failed listing changes nothing; otherwise the store ends as the
        pass over the newest TopN leaves it, each URI is counted once, and the
        references are trimmed unless that request fails, which is not an error. */
    method Run(turns: nat -> Turn, listFails: bool, trimFails: bool) returns (ok: bool)
      modifies this, store.server, refs
      ensures ok <==> setup.cfg.topN <= 0 || !listFails
      ensures setup.cfg.topN <= 0 || listFails ==>
        hits == old(hits) && refreshed == old(refreshed) && errors == old(errors)
        && store.server.db == old(store.server.db) && refs.ranked == old(refs.ranked)
      ensures setup.cfg.topN > 0 && !listFails ==>
        var uris := Newest(old(refs.ranked), setup.cfg.topN);
        var t := Pass(setup, old(store.server.db), uris, turns, |uris|);
        && store.server.db == t.db
        && hits == old(hits) + t.hits && refreshed == old(refreshed) + t.refreshed && errors == old(errors) + t.errors
        && hits + refreshed + errors == old(hits + refreshed + errors) + |uris|
        && refs.ranked == (if trimFails then old(refs.ranked) else Trimmed(old(refs.ranked), REFS_KEEP_BOUND))
      ensures setup.cfg.topN > 0 && !listFails && !trimFails ==>
        var len := |old(refs.ranked)|;
        refs.ranked == old(refs.ranked)[if len > 1000 then len - 1000 else 0..]
    {
      if setup.cfg.topN <= 0 {
        return true;
      }
      var listed := refs.TopStatusRefs(setup.cfg.topN, listFails);
      if listed.Err? {
        return false;
      }
      Sweep(listed.value, turns);
      TrimRemovesLowest(refs.ranked, REFS_KEEP_BOUND);
      var _ := refs.TrimStatusRefs(REFS_KEEP_BOUND, trimFails);
      return true;
    }

    /** The loop of a pass. */
    method Sweep(uris: seq<string>, turns: nat -> Turn)
      modifies this, store.server
      ensures var t := Pass(setup, old(store.server.db), uris, turns, |uris|);
        && store.server.db == t.db
        && hits == old(hits) + t.hits && refreshed == old(refreshed) + t.refreshed && errors == old(errors) + t.errors
        && t.hits + t.refreshed + t.errors == |uris|
    {
      ghost var db := store.server.db;
      var i := 0;
      while i < |uris|
        invariant 0 <= i <= |uris|
        invariant var t := Pass(setup, db, uris, turns, i);
          && store.server.db == t.db
          && hits == old(hits) + t.hits && refreshed == old(refreshed) + t.refreshed && errors == old(errors) + t.errors
      {
        Attend(uris[i], turns(i));
        i := i + 1;
      }
      EveryURIIsCounted(setup, db, uris, turns, |uris|);
    }

    /** One URI of the pass. */
    method Attend(uri: string, turn: Turn)
      modifies this, store.server
      ensures var k := KeyOf(setup, uri);
        var v := VisitCell(setup, Look(old(store.server.db), k), turn);
        && store.server.db == Put(old(store.server.db), k, v.0)
        && hits == old(hits) + (if v.1.Hit? then 1 else 0)
        && refreshed == old(refreshed) + (if v.1.Refreshed? then 1 else 0)
        && errors == old(errors) + (if v.1.Failure? then 1 else 0)
    {
      var key := KeyOf(setup, uri);
      ghost var db := store.server.db;
      assert key in db ==> db[key := db[key]] == db;
      var ttl := store.GetTTL(key, turn.ttlAt, turn.ttlFails);
      if ttl.Err? {
        errors := errors + 1;
        return;
      }
      if ttl.value.Some? && ttl.value.value > setup.cfg.interval {
        hits := hits + 1;
        return;
      }
      if turn.body.None? {
        errors := errors + 1;
        return;
      }
      var peeked := Peek(setup.codec, turn.body.value, setup.cfg.dflt, turn.nowAt);
      var life := Clamp(peeked, setup.cfg.minTTL, setup.cfg.maxTTL);
      var ok := store.SetBytes(key, turn.body.value, life, turn.setAt, turn.outcome);
      if !ok {
        errors := errors + 1;
        return;
      }
      refreshed := refreshed + 1;
    }
  }
}
