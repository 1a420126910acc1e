/** The write side of the cache: requests to the shared server, and the two
    per-type operations built from them. */
module Store {
  import opened Wrappers
  import opened Ordering
  import opened Keys
  import opened Cache
  import opened Grouping
  import opened Materialize

  /** When and how the requests of one store call reach the server. */
  datatype Trip = Trip(
    indexAt: int, indexFails: bool,
    entryAt: nat -> int, entryFails: nat -> bool,
    execAt: int, outcome: Outcome)

  datatype SwapRequest = SwapRequest(
    kind: string, etag: string, entries: seq<Entry>, freshness: TypeFreshness, ttl: int)

  /** A request's slice of the keyspace after an EXEC with a given outcome. */
  function Settle(s: Slice, s': Slice, o: Outcome): (Slice, bool) {
    match o
    case Committed => (s', true)
    case CommittedUnacknowledged => (s', false)
    case Lost => (s, false)
  }

  /** One swap as the type's keys see it: the new keys, and whether the caller was told of success. */
  ghost function SwapSpec(s: Slice, m: Material, ttl: int, w: Trip): (Slice, bool) {
    if w.indexFails then (s, false)
    else
      match ReadIndex(s, w.indexAt)
      case Err => (s, false)
      case Ok(prev) => Settle(s, SwapEffect(s, prev, m, ttl / SECOND, w.execAt), w.outcome)
  }

  /** The entries patched by the first `n` turns of the refresh's reading loop. */
  function Patched(s: Slice, prev: seq<string>, n: nat, w: Trip, horizon: int): Result<map<string, Entry>>
    requires n <= |prev|
  {
    if n == 0 then Ok(map[])
    else
      match Patched(s, prev, n - 1, w, horizon)
      case Err => Err
      case Ok(got) => if w.entryFails(n - 1) then Err else PatchOne(s, prev[n - 1], got, w.entryAt(n - 1), horizon)
  }

  lemma {:induction false} PatchedStops(s: Slice, prev: seq<string>, n: nat, m: nat, w: Trip, horizon: int)
    requires n <= m <= |prev|
    requires Patched(s, prev, n, w, horizon).Err?
    ensures Patched(s, prev, m, w, horizon).Err?
  {
    if n == m {
    } else {
      PatchedStops(s, prev, n, m - 1, w, horizon);
    }
  }

  predicate EntryReadable(s: Slice, t: string, at: int) {
    Live(s, Territory(t), at) ==> s[Territory(t)].value.EntryV?
  }

  /** The first n reads of a refresh go through. */
  predicate ReadsGoThrough(s: Slice, prev: seq<string>, n: nat, w: Trip)
    requires n <= |prev|
  {
    forall i: nat :: i < n ==> !w.entryFails(i) && EntryReadable(s, prev[i], w.entryAt(i))
  }

  lemma {:induction false} PatchedOkIff(s: Slice, prev: seq<string>, n: nat, w: Trip, horizon: int)
    requires n <= |prev|
    ensures Patched(s, prev, n, w, horizon).Ok? <==> ReadsGoThrough(s, prev, n, w)
  {
    if n == 0 {
    } else {
      PatchedOkIff(s, prev, n - 1, w, horizon);
      assert ReadsGoThrough(s, prev, n, w) <==>
        ReadsGoThrough(s, prev, n - 1, w) && !w.entryFails(n - 1) && EntryReadable(s, prev[n - 1], w.entryAt(n - 1));
    }
  }

  /** An entry found live on its turn is patched with the new horizon. */
  lemma {:induction false} PatchedHas(s: Slice, prev: seq<string>, n: nat, w: Trip, horizon: int, i: nat)
    requires i < n <= |prev| && Patched(s, prev, n, w, horizon).Ok?
    requires Live(s, Territory(prev[i]), w.entryAt(i)) && s[Territory(prev[i])].value.EntryV?
    ensures prev[i] in Patched(s, prev, n, w, horizon).value
    ensures Patched(s, prev, n, w, horizon).value[prev[i]]
      == s[Territory(prev[i])].value.entry.(validUntil := horizon)
  {
    if i == n - 1 {
    } else {
      PatchedHas(s, prev, n - 1, w, horizon, i);
    }
  }

  /** Nothing is patched but what was found live on one of its turns. */
  lemma {:induction false} PatchedOnly(s: Slice, prev: seq<string>, n: nat, w: Trip, horizon: int, t: string)
    requires n <= |prev| && Patched(s, prev, n, w, horizon).Ok? && t in Patched(s, prev, n, w, horizon).value
    ensures exists i: nat :: i < n && prev[i] == t && Live(s, Territory(t), w.entryAt(i))
  {
    if n == 0 {
    } else if t in Patched(s, prev, n - 1, w, horizon).value {
      PatchedOnly(s, prev, n - 1, w, horizon, t);
    }
  }

  ghost function RefreshSpec(s: Slice, fr: TypeFreshness, ttl: int, w: Trip): (Slice, bool) {
    if w.indexFails then (s, false)
    else
      match ReadIndex(s, w.indexAt)
      case Err => (s, false)
      case Ok(prev) =>
        match Patched(s, prev, |prev|, w, fr.validUntil)
        case Err => (s, false)
        case Ok(got) => Settle(s, RefreshEffect(s, prev, got, fr, ttl / SECOND, w.execAt), w.outcome)
  }

  const MILLISECOND: int := 1_000_000

  function TimeLeft(cell: Option<Cell>, at: int): Option<int> {
    if cell.Some? && at < cell.value.deadline then
      Some((cell.value.deadline - at) / MILLISECOND * MILLISECOND)
    else None
  }

  /** What is left is known to the millisecond, rounded down. */
  lemma TimeLeftMeans(cell: Option<Cell>, at: int)
    ensures TimeLeft(cell, at).Some? <==> cell.Some? && at < cell.value.deadline
    ensures TimeLeft(cell, at).Some? ==>
      TimeLeft(cell, at).value <= cell.value.deadline - at < TimeLeft(cell, at).value + 1_000_000
      && TimeLeft(cell, at).value % 1_000_000 == 0
  {
  }

  /** The shared keyspace. */
  class Server {
    var db: Db

    constructor ()
      ensures db == map[]
    {
      db := map[];
    }

    /** MULTI … EXEC: all queued commands take effect together or not at all, and a
        failed reply says nothing about which. */
    method Transact(cmds: seq<Command<Key>>, at: int, outcome: Outcome) returns (ok: bool)
      modifies this
      ensures ok <==> outcome == Committed
      ensures db == if outcome == Lost then old(db) else Exec(old(db), cmds, at)
    {
      if outcome != Lost {
        db := Exec(db, cmds, at);
      }
      ok := outcome == Committed;
    }

    /** One command outside any transaction. */
    method Send(cmd: Command<Key>, at: int, outcome: Outcome) returns (ok: bool)
      modifies this
      ensures ok <==> outcome == Committed
      ensures db == if outcome == Lost then old(db) else Perform(old(db), cmd, at)
    {
      if outcome != Lost {
        db := Perform(db, cmd, at);
      }
      ok := outcome == Committed;
    }
  }

  class Store {
    const server: Server

    constructor (server: Server)
      ensures this.server == server
    {
      this.server := server;
    }

    /** The current territory index; an absent key reads as the empty list. */
    method TerritoryIndex(kind: string, at: int, fails: bool) returns (r: Result<seq<string>>)
      ensures r == if fails then Err else ReadIndex(SliceOf(server.db, kind), at)
      ensures !fails && !Live(server.db, Typed(kind, Index), at) ==> r == Ok([])
      ensures !fails && Live(server.db, Typed(kind, Index), at) ==>
        (if server.db[Typed(kind, Index)].value.IndexV? then
           r == Ok(server.db[Typed(kind, Index)].value.territories)
         else r == Err)
    {
      if fails {
        return Err;
      }
      match Get(server.db, Typed(kind, Index), at)
      case None => r := Ok([]);
      case Some(IndexV(l)) => r := Ok(l);
      case Some(_) => r := Err;
    }

    /** The queued swap: deletions of vanished territories, then every SET. */
    method QueueSwap(sw: SwapRequest, prev: seq<string>) returns (cmds: seq<Command<Key>>)
      ensures cmds == SwapCommands(sw.kind, prev, sw.entries, sw.etag, sw.freshness, sw.ttl / SECOND)
    {
      var secs := sw.ttl / SECOND;
      var next: seq<string>, nextSet: set<string> := [], {};
      var i := 0;
      while i < |sw.entries|
        invariant 0 <= i <= |sw.entries|
        invariant next == TerritoriesOf(sw.entries)[..i]
        invariant nextSet == Elements(next)
      {
        nextSet := nextSet + {sw.entries[i].territory};
        next := next + [sw.entries[i].territory];
        i := i + 1;
      }
      assert next == TerritoriesOf(sw.entries);
      var sorted := Sort(next);
      cmds := [];
      i := 0;
      while i < |prev|
        invariant 0 <= i <= |prev|
        invariant cmds == Dels(sw.kind, prev[..i], nextSet)
      {
        assert prev[..i + 1][..i] == prev[..i];
        if prev[i] !in nextSet {
          cmds := cmds + [Del(Typed(sw.kind, Territory(prev[i])))];
        }
        i := i + 1;
      }
      assert prev[..i] == prev;
      var sets := QueueEntries(sw.kind, sw.entries, secs);
      cmds := cmds + sets + SwapTail(sw.kind, sorted, sw.etag, sw.freshness, secs);
    }

    method QueueEntries(kind: string, entries: seq<Entry>, secs: int) returns (cmds: seq<Command<Key>>)
      ensures cmds == EntrySets(kind, entries, secs)
    {
      cmds := [];
      var i := 0;
      while i < |entries|
        invariant 0 <= i <= |entries|
        invariant cmds == EntrySets(kind, entries, secs)[..i]
      {
        cmds := cmds + [EntrySet(kind, entries[i], secs)];
        i := i + 1;
      }
    }

    method SwapAnchorType(sw: SwapRequest, w: Trip) returns (ok: bool)
      requires Distinct(TerritoriesOf(sw.entries))
      modifies server
      ensures var s := old(SliceOf(server.db, sw.kind));
        var r := SwapSpec(s, Material(sw.etag, EntryMap(sw.entries), sw.freshness), sw.ttl, w);
        SliceOf(server.db, sw.kind) == r.0 && ok == r.1
      ensures OthersKept(old(server.db), server.db, sw.kind)
    {
      var index := TerritoryIndex(sw.kind, w.indexAt, w.indexFails);
      if index.Err? {
        return false;
      }
      ok := CommitSwap(sw, index.value, w.execAt, w.outcome);
    }

    /** The transaction of a swap, whatever index was read. */
    method CommitSwap(sw: SwapRequest, prev: seq<string>, at: int, outcome: Outcome) returns (ok: bool)
      requires Distinct(TerritoriesOf(sw.entries))
      modifies server
      ensures var s := old(SliceOf(server.db, sw.kind));
        var m := Material(sw.etag, EntryMap(sw.entries), sw.freshness);
        (SliceOf(server.db, sw.kind), ok) == Settle(s, SwapEffect(s, prev, m, sw.ttl / SECOND, at), outcome)
      ensures OthersKept(old(server.db), server.db, sw.kind)
    {
      var cmds := QueueSwap(sw, prev);
      SwapCommandsEffect(server.db, sw.kind, prev, sw.entries, sw.etag, sw.freshness, sw.ttl / SECOND, at);
      ok := server.Transact(cmds, at, outcome);
    }

    /** The queued refresh: SET what was read, EXPIRE what had vanished. */
    method QueueRefresh(kind: string, prev: seq<string>, patched: map<string, Entry>, fr: TypeFreshness, secs: int)
      returns (cmds: seq<Command<Key>>)
      ensures cmds == RefreshCommands(kind, prev, patched, fr, secs)
    {
      cmds := [];
      var i := 0;
      while i < |prev|
        invariant 0 <= i <= |prev|
        invariant cmds == RefreshEntryCommands(kind, prev, patched, secs)[..i]
      {
        cmds := cmds + [RefreshEntryCommand(kind, prev[i], patched, secs)];
        i := i + 1;
      }
      cmds := cmds + RefreshTail(kind, fr, secs);
    }

    /** The read-and-patch loop: a key found absent is left out, an unreadable one aborts. */
    method ReadEntries(kind: string, prev: seq<string>, w: Trip, horizon: int) returns (r: Result<map<string, Entry>>)
      ensures r == Patched(SliceOf(server.db, kind), prev, |prev|, w, horizon)
      ensures r.Ok? ==> r.value.Keys <= Elements(prev)
    {
      ghost var s := SliceOf(server.db, kind);
      var patched: map<string, Entry> := map[];
      var i := 0;
      while i < |prev|
        invariant 0 <= i <= |prev|
        invariant Patched(s, prev, i, w, horizon) == Ok(patched)
        invariant patched.Keys <= Elements(prev)
      {
        var turn :=
          if w.entryFails(i) then Err
          else PatchOne(SliceOf(server.db, kind), prev[i], patched, w.entryAt(i), horizon);
        if turn.Err? {
          PatchedStops(s, prev, i + 1, |prev|, w, horizon);
          return Err;
        }
        patched := turn.value;
        i := i + 1;
      }
      return Ok(patched);
    }

    method RefreshAnchorType(kind: string, fr: TypeFreshness, ttl: int, w: Trip) returns (ok: bool)
      requires ttl >= SECOND
      modifies server
      ensures var r := RefreshSpec(old(SliceOf(server.db, kind)), fr, ttl, w);
        SliceOf(server.db, kind) == r.0 && ok == r.1
      ensures OthersKept(old(server.db), server.db, kind)
    {
      var index := TerritoryIndex(kind, w.indexAt, w.indexFails);
      if index.Err? {
        return false;
      }
      var patched := ReadEntries(kind, index.value, w, fr.validUntil);
      if patched.Err? {
        return false;
      }
      ok := CommitRefresh(kind, index.value, patched.value, fr, ttl / SECOND, w.execAt, w.outcome);
    }

    /** The transaction of a refresh, whatever was read. */
    method CommitRefresh(
        kind: string, prev: seq<string>, patched: map<string, Entry>, fr: TypeFreshness,
        secs: int, at: int, outcome: Outcome)
      returns (ok: bool)
      requires secs > 0 && patched.Keys <= Elements(prev)
      modifies server
      ensures var s := old(SliceOf(server.db, kind));
        (SliceOf(server.db, kind), ok) == Settle(s, RefreshEffect(s, prev, patched, fr, secs, at), outcome)
      ensures OthersKept(old(server.db), server.db, kind)
    {
      var cmds := QueueRefresh(kind, prev, patched, fr, secs);
      RefreshCommandsEffect(server.db, kind, prev, patched, fr, secs, at);
      ok := server.Transact(cmds, at, outcome);
    }

    /** Time a key has left, in whole milliseconds; none when it is absent or expired. */
    method GetTTL(key: Key, at: int, fails: bool) returns (r: Result<Option<int>>)
      ensures r == if fails then Err else Ok(TimeLeft(Look(server.db, key), at))
      ensures !fails ==> (r.value.Some? <==> Live(server.db, key, at))
      ensures !fails && r.value.Some? ==> r.value.value <= server.db[key].deadline - at < r.value.value + 1_000_000
    {
      if fails {
        return Err;
      }
      if !Live(server.db, key, at) {
        return Ok(None);
      }
      var millis := (server.db[key].deadline - at) / MILLISECOND;
      return Ok(Some(millis * MILLISECOND));
    }

    /** Every key must expire: a lifetime below one second is refused, by this method
        when it is not positive and by the server when it truncates to zero seconds. */
    method SetBytes(key: Key, val: seq<bv8>, ttl: int, at: int, outcome: Outcome) returns (ok: bool)
      modifies server
      ensures ok <==> ttl >= SECOND && outcome == Committed
      ensures server.db == if ttl < SECOND || outcome == Lost then old(server.db)
        else old(server.db)[key := Cell(RawV(val), at + ttl / SECOND * SECOND)]
    {
      if ttl <= 0 {
        return false;
      }
      var secs := ttl / SECOND;
      if secs == 0 {
        return false;
      }
      ok := server.Send(Set(key, RawV(val), secs), at, outcome);
    }
  }
}
