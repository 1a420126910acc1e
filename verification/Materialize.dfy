/** What a swap and a refresh do to one anchor type's keys: the closed forms, the
    command lists that realize them, and the reads made outside the transaction. */
module Materialize {
  import opened Wrappers
  import opened Ordering
  import opened Keys
  import opened Cache
  import opened Grouping

  /** One snapshot's materialization: entries by territory, strong ETag, freshness. */
  datatype Material = Material(etag: string, entries: map<string, Entry>, freshness: TypeFreshness)

  /** How EXEC ended, as the server and as the caller see it. */
  datatype Outcome = Committed | CommittedUnacknowledged | Lost

  function ReadIndex(s: Slice, at: int): Result<seq<string>> {
    match Get(s, Index, at)
    case None => Ok([])
    case Some(IndexV(l)) => Ok(l)
    case Some(_) => Err
  }

  function ReadEntry(s: Slice, t: string, at: int): Result<Option<Entry>> {
    match Get(s, Territory(t), at)
    case None => Ok(None)
    case Some(EntryV(e)) => Ok(Some(e))
    case Some(_) => Err
  }

  /** One turn of the refresh's read-and-patch loop. */
  function PatchOne(s: Slice, t: string, got: map<string, Entry>, at: int, horizon: int): Result<map<string, Entry>> {
    match ReadEntry(s, t, at)
    case Err => Err
    case Ok(None) => Ok(got)
    case Ok(Some(e)) => Ok(got[t := e.(validUntil := horizon)])
  }

  // ---- swap -----------------------------------------------------------------

  ghost function SwapCell(s: Slice, prev: seq<string>, m: Material, secs: int, at: int, p: Part): Option<Cell> {
    var deadline := at + secs * SECOND;
    match p
    case Territory(t) =>
      if t in m.entries then Some(Cell(EntryV(m.entries[t]), deadline))
      else if t in prev then None
      else Look(s, p)
    case Index => Some(Cell(IndexV(SortedOf(m.entries.Keys)), deadline))
    case ETag => Some(Cell(TextV(m.etag), deadline))
    case Freshness => Some(Cell(FreshV(m.freshness), deadline))
  }

  ghost function Touched(s: Slice, named: set<string>): set<Part> {
    s.Keys + (set t | t in named :: Territory(t)) + {Index, ETag, Freshness}
  }

  ghost function SwapEffect(s: Slice, prev: seq<string>, m: Material, secs: int, at: int): (r: Slice)
    ensures forall p :: Look(r, p) == SwapCell(s, prev, m, secs, at, p)
  {
    map p | p in Touched(s, m.entries.Keys) && SwapCell(s, prev, m, secs, at, p).Some?
      :: SwapCell(s, prev, m, secs, at, p).value
  }

  // ---- refresh --------------------------------------------------------------

  function RefreshCell(
      s: Slice, prev: seq<string>, got: map<string, Entry>, fr: TypeFreshness,
      secs: int, at: int, p: Part): Option<Cell> {
    match p
    case Territory(t) =>
      if t !in prev then Look(s, p)
      else if t in got then Some(Cell(EntryV(got[t]), at + secs * SECOND))
      else CellAfter(Look(s, p), Expire(p, secs), at)
    case Freshness => Some(Cell(FreshV(fr), at + secs * SECOND))
    case _ => CellAfter(Look(s, p), Expire(p, secs), at)
  }

  ghost function RefreshEffect(
      s: Slice, prev: seq<string>, got: map<string, Entry>, fr: TypeFreshness,
      secs: int, at: int): (r: Slice)
    ensures forall p :: Look(r, p) == RefreshCell(s, prev, got, fr, secs, at, p)
  {
    map p | p in Touched(s, got.Keys) && RefreshCell(s, prev, got, fr, secs, at, p).Some?
      :: RefreshCell(s, prev, got, fr, secs, at, p).value
  }

  /** What a refresh leaves of each key: what was read is rewritten, a listed key that
      was not read keeps its value and, if it lives, gets the new deadline, and so do
      index and etag; a dead key stays dead, and an unlisted one as it was. */
  lemma RefreshMeans(
      s: Slice, prev: seq<string>, got: map<string, Entry>, fr: TypeFreshness, secs: int, at: int, p: Part)
    ensures var r, deadline := RefreshEffect(s, prev, got, fr, secs, at), at + secs * SECOND;
      && (p.Territory? && p.name in prev && p.name in got ==> Look(r, p) == Some(Cell(EntryV(got[p.name]), deadline)))
      && (p.Territory? && p.name !in prev ==> Look(r, p) == Look(s, p))
      && (p == Freshness ==> Look(r, p) == Some(Cell(FreshV(fr), deadline)))
      && (p == Index || p == ETag || (p.Territory? && p.name in prev && p.name !in got) ==>
            Look(r, p) == if Live(s, p, at) then Some(Cell(s[p].value, deadline)) else Look(s, p))
  {
  }

  // ---- command lists --------------------------------------------------------

  function Dels(kind: string, prev: seq<string>, next: set<string>): seq<Command<Key>> {
    if prev == [] then []
    else
      var front, t := Dels(kind, prev[..|prev| - 1], next), prev[|prev| - 1];
      if t in next then front else front + [Del(Typed(kind, Territory(t)))]
  }

  function EntrySet(kind: string, e: Entry, secs: int): Command<Key> {
    Set(Typed(kind, Territory(e.territory)), EntryV(e), secs)
  }

  function EntrySets(kind: string, entries: seq<Entry>, secs: int): (r: seq<Command<Key>>)
    ensures |r| == |entries|
    ensures forall i :: 0 <= i < |r| ==> r[i] == EntrySet(kind, entries[i], secs)
  {
    seq(|entries|, i requires 0 <= i < |entries| => EntrySet(kind, entries[i], secs))
  }

  function SwapTail(kind: string, index: seq<string>, etag: string, fr: TypeFreshness, secs: int): seq<Command<Key>> {
    [Set(Typed(kind, Index), IndexV(index), secs),
     Set(Typed(kind, ETag), TextV(etag), secs),
     Set(Typed(kind, Freshness), FreshV(fr), secs)]
  }

  function SwapCommands(
      kind: string, prev: seq<string>, entries: seq<Entry>, etag: string, fr: TypeFreshness, secs: int)
    : seq<Command<Key>>
  {
    Dels(kind, prev, Elements(TerritoriesOf(entries)))
    + EntrySets(kind, entries, secs)
    + SwapTail(kind, Sort(TerritoriesOf(entries)), etag, fr, secs)
  }

  function RefreshEntryCommand(kind: string, t: string, got: map<string, Entry>, secs: int): Command<Key> {
    var key := Typed(kind, Territory(t));
    if t in got then Set(key, EntryV(got[t]), secs) else Expire(key, secs)
  }

  function RefreshEntryCommands(kind: string, prev: seq<string>, got: map<string, Entry>, secs: int)
    : (r: seq<Command<Key>>)
    ensures |r| == |prev|
    ensures forall i :: 0 <= i < |r| ==> r[i] == RefreshEntryCommand(kind, prev[i], got, secs)
  {
    seq(|prev|, i requires 0 <= i < |prev| => RefreshEntryCommand(kind, prev[i], got, secs))
  }

  function RefreshTail(kind: string, fr: TypeFreshness, secs: int): seq<Command<Key>> {
    [Expire(Typed(kind, Index), secs),
     Expire(Typed(kind, ETag), secs),
     Set(Typed(kind, Freshness), FreshV(fr), secs)]
  }

  function RefreshCommands(kind: string, prev: seq<string>, got: map<string, Entry>, fr: TypeFreshness, secs: int)
    : seq<Command<Key>>
  {
    RefreshEntryCommands(kind, prev, got, secs) + RefreshTail(kind, fr, secs)
  }

  lemma {:induction false} DelsMembers(kind: string, prev: seq<string>, next: set<string>, c: Command<Key>)
    ensures c in Dels(kind, prev, next) <==>
      c.Del? && c.key.Typed? && c.key.kind == kind && c.key.part.Territory?
      && c.key.part.name in prev && c.key.part.name !in next
  {
    if prev == [] {
    } else {
      var front, t := prev[..|prev| - 1], prev[|prev| - 1];
      DelsMembers(kind, front, next, c);
      assert forall x :: x in prev <==> x in front || x == t;
    }
  }

  /** The queued swap does exactly what its closed form says, in whatever order the
      entries were listed, and touches no other type's keys. */
  lemma SwapCommandsEffect(
      db: Db, kind: string, prev: seq<string>, entries: seq<Entry>, etag: string, fr: TypeFreshness, secs: int, at: int)
    requires Distinct(TerritoriesOf(entries))
    ensures var db' := Exec(db, SwapCommands(kind, prev, entries, etag, fr, secs), at);
      && SliceOf(db', kind) == SwapEffect(SliceOf(db, kind), prev, Material(etag, EntryMap(entries), fr), secs, at)
      && OthersKept(db, db', kind)
  {
    var cmds := SwapCommands(kind, prev, entries, etag, fr, secs);
    var m := Material(etag, EntryMap(entries), fr);
    SwapOwnsItsKeys(kind, prev, entries, etag, fr, secs);
    ExecKeepsOthers(db, cmds, at, kind);
    var s, s' := SliceOf(db, kind), SliceOf(Exec(db, cmds, at), kind);
    forall p ensures Look(s', p) == SwapCell(s, prev, m, secs, at, p) {
      SwapAt(db, kind, prev, entries, etag, fr, secs, at, p);
    }
    SameMap(s', SwapEffect(s, prev, m, secs, at));
  }

  lemma SwapOwnsItsKeys(
      kind: string, prev: seq<string>, entries: seq<Entry>, etag: string, fr: TypeFreshness, secs: int)
    ensures forall c :: c in SwapCommands(kind, prev, entries, etag, fr, secs) ==> Owns(kind, c.key)
  {
    var dels := Dels(kind, prev, Elements(TerritoriesOf(entries)));
    forall c | c in dels ensures Owns(kind, c.key) {
      DelsMembers(kind, prev, Elements(TerritoriesOf(entries)), c);
    }
    TailOwnsItsKeys(kind, Sort(TerritoriesOf(entries)), etag, fr, secs);
    var sets, tail := EntrySets(kind, entries, secs), SwapTail(kind, Sort(TerritoriesOf(entries)), etag, fr, secs);
    assert forall c :: c in dels + sets + tail <==> c in dels || c in sets || c in tail;
  }

  lemma TailOwnsItsKeys(kind: string, index: seq<string>, etag: string, fr: TypeFreshness, secs: int)
    ensures forall c :: c in SwapTail(kind, index, etag, fr, secs) ==> Owns(kind, c.key)
  {
  }

  /** The encoded index depends only on which territories the entries cover. */
  lemma IndexIsCanonical(entries: seq<Entry>)
    requires Distinct(TerritoriesOf(entries))
    ensures Sort(TerritoriesOf(entries)) == SortedOf(EntryMap(entries).Keys)
  {
    EntryMapMembers(entries);
    SortIsCanonical(TerritoriesOf(entries));
  }

  lemma SwapAt(
      db: Db, kind: string, prev: seq<string>, entries: seq<Entry>, etag: string, fr: TypeFreshness,
      secs: int, at: int, p: Part)
    requires Distinct(TerritoriesOf(entries))
    ensures Look(Exec(db, SwapCommands(kind, prev, entries, etag, fr, secs), at), Typed(kind, p))
      == SwapCell(SliceOf(db, kind), prev, Material(etag, EntryMap(entries), fr), secs, at, p)
  {
    match p
    case Territory(t) => SwapTerritory(db, kind, prev, entries, etag, fr, secs, at, t);
    case Index => SwapIndex(db, kind, prev, entries, etag, fr, secs, at);
    case _ => SwapPlain(db, kind, prev, entries, etag, fr, secs, at);
  }

  lemma SwapIndex(
      db: Db, kind: string, prev: seq<string>, entries: seq<Entry>, etag: string, fr: TypeFreshness, secs: int, at: int)
    requires Distinct(TerritoriesOf(entries))
    ensures Look(Exec(db, SwapCommands(kind, prev, entries, etag, fr, secs), at), Typed(kind, Index))
      == Some(Cell(IndexV(SortedOf(EntryMap(entries).Keys)), at + secs * SECOND))
  {
    IndexIsCanonical(entries);
    var next, index := Elements(TerritoriesOf(entries)), Sort(TerritoriesOf(entries));
    IndexSet(db, kind, prev, next, entries, index, etag, fr, secs, at);
  }

  lemma IndexSet(
      db: Db, kind: string, prev: seq<string>, next: set<string>, entries: seq<Entry>, index: seq<string>,
      etag: string, fr: TypeFreshness, secs: int, at: int)
    ensures Look(
        Exec(db, Dels(kind, prev, next) + EntrySets(kind, entries, secs) + SwapTail(kind, index, etag, fr, secs), at),
        Typed(kind, Index))
      == Some(Cell(IndexV(index), at + secs * SECOND))
  {
    SwapOnce(db, kind, prev, next, entries, index, etag, fr, secs, at, 0);
  }

  lemma SwapPlain(
      db: Db, kind: string, prev: seq<string>, entries: seq<Entry>, etag: string, fr: TypeFreshness, secs: int, at: int)
    ensures var db' := Exec(db, SwapCommands(kind, prev, entries, etag, fr, secs), at);
      && Look(db', Typed(kind, ETag)) == Some(Cell(TextV(etag), at + secs * SECOND))
      && Look(db', Typed(kind, Freshness)) == Some(Cell(FreshV(fr), at + secs * SECOND))
  {
    var next, index := Elements(TerritoriesOf(entries)), Sort(TerritoriesOf(entries));
    SwapOnce(db, kind, prev, next, entries, index, etag, fr, secs, at, 1);
    SwapOnce(db, kind, prev, next, entries, index, etag, fr, secs, at, 2);
  }

  lemma SwapOnce(
      db: Db, kind: string, prev: seq<string>, next: set<string>, entries: seq<Entry>, index: seq<string>,
      etag: string, fr: TypeFreshness, secs: int, at: int, i: nat)
    requires i < 3
    ensures var c := SwapTail(kind, index, etag, fr, secs)[i];
      Look(
        Exec(db, Dels(kind, prev, next) + EntrySets(kind, entries, secs) + SwapTail(kind, index, etag, fr, secs), at),
        c.key)
      == CellAfter(Look(db, c.key), c, at)
  {
    var front, tail := Dels(kind, prev, next) + EntrySets(kind, entries, secs), SwapTail(kind, index, etag, fr, secs);
    forall c | c in front ensures c.key != tail[i].key {
      DelsMembers(kind, prev, next, c);
    }
    assert tail[i] in front + tail;
    assert forall c :: c in tail && c.key == tail[i].key ==> c == tail[i];
    ExecUniform(db, front + tail, at, tail[i]);
  }

  /** Which command of a swap names a territory's key: its SET, its DEL, or none. */
  lemma SwapNames(
      kind: string, prev: seq<string>, entries: seq<Entry>, index: seq<string>, etag: string, fr: TypeFreshness,
      secs: int, c: Command<Key>)
    requires Distinct(TerritoriesOf(entries))
    requires c in Dels(kind, prev, Elements(TerritoriesOf(entries)))
      + EntrySets(kind, entries, secs) + SwapTail(kind, index, etag, fr, secs)
    requires c.key.Typed? && c.key.kind == kind && c.key.part.Territory?
    ensures var t := c.key.part.name;
      if t in EntryMap(entries) then c == Set(c.key, EntryV(EntryMap(entries)[t]), secs)
      else t in prev && c == Del(c.key)
  {
    EntryMapMembers(entries);
    DelsMembers(kind, prev, Elements(TerritoriesOf(entries)), c);
    if c in EntrySets(kind, entries, secs) {
      var i :| 0 <= i < |entries| && EntrySets(kind, entries, secs)[i] == c;
    }
  }

  lemma SwapTerritory(
      db: Db, kind: string, prev: seq<string>, entries: seq<Entry>, etag: string, fr: TypeFreshness,
      secs: int, at: int, t: string)
    requires Distinct(TerritoriesOf(entries))
    ensures Look(Exec(db, SwapCommands(kind, prev, entries, etag, fr, secs), at), Typed(kind, Territory(t)))
      == SwapCell(SliceOf(db, kind), prev, Material(etag, EntryMap(entries), fr), secs, at, Territory(t))
  {
    SwapTerritoryCell(db, kind, prev, entries, Sort(TerritoriesOf(entries)), etag, fr, secs, at, t);
  }

  lemma SwapTerritoryCell(
      db: Db, kind: string, prev: seq<string>, entries: seq<Entry>, index: seq<string>, etag: string, fr: TypeFreshness,
      secs: int, at: int, t: string)
    requires Distinct(TerritoriesOf(entries))
    ensures var key := Typed(kind, Territory(t));
      var cmds := Dels(kind, prev, Elements(TerritoriesOf(entries)))
        + EntrySets(kind, entries, secs) + SwapTail(kind, index, etag, fr, secs);
      Look(Exec(db, cmds, at), key)
      == if t in EntryMap(entries) then Some(Cell(EntryV(EntryMap(entries)[t]), at + secs * SECOND))
         else if t in prev then None else Look(db, key)
  {
    var key := Typed(kind, Territory(t));
    var cmds := Dels(kind, prev, Elements(TerritoriesOf(entries)))
      + EntrySets(kind, entries, secs) + SwapTail(kind, index, etag, fr, secs);
    forall c | c in cmds && c.key == key
      ensures if t in EntryMap(entries) then c == Set(key, EntryV(EntryMap(entries)[t]), secs)
        else t in prev && c == Del(key)
    {
      SwapNames(kind, prev, entries, index, etag, fr, secs, c);
    }
    if t in EntryMap(entries) {
      EntrySetQueued(kind, entries, secs, t);
    } else if t in prev {
      DelQueued(kind, prev, entries, t);
    }
    var v := if t in EntryMap(entries) then Some(EntryV(EntryMap(entries)[t])) else None;
    ExecAsNamed(db, cmds, at, key, v, t in prev, secs);
  }

  /** A key named only by one SET, or else only by one DEL, or by nothing. */
  lemma ExecAsNamed(db: Db, cmds: seq<Command<Key>>, at: int, key: Key, v: Option<Value>, dropped: bool, secs: int)
    requires forall c :: c in cmds && c.key == key ==>
      if v.Some? then c == Set(key, v.value, secs) else dropped && c == Del(key)
    requires v.Some? ==> Set(key, v.value, secs) in cmds
    requires v.None? && dropped ==> Del(key) in cmds
    ensures Look(Exec(db, cmds, at), key)
      == if v.Some? then Some(Cell(v.value, at + secs * SECOND)) else if dropped then None else Look(db, key)
  {
    if v.Some? {
      ExecUniform(db, cmds, at, Set(key, v.value, secs));
    } else if dropped {
      ExecUniform(db, cmds, at, Del(key));
    } else {
      ExecUntouched(db, cmds, at, key);
    }
  }

  lemma DelQueued(kind: string, prev: seq<string>, entries: seq<Entry>, t: string)
    requires Distinct(TerritoriesOf(entries)) && t in prev && t !in EntryMap(entries)
    ensures Del(Typed(kind, Territory(t))) in Dels(kind, prev, Elements(TerritoriesOf(entries)))
  {
    EntryMapMembers(entries);
    DelsMembers(kind, prev, Elements(TerritoriesOf(entries)), Del(Typed(kind, Territory(t))));
  }

  lemma EntrySetQueued(kind: string, entries: seq<Entry>, secs: int, t: string)
    requires Distinct(TerritoriesOf(entries)) && t in EntryMap(entries)
    ensures Set(Typed(kind, Territory(t)), EntryV(EntryMap(entries)[t]), secs) in EntrySets(kind, entries, secs)
  {
    EntryMapMembers(entries);
    var i :| 0 <= i < |entries| && TerritoriesOf(entries)[i] == t;
    assert EntrySets(kind, entries, secs)[i] == EntrySet(kind, entries[i], secs);
  }

  /** The queued refresh does exactly what its closed form says. */
  lemma RefreshCommandsEffect(
      db: Db, kind: string, prev: seq<string>, got: map<string, Entry>, fr: TypeFreshness, secs: int, at: int)
    requires secs > 0 && got.Keys <= Elements(prev)
    ensures var db' := Exec(db, RefreshCommands(kind, prev, got, fr, secs), at);
      && SliceOf(db', kind) == RefreshEffect(SliceOf(db, kind), prev, got, fr, secs, at)
      && OthersKept(db, db', kind)
  {
    var cmds := RefreshCommands(kind, prev, got, fr, secs);
    ExecKeepsOthers(db, cmds, at, kind);
    var s, s' := SliceOf(db, kind), SliceOf(Exec(db, cmds, at), kind);
    forall p ensures Look(s', p) == RefreshCell(s, prev, got, fr, secs, at, p) {
      RefreshAt(db, kind, prev, got, fr, secs, at, p);
    }
    SameMap(s', RefreshEffect(s, prev, got, fr, secs, at));
  }

  lemma RefreshAt(
      db: Db, kind: string, prev: seq<string>, got: map<string, Entry>, fr: TypeFreshness, secs: int, at: int, p: Part)
    requires secs > 0
    ensures Look(Exec(db, RefreshCommands(kind, prev, got, fr, secs), at), Typed(kind, p))
      == RefreshCell(SliceOf(db, kind), prev, got, fr, secs, at, p)
  {
    match p
    case Territory(t) => RefreshTerritory(db, kind, prev, got, fr, secs, at, t);
    case Index => RefreshTailEffect(db, kind, prev, got, fr, secs, at, 0);
    case ETag => RefreshTailEffect(db, kind, prev, got, fr, secs, at, 1);
    case Freshness => RefreshTailEffect(db, kind, prev, got, fr, secs, at, 2);
  }

  lemma RefreshTailEffect(
      db: Db, kind: string, prev: seq<string>, got: map<string, Entry>, fr: TypeFreshness, secs: int, at: int, i: nat)
    requires secs > 0 && i < 3
    ensures var c := RefreshTail(kind, fr, secs)[i];
      Look(Exec(db, RefreshCommands(kind, prev, got, fr, secs), at), c.key) == CellAfter(Look(db, c.key), c, at)
  {
    ExecUniform(db, RefreshCommands(kind, prev, got, fr, secs), at, RefreshTail(kind, fr, secs)[i]);
  }

  lemma RefreshTerritory(
      db: Db, kind: string, prev: seq<string>, got: map<string, Entry>, fr: TypeFreshness,
      secs: int, at: int, t: string)
    requires secs > 0
    ensures Look(Exec(db, RefreshCommands(kind, prev, got, fr, secs), at), Typed(kind, Territory(t)))
      == RefreshCell(SliceOf(db, kind), prev, got, fr, secs, at, Territory(t))
  {
    var cmds := RefreshCommands(kind, prev, got, fr, secs);
    var cmd := RefreshEntryCommand(kind, t, got, secs);
    RefreshNames(kind, prev, got, fr, secs, t);
    if t in prev {
      ExecUniform(db, cmds, at, cmd);
    } else {
      ExecUntouched(db, cmds, at, cmd.key);
    }
  }

  /** A refresh names a territory's key by one command, if the index lists it. */
  lemma RefreshNames(kind: string, prev: seq<string>, got: map<string, Entry>, fr: TypeFreshness, secs: int, t: string)
    ensures var cmds, cmd := RefreshCommands(kind, prev, got, fr, secs), RefreshEntryCommand(kind, t, got, secs);
      && (t in prev ==> cmd in cmds)
      && forall c :: c in cmds && c.key == cmd.key ==> c == cmd && t in prev
  {
    var entries, tail := RefreshEntryCommands(kind, prev, got, secs), RefreshTail(kind, fr, secs);
    var cmd := RefreshEntryCommand(kind, t, got, secs);
    forall c: Command<Key> | c in entries + tail && c.key == cmd.key ensures c == cmd && t in prev {
      var i :| 0 <= i < |prev| && entries[i] == c;
    }
    if t in prev {
      var i :| 0 <= i < |prev| && prev[i] == t;
      assert entries[i] == cmd;
    }
  }

  /** Whatever order a map walk lists the same entries in, the swap leaves the
      identical store, the encoded index included. */
  lemma SwapIgnoresEntryOrder(
      db: Db, kind: string, prev: seq<string>, a: seq<Entry>, b: seq<Entry>, etag: string, fr: TypeFreshness,
      secs: int, at: int)
    requires Distinct(TerritoriesOf(a))
    requires multiset(a) == multiset(b)
    ensures Exec(db, SwapCommands(kind, prev, a, etag, fr, secs), at)
      == Exec(db, SwapCommands(kind, prev, b, etag, fr, secs), at)
  {
    PermutedTerritories(a, b);
    SameMembers(a, b);
    EntryMapIgnoresOrder(a, b);
    SwapCommandsEffect(db, kind, prev, a, etag, fr, secs, at);
    SwapCommandsEffect(db, kind, prev, b, etag, fr, secs, at);
    var x := Exec(db, SwapCommands(kind, prev, a, etag, fr, secs), at);
    var y := Exec(db, SwapCommands(kind, prev, b, etag, fr, secs), at);
    forall k ensures Look(x, k) == Look(y, k) {
      if Owns(kind, k) {
        assert Look(SliceOf(x, kind), k.part) == Look(x, k);
        assert Look(SliceOf(y, kind), k.part) == Look(y, k);
      }
    }
    SameMap(x, y);
  }

  lemma PermutedTerritories(a: seq<Entry>, b: seq<Entry>)
    requires Distinct(TerritoriesOf(a)) && multiset(a) == multiset(b)
    ensures Distinct(TerritoriesOf(b))
  {
    forall i, j | 0 <= i < j < |a| ensures a[i] != a[j] {
      assert TerritoriesOf(a)[i] != TerritoriesOf(a)[j];
    }
    DistinctCount(a);
    DistinctFromCount(b);
    forall i, j | 0 <= i < j < |b| ensures TerritoriesOf(b)[i] != TerritoriesOf(b)[j] {
      assert b[i] in multiset(b) && b[j] in multiset(b);
      assert b[i] in multiset(a) && b[j] in multiset(a);
      var m :| 0 <= m < |a| && a[m] == b[i];
      var n :| 0 <= n < |a| && a[n] == b[j];
      assert TerritoriesOf(a)[m] != TerritoriesOf(a)[n];
    }
  }
}
