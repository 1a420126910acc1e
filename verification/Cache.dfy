/** The shared key/value server: cells that expire, and MULTI/EXEC command lists.
    Instants are nanoseconds on the one monotone clock; expiry is in whole seconds. */
module Cache {
  import opened Wrappers
  import opened Keys

  const SECOND: int := 1_000_000_000

  /** An upstream anchor; `cert` is absent when the client decoded none. */
  datatype Anchor = Anchor(
    country: string, cert: Option<seq<bv8>>, status: string,
    validUntil: int, tlSequence: int, useCases: seq<string>)

  datatype CachedAnchor = CachedAnchor(
    certDer: seq<bv8>, territory: string, status: string,
    validUntil: int, tlSequence: int, useCases: seq<string>)

  datatype Entry = Entry(
    snapshotId: string, kind: string, territory: string,
    fetchedAt: int, validUntil: int, upstreamStale: bool, anchors: seq<CachedAnchor>)

  datatype TypeFreshness = TypeFreshness(
    snapshotId: string, fetchedAt: int, validUntil: int, upstreamStale: bool)

  datatype Value =
    | EntryV(entry: Entry)
    | IndexV(territories: seq<string>)
    | TextV(text: string)
    | FreshV(freshness: TypeFreshness)
    | RawV(raw: seq<bv8>)

  datatype Cell = Cell(value: Value, deadline: int)

  type Db = map<Key, Cell>

  /** One anchor type's share of the keyspace. */
  type Slice = map<Part, Cell>

  datatype Command<K> =
    | Set(key: K, value: Value, secs: int)
    | Del(key: K)
    | Expire(key: K, secs: int)

  function Look<K, V>(m: map<K, V>, k: K): Option<V> {
    if k in m then Some(m[k]) else None
  }

  predicate Live<K>(db: map<K, Cell>, k: K, at: int) {
    k in db && at < db[k].deadline
  }

  /** GET: an expired key reads as absent. */
  function Get<K>(db: map<K, Cell>, k: K, at: int): Option<Value> {
    if Live(db, k, at) then Some(db[k].value) else None
  }

  /** The effect of one command on the key it names. */
  function CellAfter<K>(c: Option<Cell>, cmd: Command<K>, at: int): Option<Cell> {
    match cmd
    case Set(_, v, secs) => Some(Cell(v, at + secs * SECOND))
    case Del(_) => None
    case Expire(_, secs) =>
      if c.Some? && at < c.value.deadline then Some(c.value.(deadline := at + secs * SECOND)) else c
  }

  function Perform<K>(db: map<K, Cell>, cmd: Command<K>, at: int): map<K, Cell> {
    match CellAfter(Look(db, cmd.key), cmd, at)
    case Some(c) => db[cmd.key := c]
    case None => db - {cmd.key}
  }

  /** EXEC: the queued commands run back to back at one instant. */
  function Exec<K>(db: map<K, Cell>, cmds: seq<Command<K>>, at: int): map<K, Cell>
    decreases |cmds|
  {
    if cmds == [] then db else Exec(Perform(db, cmds[0], at), cmds[1..], at)
  }

  lemma {:induction false} ExecUntouched<K>(db: map<K, Cell>, cmds: seq<Command<K>>, at: int, k: K)
    requires forall c :: c in cmds ==> c.key != k
    ensures Look(Exec(db, cmds, at), k) == Look(db, k)
    decreases |cmds|
  {
    if cmds == [] {
    } else {
      assert cmds[0] in cmds;
      ExecUntouched(Perform(db, cmds[0], at), cmds[1..], at, k);
    }
  }

  /** A key named only by copies of one command ends as that command leaves it. */
  lemma {:induction false} ExecUniform<K>(db: map<K, Cell>, cmds: seq<Command<K>>, at: int, cmd: Command<K>)
    requires cmd in cmds
    requires forall c :: c in cmds && c.key == cmd.key ==> c == cmd
    requires cmd.Expire? ==> cmd.secs > 0
    ensures Look(Exec(db, cmds, at), cmd.key) == CellAfter(Look(db, cmd.key), cmd, at)
    decreases |cmds|
  {
    var db', rest := Perform(db, cmds[0], at), cmds[1..];
    assert cmds[0] in cmds;
    assert forall c :: c in rest ==> c in cmds;
    if cmd in rest {
      ExecUniform(db', rest, at, cmd);
    } else {
      ExecUntouched(db', rest, at, cmd.key);
    }
  }

  /** The keys of one type, re-indexed by family. */
  function SliceOf(db: Db, kind: string): (s: Slice)
    ensures forall p :: Look(s, p) == Look(db, Typed(kind, p))
  {
    map k | k in db && k.Typed? && k.kind == kind :: k.part := db[k]
  }

  predicate Owns(kind: string, k: Key) { k.Typed? && k.kind == kind }

  /** Nothing outside one type's keys changed. */
  ghost predicate OthersKept(db: Db, db': Db, kind: string) {
    forall k :: !Owns(kind, k) ==> Look(db', k) == Look(db, k)
  }

  lemma SameMap<K, V>(a: map<K, V>, b: map<K, V>)
    requires forall k :: Look(a, k) == Look(b, k)
    ensures a == b
  {
    assert forall k :: k in a ==> Look(a, k).Some?;
    assert forall k :: k in b ==> Look(b, k).Some?;
    assert a.Keys == b.Keys;
    forall k | k in a ensures a[k] == b[k] {
      assert Look(a, k) == Look(b, k);
    }
  }

  lemma OtherSlicesKept(db: Db, db': Db, kind: string, other: string)
    requires OthersKept(db, db', kind) && other != kind
    ensures SliceOf(db', other) == SliceOf(db, other)
  {
    forall p ensures Look(SliceOf(db', other), p) == Look(SliceOf(db, other), p) {
      assert !Owns(kind, Typed(other, p));
    }
    SameMap(SliceOf(db', other), SliceOf(db, other));
  }

  lemma {:induction false} ExecKeepsOthers(db: Db, cmds: seq<Command<Key>>, at: int, kind: string)
    requires forall c :: c in cmds ==> Owns(kind, c.key)
    ensures OthersKept(db, Exec(db, cmds, at), kind)
  {
    forall k | !Owns(kind, k) ensures Look(Exec(db, cmds, at), k) == Look(db, k) {
      ExecUntouched(db, cmds, at, k);
    }
  }
}
