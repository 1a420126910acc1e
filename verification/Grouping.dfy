/** Grouping of a flat anchor list into one cache entry per territory.
    `norm` stands for the shared library's territory normalization. */
module Grouping {
  import opened Ordering
  import opened Cache

  function ToCached(norm: string -> string, a: Anchor): CachedAnchor {
    CachedAnchor(if a.cert.Some? then a.cert.value else [], norm(a.country),
      a.status, a.validUntil, a.tlSequence, a.useCases)
  }

  /** Every upstream anchor in the form the cache keeps it, in upstream order. */
  function Mapped(norm: string -> string, anchors: seq<Anchor>): seq<CachedAnchor> {
    if anchors == [] then [] else Mapped(norm, anchors[..|anchors| - 1]) + [ToCached(norm, anchors[|anchors| - 1])]
  }

  /** One territory's anchors, in upstream order. */
  function GroupOf(norm: string -> string, anchors: seq<Anchor>, territory: string): seq<CachedAnchor> {
    if anchors == [] then []
    else
      var last := anchors[|anchors| - 1];
      var front := GroupOf(norm, anchors[..|anchors| - 1], territory);
      if norm(last.country) == territory then front + [ToCached(norm, last)] else front
  }

  function Territories(norm: string -> string, anchors: seq<Anchor>): set<string> {
    set a | a in anchors :: norm(a.country)
  }

  function EntryFor(
      norm: string -> string, kind: string, id: string, anchors: seq<Anchor>, stale: bool,
      fetchedAt: int, validUntil: int, territory: string): Entry {
    Entry(id, kind, territory, fetchedAt, validUntil, stale, GroupOf(norm, anchors, territory))
  }

  /** The materialization one snapshot calls for: an entry per occurring territory. */
  function EntriesFor(
      norm: string -> string, kind: string, id: string, anchors: seq<Anchor>, stale: bool,
      fetchedAt: int, validUntil: int): (m: map<string, Entry>)
    ensures m.Keys == Territories(norm, anchors)
  {
    map t | t in Territories(norm, anchors) :: EntryFor(norm, kind, id, anchors, stale, fetchedAt, validUntil, t)
  }

  /** Entries keyed by territory. */
  function EntryMap(entries: seq<Entry>): map<string, Entry> {
    if entries == [] then map[]
    else
      var last := entries[|entries| - 1];
      EntryMap(entries[..|entries| - 1])[last.territory := last]
  }

  function TerritoriesOf(entries: seq<Entry>): (r: seq<string>)
    ensures |r| == |entries|
    ensures forall i :: 0 <= i < |r| ==> r[i] == entries[i].territory
  {
    seq(|entries|, i requires 0 <= i < |entries| => entries[i].territory)
  }

  lemma {:induction false} EntryMapMembers(entries: seq<Entry>)
    requires Distinct(TerritoriesOf(entries))
    ensures EntryMap(entries).Keys == Elements(TerritoriesOf(entries))
    ensures forall i :: 0 <= i < |entries| ==>
      entries[i].territory in EntryMap(entries) && EntryMap(entries)[entries[i].territory] == entries[i]
  {
    if entries != [] {
      var front, last := entries[..|entries| - 1], entries[|entries| - 1];
      assert TerritoriesOf(entries) == TerritoriesOf(front) + [last.territory];
      EntryMapMembers(front);
      forall t ensures t in TerritoriesOf(entries) <==> t in TerritoriesOf(front) || t == last.territory {
      }
      forall i | 0 <= i < |front| ensures entries[i].territory != last.territory {
        assert TerritoriesOf(entries)[i] != TerritoriesOf(entries)[|front|];
      }
    } else {
      assert TerritoriesOf(entries) == [];
    }
  }

  /** A map is what its entries say, whatever order they were listed in. */
  lemma EntryMapIgnoresOrder(a: seq<Entry>, b: seq<Entry>)
    requires Distinct(TerritoriesOf(a)) && Distinct(TerritoriesOf(b))
    requires Elements(a) == Elements(b)
    ensures EntryMap(a) == EntryMap(b)
    ensures Elements(TerritoriesOf(a)) == Elements(TerritoriesOf(b))
  {
    EntryMapMembers(a);
    EntryMapMembers(b);
    SubMap(a, b);
    SubMap(b, a);
    assert EntryMap(a).Keys == EntryMap(b).Keys;
  }

  lemma SubMap(a: seq<Entry>, b: seq<Entry>)
    requires Distinct(TerritoriesOf(a)) && Distinct(TerritoriesOf(b))
    requires Elements(a) <= Elements(b)
    ensures forall t :: t in EntryMap(a) ==> t in EntryMap(b) && EntryMap(b)[t] == EntryMap(a)[t]
  {
    EntryMapMembers(a);
    EntryMapMembers(b);
    forall t | t in EntryMap(a)
      ensures t in EntryMap(b) && EntryMap(b)[t] == EntryMap(a)[t]
    {
      assert t in TerritoriesOf(a);
      var i :| 0 <= i < |a| && TerritoriesOf(a)[i] == t;
      assert a[i] in Elements(a);
      assert a[i] in b;
      var j :| 0 <= j < |b| && b[j] == a[i];
    }
  }

  lemma {:induction false} GroupNonEmpty(norm: string -> string, anchors: seq<Anchor>, t: string)
    ensures GroupOf(norm, anchors, t) != [] <==> t in Territories(norm, anchors)
  {
    if anchors == [] {
    } else {
      var front, last := anchors[..|anchors| - 1], anchors[|anchors| - 1];
      GroupNonEmpty(norm, front, t);
      assert anchors == front + [last];
      assert t in Territories(norm, anchors) <==> t in Territories(norm, front) || t == norm(last.country) by {
        forall a | a in front ensures a in anchors {
        }
        assert last in anchors;
      }
    }
  }

  /** How many of the anchors normalize to t. */
  function CountIn(norm: string -> string, anchors: seq<Anchor>, t: string): nat {
    if anchors == [] then 0
    else
      CountIn(norm, anchors[..|anchors| - 1], t) + if norm(anchors[|anchors| - 1].country) == t then 1 else 0
  }

  /** The cached anchor carries everything the upstream one said, under territory t. */
  ghost predicate Carries(c: CachedAnchor, a: Anchor, t: string) {
    && c.certDer == (match a.cert case None => [] case Some(der) => der)
    && c.territory == t && c.status == a.status && c.validUntil == a.validUntil
    && c.tlSequence == a.tlSequence && c.useCases == a.useCases
  }

  /** `cached` is territory t's part of the upstream list: as many anchors as normalize
      to t, the k-th carrying, field by field, the k-th upstream anchor that does. */
  ghost predicate Copies(norm: string -> string, anchors: seq<Anchor>, t: string, cached: seq<CachedAnchor>) {
    && |cached| == CountIn(norm, anchors, t)
    && forall i :: 0 <= i < |anchors| && norm(anchors[i].country) == t ==> CopiedAt(norm, anchors, t, cached, i)
  }

  ghost predicate CopiedAt(
      norm: string -> string, anchors: seq<Anchor>, t: string, cached: seq<CachedAnchor>, i: nat)
    requires i < |anchors|
  {
    var k := CountIn(norm, anchors[..i], t);
    k < |cached| && Carries(cached[k], anchors[i], t)
  }

  lemma {:induction false} GroupCopies(norm: string -> string, anchors: seq<Anchor>, t: string)
    ensures Copies(norm, anchors, t, GroupOf(norm, anchors, t))
  {
    if anchors == [] {
    } else {
      var front, last := anchors[..|anchors| - 1], |anchors| - 1;
      var group, all := GroupOf(norm, front, t), GroupOf(norm, anchors, t);
      GroupCopies(norm, front, t);
      forall i | 0 <= i < |anchors| && norm(anchors[i].country) == t ensures CopiedAt(norm, anchors, t, all, i) {
        if i < last {
          assert CopiedAt(norm, front, t, group, i);
          assert front[..i] == anchors[..i];
        } else {
          assert anchors[..i] == front;
        }
      }
    }
  }

  predicate Grouped(m: map<string, seq<CachedAnchor>>, norm: string -> string, anchors: seq<Anchor>) {
    && m.Keys == Territories(norm, anchors)
    && forall t :: t in m ==> m[t] == GroupOf(norm, anchors, t)
  }

  lemma GroupedExtends(m: map<string, seq<CachedAnchor>>, norm: string -> string, before: seq<Anchor>, a: Anchor)
    requires Grouped(m, norm, before)
    ensures var t := norm(a.country);
      Grouped(m[t := (if t in m then m[t] else []) + [ToCached(norm, a)]], norm, before + [a])
  {
    var t, all := norm(a.country), before + [a];
    assert all[..|all| - 1] == before && all[|all| - 1] == a;
    GroupNonEmpty(norm, before, t);
    assert forall x :: x in all <==> x in before || x == a;
  }

  method GroupByTerritory(norm: string -> string, anchors: seq<Anchor>)
    returns (byTerritory: map<string, seq<CachedAnchor>>)
    ensures Grouped(byTerritory, norm, anchors)
    ensures forall t :: t in byTerritory ==> byTerritory[t] != [] && Copies(norm, anchors, t, byTerritory[t])
    ensures forall a :: a in anchors ==> norm(a.country) in byTerritory
  {
    byTerritory := map[];
    var i := 0;
    while i < |anchors|
      invariant 0 <= i <= |anchors|
      invariant Grouped(byTerritory, norm, anchors[..i])
    {
      var a := anchors[i];
      var territory := norm(a.country);
      GroupedExtends(byTerritory, norm, anchors[..i], a);
      assert anchors[..i + 1] == anchors[..i] + [a];
      var sofar := if territory in byTerritory then byTerritory[territory] else [];
      byTerritory := byTerritory[territory := sofar + [ToCached(norm, a)]];
      i := i + 1;
    }
    assert anchors[..i] == anchors;
    forall t | t in byTerritory ensures byTerritory[t] != [] && Copies(norm, anchors, t, byTerritory[t]) {
      GroupCopies(norm, anchors, t);
      GroupNonEmpty(norm, anchors, t);
    }
  }

  /** An entry says what the snapshot says of its territory, under the snapshot's own
      id, kind, stale flag and instants. */
  ghost predicate Faithful(
      norm: string -> string, kind: string, id: string, anchors: seq<Anchor>, stale: bool,
      fetchedAt: int, validUntil: int, e: Entry) {
    && e.snapshotId == id && e.kind == kind && e.upstreamStale == stale
    && e.fetchedAt == fetchedAt && e.validUntil == validUntil
    && e.anchors != [] && Copies(norm, anchors, e.territory, e.anchors)
  }

  /** Whatever order the map is walked in, the entries are the snapshot's materialization. */
  method EntriesByTerritory(
      norm: string -> string, kind: string, id: string, anchors: seq<Anchor>, stale: bool,
      fetchedAt: int, validUntil: int) returns (out: seq<Entry>)
    ensures Distinct(TerritoriesOf(out))
    ensures EntryMap(out) == EntriesFor(norm, kind, id, anchors, stale, fetchedAt, validUntil)
    ensures forall e :: e in out ==> Faithful(norm, kind, id, anchors, stale, fetchedAt, validUntil, e)
    ensures forall a :: a in anchors ==> norm(a.country) in TerritoriesOf(out)
  {
    var byTerritory := GroupByTerritory(norm, anchors);
    out := ListEntries(norm, kind, id, anchors, stale, fetchedAt, validUntil, byTerritory);
    ListingIsMaterialization(norm, kind, id, anchors, stale, fetchedAt, validUntil, out);
    ListingIsFaithful(norm, kind, id, anchors, stale, fetchedAt, validUntil, out);
  }

  /** A map walk in random order, over whatever keys are left. */
  method ListEntries(
      norm: string -> string, kind: string, id: string, ghost anchors: seq<Anchor>, stale: bool,
      fetchedAt: int, validUntil: int, byTerritory: map<string, seq<CachedAnchor>>) returns (out: seq<Entry>)
    requires Grouped(byTerritory, norm, anchors)
    ensures Distinct(TerritoriesOf(out))
    ensures Elements(TerritoriesOf(out)) == Territories(norm, anchors)
    ensures forall e :: e in out ==>
      e == EntryFor(norm, kind, id, anchors, stale, fetchedAt, validUntil, e.territory)
  {
    out := [];
    var left := byTerritory.Keys;
    while left != {}
      invariant left <= byTerritory.Keys
      invariant Distinct(TerritoriesOf(out))
      invariant Elements(TerritoriesOf(out)) == byTerritory.Keys - left
      invariant forall e :: e in out ==>
        e == EntryFor(norm, kind, id, anchors, stale, fetchedAt, validUntil, e.territory)
      decreases |left|
    {
      var territory :| territory in left;
      var e := Entry(id, kind, territory, fetchedAt, validUntil, stale, byTerritory[territory]);
      AppendTerritory(out, e);
      assert e == EntryFor(norm, kind, id, anchors, stale, fetchedAt, validUntil, territory);
      out := out + [e];
      left := left - {territory};
    }
  }

  lemma ListingIsFaithful(
      norm: string -> string, kind: string, id: string, anchors: seq<Anchor>, stale: bool,
      fetchedAt: int, validUntil: int, out: seq<Entry>)
    requires Elements(TerritoriesOf(out)) == Territories(norm, anchors)
    requires forall e :: e in out ==>
      e == EntryFor(norm, kind, id, anchors, stale, fetchedAt, validUntil, e.territory)
    ensures forall e :: e in out ==> Faithful(norm, kind, id, anchors, stale, fetchedAt, validUntil, e)
    ensures forall a :: a in anchors ==> norm(a.country) in TerritoriesOf(out)
  {
    forall e | e in out ensures Faithful(norm, kind, id, anchors, stale, fetchedAt, validUntil, e) {
      var i :| 0 <= i < |out| && out[i] == e;
      assert TerritoriesOf(out)[i] in Elements(TerritoriesOf(out));
      GroupNonEmpty(norm, anchors, e.territory);
      GroupCopies(norm, anchors, e.territory);
    }
    forall a | a in anchors ensures norm(a.country) in TerritoriesOf(out) {
      assert norm(a.country) in Territories(norm, anchors);
    }
  }

  lemma ListingIsMaterialization(
      norm: string -> string, kind: string, id: string, anchors: seq<Anchor>, stale: bool,
      fetchedAt: int, validUntil: int, out: seq<Entry>)
    requires Distinct(TerritoriesOf(out))
    requires Elements(TerritoriesOf(out)) == Territories(norm, anchors)
    requires forall e :: e in out ==>
      e == EntryFor(norm, kind, id, anchors, stale, fetchedAt, validUntil, e.territory)
    ensures EntryMap(out) == EntriesFor(norm, kind, id, anchors, stale, fetchedAt, validUntil)
  {
    EntryMapMembers(out);
    var m := EntriesFor(norm, kind, id, anchors, stale, fetchedAt, validUntil);
    forall t | t in m ensures EntryMap(out)[t] == m[t] {
      assert t in TerritoriesOf(out);
      var j :| 0 <= j < |out| && TerritoriesOf(out)[j] == t;
      assert out[j] in out;
    }
  }

  lemma WithoutLast(out: seq<Entry>)
    requires out != [] && Distinct(TerritoriesOf(out))
    ensures var front, t := out[..|out| - 1], out[|out| - 1].territory;
      && Distinct(TerritoriesOf(front))
      && t !in Elements(TerritoriesOf(front))
      && Elements(TerritoriesOf(out)) == Elements(TerritoriesOf(front)) + {t}
  {
    var front, t := out[..|out| - 1], out[|out| - 1].territory;
    var a := TerritoriesOf(front);
    assert TerritoriesOf(out) == a + [t];
    assert forall i :: 0 <= i < |a| ==> a[i] == TerritoriesOf(out)[i] != TerritoriesOf(out)[|a|];
  }

  lemma AppendTerritory(out: seq<Entry>, e: Entry)
    requires Distinct(TerritoriesOf(out)) && e.territory !in Elements(TerritoriesOf(out))
    ensures Distinct(TerritoriesOf(out + [e]))
    ensures Elements(TerritoriesOf(out + [e])) == Elements(TerritoriesOf(out)) + {e.territory}
  {
    var a, b := TerritoriesOf(out), TerritoriesOf(out + [e]);
    assert b == a + [e.territory];
    assert forall i :: 0 <= i < |a| ==> a[i] in Elements(a);
  }

  /** All cached anchors of a list of entries, entry after entry. */
  function Flatten(out: seq<Entry>): seq<CachedAnchor> {
    if out == [] then [] else Flatten(out[..|out| - 1]) + out[|out| - 1].anchors
  }

  lemma {:induction false} GroupCounts(norm: string -> string, anchors: seq<Anchor>, t: string, x: CachedAnchor)
    ensures multiset(GroupOf(norm, anchors, t))[x] ==
      if x.territory == t then multiset(Mapped(norm, anchors))[x] else 0
  {
    if anchors == [] {
    } else {
      GroupCounts(norm, anchors[..|anchors| - 1], t, x);
    }
  }

  lemma {:induction false} FlattenCounts(
      norm: string -> string, anchors: seq<Anchor>, out: seq<Entry>, x: CachedAnchor)
    requires Distinct(TerritoriesOf(out))
    requires forall e :: e in out ==> e.anchors == GroupOf(norm, anchors, e.territory)
    ensures multiset(Flatten(out))[x] ==
      if x.territory in Elements(TerritoriesOf(out)) then multiset(Mapped(norm, anchors))[x] else 0
  {
    if out == [] {
      assert TerritoriesOf(out) == [];
    } else {
      var front, last := out[..|out| - 1], out[|out| - 1];
      assert out == front + [last];
      WithoutLast(out);
      FlattenCounts(norm, anchors, front, x);
      GroupCounts(norm, anchors, last.territory, x);
      assert last in out;
    }
  }

  lemma {:induction false} MappedTerritories(norm: string -> string, anchors: seq<Anchor>)
    ensures forall x :: x in Mapped(norm, anchors) ==> x.territory in Territories(norm, anchors)
  {
    if anchors == [] {
    } else {
      MappedTerritories(norm, anchors[..|anchors| - 1]);
      assert anchors == anchors[..|anchors| - 1] + [anchors[|anchors| - 1]];
    }
  }

  lemma EntryIsGroup(
      norm: string -> string, kind: string, id: string, anchors: seq<Anchor>, stale: bool,
      fetchedAt: int, validUntil: int, out: seq<Entry>, e: Entry)
    requires Distinct(TerritoriesOf(out)) && e in out
    requires EntryMap(out) == EntriesFor(norm, kind, id, anchors, stale, fetchedAt, validUntil)
    ensures e.anchors != [] && e.anchors == GroupOf(norm, anchors, e.territory)
  {
    EntryMapMembers(out);
    var i :| 0 <= i < |out| && out[i] == e;
    GroupNonEmpty(norm, anchors, e.territory);
  }

  lemma AllTerritories(
      norm: string -> string, kind: string, id: string, anchors: seq<Anchor>, stale: bool,
      fetchedAt: int, validUntil: int, out: seq<Entry>)
    requires Distinct(TerritoriesOf(out))
    requires EntryMap(out) == EntriesFor(norm, kind, id, anchors, stale, fetchedAt, validUntil)
    ensures Elements(TerritoriesOf(out)) == Territories(norm, anchors)
  {
    EntryMapMembers(out);
  }

  /** Grouping partitions: any listing of the materialization has pairwise distinct
      territories, no empty entry, each territory's anchors in upstream order, and
      over all entries exactly the upstream anchors, none lost and none repeated. */
  lemma GroupingPartitions(
      norm: string -> string, kind: string, id: string, anchors: seq<Anchor>, stale: bool,
      fetchedAt: int, validUntil: int, out: seq<Entry>)
    requires Distinct(TerritoriesOf(out))
    requires EntryMap(out) == EntriesFor(norm, kind, id, anchors, stale, fetchedAt, validUntil)
    ensures forall e :: e in out ==> e.anchors != [] && e.anchors == GroupOf(norm, anchors, e.territory)
    ensures multiset(Flatten(out)) == multiset(Mapped(norm, anchors))
  {
    EntryMapMembers(out);
    forall e | e in out
      ensures e.anchors != [] && e.anchors == GroupOf(norm, anchors, e.territory)
    {
      EntryIsGroup(norm, kind, id, anchors, stale, fetchedAt, validUntil, out, e);
    }
    MappedTerritories(norm, anchors);
    AllTerritories(norm, kind, id, anchors, stale, fetchedAt, validUntil, out);
    forall x ensures multiset(Flatten(out))[x] == multiset(Mapped(norm, anchors))[x] {
      FlattenCounts(norm, anchors, out, x);
      assert x in multiset(Mapped(norm, anchors)) <==> x in Mapped(norm, anchors);
    }
  }
}
