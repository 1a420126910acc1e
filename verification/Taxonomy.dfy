/** The closed anchor-type taxonomy: one table read in both directions. */
module Taxonomy {
  import opened Wrappers

  /** The trust client's anchor types. The client's type is an open string, so a
      value outside the taxonomy (`Unlisted`) can reach the lookup. */
  datatype AnchorType =
    | PIDProvider | QEAAProvider | PubEAAProvider | EAAProvider
    | WalletProvider | AccessCA | WRPRCIssuer
    | PIDProviderStatus | QEAAProviderStatus | PubEAAProviderStatus | EAAProviderStatus
    | Unlisted(name: string)

  datatype Row = Row(t: AnchorType, wire: string)

  const TYPE_COUNT: nat := 11

  function RowNumber(i: nat): Row
    requires i < TYPE_COUNT
  {
    match i
    case 0 => Row(PIDProvider, "pid_provider")
    case 1 => Row(QEAAProvider, "qeaa_provider")
    case 2 => Row(PubEAAProvider, "pub_eaa_provider")
    case 3 => Row(EAAProvider, "eaa_provider")
    case 4 => Row(WalletProvider, "wallet_provider")
    case 5 => Row(AccessCA, "access_ca")
    case 6 => Row(WRPRCIssuer, "wrprc_issuer")
    case 7 => Row(PIDProviderStatus, "pid_provider_status")
    case 8 => Row(QEAAProviderStatus, "qeaa_provider_status")
    case 9 => Row(PubEAAProviderStatus, "pub_eaa_provider_status")
    case 10 => Row(EAAProviderStatus, "eaa_provider_status")
  }

  function TypeTable(): (table: seq<Row>)
    ensures |table| == TYPE_COUNT
    ensures forall i :: 0 <= i < TYPE_COUNT ==> table[i] == RowNumber(i)
  {
    seq(TYPE_COUNT, i requires 0 <= i < TYPE_COUNT => RowNumber(i))
  }

  function FindType(table: seq<Row>, t: AnchorType): Option<string> {
    if table == [] then None
    else if table[0].t == t then Some(table[0].wire)
    else FindType(table[1..], t)
  }

  function FindWire(table: seq<Row>, w: string): Option<AnchorType> {
    if table == [] then None
    else if table[0].wire == w then Some(table[0].t)
    else FindWire(table[1..], w)
  }

  function WireName(t: AnchorType): Option<string> { FindType(TypeTable(), t) }

  function TypeNamed(w: string): Option<AnchorType> { FindWire(TypeTable(), w) }

  /** Wire names a cache key may carry. */
  predicate IsKind(w: string) { TypeNamed(w).Some? }

  /** Rows never share a column value, so the two lookups are inverse. */
  ghost predicate OneToOne(table: seq<Row>) {
    forall i, j :: 0 <= i < j < |table| ==> table[i].t != table[j].t && table[i].wire != table[j].wire
  }

  lemma {:induction false} FindTypeHits(table: seq<Row>, t: AnchorType)
    ensures FindType(table, t).Some? ==> Row(t, FindType(table, t).value) in table
    ensures FindType(table, t).None? ==> forall r :: r in table ==> r.t != t
  {
    if table != [] && table[0].t != t {
      FindTypeHits(table[1..], t);
      assert table == [table[0]] + table[1..];
    }
  }

  lemma {:induction false} FindWireHits(table: seq<Row>, w: string)
    ensures FindWire(table, w).Some? ==> Row(FindWire(table, w).value, w) in table
    ensures FindWire(table, w).None? ==> forall r :: r in table ==> r.wire != w
  {
    if table != [] && table[0].wire != w {
      FindWireHits(table[1..], w);
      assert table == [table[0]] + table[1..];
    }
  }

  lemma InverseLookups(table: seq<Row>, t: AnchorType, w: string)
    requires OneToOne(table)
    ensures FindType(table, t) == Some(w) <==> FindWire(table, w) == Some(t)
  {
    FindTypeHits(table, t);
    FindWireHits(table, w);
  }

  ghost function TypeOrdinal(t: AnchorType): int {
    match t
    case PIDProvider => 0 case QEAAProvider => 1 case PubEAAProvider => 2 case EAAProvider => 3
    case WalletProvider => 4 case AccessCA => 5 case WRPRCIssuer => 6
    case PIDProviderStatus => 7 case QEAAProviderStatus => 8 case PubEAAProviderStatus => 9
    case EAAProviderStatus => 10 case Unlisted(_) => 11
  }

  /** Length and first letter already tell the wire names apart. */
  ghost function WireOrdinal(w: string): int {
    if |w| == 12 then (if w[0] == 'p' then 0 else if w[0] == 'e' then 3 else 6)
    else if |w| == 19 then (if w[0] == 'p' then 7 else 10)
    else if |w| == 13 then 1
    else if |w| == 16 then 2
    else if |w| == 15 then 4
    else if |w| == 9 then 5
    else if |w| == 20 then 8
    else if |w| == 23 then 9
    else 11
  }

  lemma RowAt(i: nat)
    requires i < TYPE_COUNT
    ensures TypeOrdinal(RowNumber(i).t) == i
    ensures WireOrdinal(RowNumber(i).wire) == i
  {
  }

  lemma WireColonFree(i: nat)
    requires i < TYPE_COUNT
    ensures ':' !in RowNumber(i).wire
  {
    if i < 7 {
      ProviderColonFree(i);
    } else {
      StatusColonFree(i);
    }
  }

  lemma ProviderColonFree(i: nat)
    requires i < 7
    ensures ':' !in RowNumber(i).wire
  {
    match i
    case 0 => assert ':' !in "pid_provider";
    case 1 => assert ':' !in "qeaa_provider";
    case 2 => assert ':' !in "pub_eaa_provider";
    case 3 => assert ':' !in "eaa_provider";
    case 4 => assert ':' !in "wallet_provider";
    case 5 => assert ':' !in "access_ca";
    case 6 => assert ':' !in "wrprc_issuer";
  }

  lemma StatusColonFree(i: nat)
    requires 7 <= i < TYPE_COUNT
    ensures ':' !in RowNumber(i).wire
  {
    match i
    case 7 => assert ':' !in "pid_provider_status";
    case 8 => assert ':' !in "qeaa_provider_status";
    case 9 => assert ':' !in "pub_eaa_provider_status";
    case 10 => assert ':' !in "eaa_provider_status";
  }

  lemma TableOneToOne()
    ensures OneToOne(TypeTable())
  {
    forall i, j | 0 <= i < j < |TypeTable()|
      ensures TypeTable()[i].t != TypeTable()[j].t && TypeTable()[i].wire != TypeTable()[j].wire
    {
      RowAt(i);
      RowAt(j);
    }
  }

  /** The table is one bijection: a type's wire name parses back to that type and only to it. */
  lemma TaxonomyIsBijective(t: AnchorType, w: string)
    ensures WireName(t) == Some(w) <==> TypeNamed(w) == Some(t)
  {
    TableOneToOne();
    InverseLookups(TypeTable(), t, w);
  }

  lemma RowIsFound(i: nat)
    requires i < TYPE_COUNT
    ensures WireName(RowNumber(i).t) == Some(RowNumber(i).wire)
  {
    FindTypeHits(TypeTable(), RowNumber(i).t);
    assert TypeTable()[i] in TypeTable();
    TableOneToOne();
  }

  /** The published taxonomy, name by name; a type outside it has none. */
  lemma WireNames(other: string)
    ensures WireName(PIDProvider) == Some("pid_provider")
    ensures WireName(QEAAProvider) == Some("qeaa_provider")
    ensures WireName(PubEAAProvider) == Some("pub_eaa_provider")
    ensures WireName(EAAProvider) == Some("eaa_provider")
    ensures WireName(WalletProvider) == Some("wallet_provider")
    ensures WireName(AccessCA) == Some("access_ca")
    ensures WireName(WRPRCIssuer) == Some("wrprc_issuer")
    ensures WireName(PIDProviderStatus) == Some("pid_provider_status")
    ensures WireName(QEAAProviderStatus) == Some("qeaa_provider_status")
    ensures WireName(PubEAAProviderStatus) == Some("pub_eaa_provider_status")
    ensures WireName(EAAProviderStatus) == Some("eaa_provider_status")
    ensures WireName(Unlisted(other)) == None
  {
    RowIsFound(0);
    RowIsFound(1);
    RowIsFound(2);
    RowIsFound(3);
    RowIsFound(4);
    RowIsFound(5);
    RowIsFound(6);
    RowIsFound(7);
    RowIsFound(8);
    RowIsFound(9);
    RowIsFound(10);
    UnlistedHasNone(other);
  }

  lemma UnlistedHasNone(other: string)
    ensures WireName(Unlisted(other)) == None
  {
    FindTypeHits(TypeTable(), Unlisted(other));
    forall i: nat | i < TYPE_COUNT ensures RowNumber(i).t != Unlisted(other) {
      RowAt(i);
    }
  }

  method WireType(t: AnchorType) returns (r: Result<string>)
    ensures r == match WireName(t) case Some(w) => Ok(w) case None => Err
  {
    var table := TypeTable();
    var i := 0;
    while i < |table|
      invariant 0 <= i <= |table|
      invariant WireName(t) == FindType(table[i..], t)
    {
      if table[i].t == t {
        return Ok(table[i].wire);
      }
      i := i + 1;
    }
    return Err;
  }

  /** ParseTypes accepts a configured list exactly when every name is known, and
      then answers with one type per name, in order, each mapping back to its name. */
  method ParseTypes(wire: seq<string>) returns (r: Result<seq<AnchorType>>)
    ensures r.Ok? <==> forall w :: w in wire ==> IsKind(w)
    ensures r.Ok? ==> |r.value| == |wire|
    ensures r.Ok? ==> forall i :: 0 <= i < |wire| ==> WireName(r.value[i]) == Some(wire[i])
  {
    var table := TypeTable();
    var out: seq<AnchorType> := [];
    var k := 0;
    while k < |wire|
      invariant 0 <= k <= |wire|
      invariant |out| == k
      invariant forall i :: 0 <= i < k ==> IsKind(wire[i]) && WireName(out[i]) == Some(wire[i])
    {
      var w := wire[k];
      var found := false;
      var i := 0;
      while i < |table| && !found
        invariant 0 <= i <= |table|
        invariant !found ==> TypeNamed(w) == FindWire(table[i..], w) && |out| == k
        invariant found ==> |out| == k + 1 && TypeNamed(w) == Some(out[k])
        invariant forall i :: 0 <= i < k ==> WireName(out[i]) == Some(wire[i])
        decreases |table| - i, !found
      {
        if table[i].wire == w {
          out := out + [table[i].t];
          found := true;
        } else {
          i := i + 1;
        }
      }
      if !found {
        assert wire[k] in wire && !IsKind(wire[k]);
        return Err;
      }
      TaxonomyIsBijective(out[k], w);
      k := k + 1;
    }
    return Ok(out);
  }

  /** No wire name contains the separator of the key layout or is one of its family words. */
  lemma KindsAreKeySafe(w: string)
    requires IsKind(w)
    ensures ':' !in w && w != "territories" && w != "etag" && w != "snapshot"
  {
    FindWireHits(TypeTable(), w);
    var r := Row(TypeNamed(w).value, w);
    var i :| 0 <= i < |TypeTable()| && TypeTable()[i] == r;
    RowAt(i);
    WireColonFree(i);
    assert WireOrdinal("territories") == WireOrdinal("etag") == WireOrdinal("snapshot") == 11;
  }
}
