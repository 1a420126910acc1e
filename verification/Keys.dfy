/** The cache key contract: families, their rendering, and the configured prefix. */
module Keys {
  import opened Taxonomy

  /** The four key families one anchor type owns. */
  datatype Part = Territory(name: string) | Index | ETag | Freshness

  datatype Key =
    | Typed(kind: string, part: Part)
    | SnapshotHealth
    | StatusList(hash: string)
    | StatusRefs

  /** Key shapes of the README's key table. */
  function Render(k: Key): string {
    match k
    case Typed(kind, Territory(t)) => "trust:anchors:" + kind + ":" + t
    case Typed(kind, Index) => "trust:anchors:territories:" + kind
    case Typed(kind, ETag) => "trust:anchors:etag:" + kind
    case Typed(kind, Freshness) => "trust:freshness:" + kind
    case SnapshotHealth => "trust:freshness:snapshot"
    case StatusList(h) => "trust:statuslist:" + h
    case StatusRefs => "trust:statuslist:refs"
  }

  /** Keys the worker can name: taxonomy kinds, and hex-encoded 32-byte digests. */
  predicate Nameable(k: Key) {
    match k
    case Typed(kind, _) => IsKind(kind)
    case StatusList(h) => |h| == 64
    case _ => true
  }

  predicate IsSpace(c: char) {
    c in "\t\n\r " || c == '\U{0B}' || c == '\U{0C}' || c == '\U{85}' || c == '\U{A0}'
    || c == '\U{1680}' || '\U{2000}' <= c <= '\U{200A}' || c == '\U{2028}' || c == '\U{2029}'
    || c == '\U{202F}' || c == '\U{205F}' || c == '\U{3000}'
  }

  /** White space by code point, as Unicode lists it. */
  lemma WhiteSpace(c: char)
    ensures IsSpace(c) <==>
      var n := c as int;
      9 <= n <= 13 || n == 32 || n == 0x85 || n == 0xA0 || n == 0x1680 || 0x2000 <= n <= 0x200A
      || n == 0x2028 || n == 0x2029 || n == 0x202F || n == 0x205F || n == 0x3000
  {
  }

  function TrimLeft(s: string): (r: string)
    ensures r != "" ==> !IsSpace(r[0])
  {
    if s != "" && IsSpace(s[0]) then TrimLeft(s[1..]) else s
  }

  function TrimTail(s: string): (r: string)
    ensures r != "" ==> !IsSpace(r[|r| - 1])
    ensures r <= s
  {
    if s != "" && IsSpace(s[|s| - 1]) then TrimTail(s[..|s| - 1]) else s
  }

  function TrimColons(s: string): (r: string)
    ensures r != "" ==> r[|r| - 1] != ':'
    ensures r <= s
  {
    if s != "" && s[|s| - 1] == ':' then TrimColons(s[..|s| - 1]) else s
  }

  function TrimSpace(s: string): string { TrimTail(TrimLeft(s)) }

  /** The configured prefix, normalized to "<p>:" or "". */
  function KeyPrefix(p: string): string {
    var q := TrimColons(TrimSpace(p));
    if q == "" then "" else q + ":"
  }

  predicate AllSpace(s: string) { forall i :: 0 <= i < |s| ==> IsSpace(s[i]) }

  predicate AllColons(s: string) { forall i :: 0 <= i < |s| ==> s[i] == ':' }

  lemma {:induction false} TrimLeftCuts(s: string) returns (lead: string)
    ensures s == lead + TrimLeft(s) && AllSpace(lead)
  {
    if s == "" || !IsSpace(s[0]) {
      lead := "";
    } else {
      var rest := TrimLeftCuts(s[1..]);
      lead := [s[0]] + rest;
      assert s == [s[0]] + s[1..];
    }
  }

  lemma {:induction false} TrimTailCuts(s: string) returns (trail: string)
    ensures s == TrimTail(s) + trail && AllSpace(trail)
  {
    if s == "" || !IsSpace(s[|s| - 1]) {
      trail := "";
    } else {
      var rest := TrimTailCuts(s[..|s| - 1]);
      trail := rest + [s[|s| - 1]];
      assert s == s[..|s| - 1] + [s[|s| - 1]];
    }
  }

  lemma {:induction false} TrimColonsCuts(s: string) returns (colons: string)
    ensures s == TrimColons(s) + colons && AllColons(colons)
  {
    if s == "" || s[|s| - 1] != ':' {
      colons := "";
    } else {
      var rest := TrimColonsCuts(s[..|s| - 1]);
      colons := rest + [s[|s| - 1]];
      assert s == s[..|s| - 1] + [s[|s| - 1]];
    }
  }

  /** What the prefix becomes: cut the white space around it and then the colons at its
      end; nothing left is no prefix, and anything else is followed by one colon. */
  lemma KeyPrefixMeans(p: string) returns (lead: string, q: string, colons: string, trail: string)
    ensures p == lead + q + colons + trail
    ensures AllSpace(lead) && AllSpace(trail) && AllColons(colons)
    ensures q != "" ==> !IsSpace(q[0]) && q[|q| - 1] != ':' && (colons == "" ==> !IsSpace(q[|q| - 1]))
    ensures KeyPrefix(p) == if q == "" then "" else q + ":"
  {
    lead := TrimLeftCuts(p);
    trail := TrimTailCuts(TrimLeft(p));
    colons := TrimColonsCuts(TrimSpace(p));
    q := TrimColons(TrimSpace(p));
    assert q != "" ==> q[0] == TrimLeft(p)[0];
  }

  /** Normalizing a normalized prefix changes nothing, so a prefix copied from
      one service's effective value into another's configuration still matches. */
  lemma KeyPrefixIdempotent(p: string)
    ensures KeyPrefix(KeyPrefix(p)) == KeyPrefix(p)
  {
    var s := TrimSpace(p);
    var q := TrimColons(s);
    if q != "" {
      var n := q + ":";
      assert q[0] == s[0] == TrimLeft(p)[0];
      assert TrimLeft(n) == n;
      assert n[|n| - 1] == ':' && TrimTail(n) == n;
      assert n[..|n| - 1] == q && TrimColons(n) == TrimColons(q);
    }
  }

  lemma CommonHead(h: string, a: string, b: string)
    requires h + a == h + b
    ensures a == b
  {
    assert a == (h + a)[|h|..] && b == (h + b)[|h|..];
  }

  /** The first separator splits a string one way only. */
  lemma SplitAtSeparator(a: string, s: string, b: string, t: string)
    requires ':' !in a && ':' !in b
    requires a + ":" + s == b + ":" + t
    ensures a == b && s == t
  {
    var x, y := a + ":" + s, b + ":" + t;
    assert x[|a|] == ':' && y[|b|] == ':';
    assert forall i :: 0 <= i < |a| ==> x[i] == a[i];
    assert forall i :: 0 <= i < |b| ==> y[i] == b[i];
    assert |a| == |b|;
    assert a == x[..|a|] && b == y[..|b|];
    assert s == x[|a| + 1..] && t == y[|b| + 1..];
  }

  /** A rendered key below "trust:anchors:" is a colon-free word, the separator, and a rest. */
  lemma AnchorsShape(k: Key) returns (head: string, rest: string)
    requires Nameable(k) && k.Typed? && !k.part.Freshness?
    ensures Render(k) == "trust:anchors:" + (head + ":" + rest)
    ensures ':' !in head
    ensures k.part == Index ==> head == "territories" && rest == k.kind
    ensures k.part == ETag ==> head == "etag" && rest == k.kind
    ensures k.part.Territory? ==> head == k.kind && rest == k.part.name
    ensures k.part.Territory? ==> head != "territories" && head != "etag"
  {
    KindsAreKeySafe(k.kind);
    match k.part {
      case Territory(t) =>
        head, rest := k.kind, t;
        assert Render(k) == "trust:anchors:" + (head + ":" + rest);
      case Index =>
        head, rest := "territories", k.kind;
        assert "trust:anchors:territories:" == "trust:anchors:" + ("territories" + ":");
        assert Render(k) == "trust:anchors:" + (head + ":" + rest);
      case ETag =>
        head, rest := "etag", k.kind;
        assert "trust:anchors:etag:" == "trust:anchors:" + ("etag" + ":");
        assert Render(k) == "trust:anchors:" + (head + ":" + rest);
    }
  }

  datatype Family = Anchors | Fresh | Status

  function FamilyOf(k: Key): Family {
    match k
    case Typed(_, Freshness) => Fresh
    case Typed(_, _) => Anchors
    case SnapshotHealth => Fresh
    case _ => Status
  }

  /** The seventh character ('a', 'f' or 's') tells the family. */
  lemma FamilyIsVisible(k: Key)
    ensures |Render(k)| > 6
    ensures Render(k)[6] == match FamilyOf(k) case Anchors => 'a' case Fresh => 'f' case Status => 's'
  {
  }

  lemma FreshnessInjective(a: Key, b: Key)
    requires Nameable(a) && Nameable(b) && FamilyOf(a) == FamilyOf(b) == Fresh
    requires Render(a) == Render(b)
    ensures a == b
  {
    assert "trust:freshness:snapshot" == "trust:freshness:" + "snapshot";
    if a.Typed? { KindsAreKeySafe(a.kind); }
    if b.Typed? { KindsAreKeySafe(b.kind); }
    CommonHead("trust:freshness:",
      if a.Typed? then a.kind else "snapshot", if b.Typed? then b.kind else "snapshot");
  }

  lemma StatusInjective(a: Key, b: Key)
    requires Nameable(a) && Nameable(b) && FamilyOf(a) == FamilyOf(b) == Status
    requires Render(a) == Render(b)
    ensures a == b
  {
    assert "trust:statuslist:refs" == "trust:statuslist:" + "refs";
    CommonHead("trust:statuslist:",
      if a.StatusList? then a.hash else "refs", if b.StatusList? then b.hash else "refs");
  }

  /** Distinct keys never share a rendered name, for every territory string (colons
      included) and every configured prefix. */
  lemma RenderedKeysNeverCollide(prefix: string, a: Key, b: Key)
    requires Nameable(a) && Nameable(b)
    requires KeyPrefix(prefix) + Render(a) == KeyPrefix(prefix) + Render(b)
    ensures a == b
  {
    CommonHead(KeyPrefix(prefix), Render(a), Render(b));
    FamilyIsVisible(a);
    FamilyIsVisible(b);
    match FamilyOf(a) {
      case Fresh => FreshnessInjective(a, b);
      case Status => StatusInjective(a, b);
      case Anchors =>
        var h, r := AnchorsShape(a);
        var h', r' := AnchorsShape(b);
        CommonHead("trust:anchors:", h + ":" + r, h' + ":" + r');
        SplitAtSeparator(h, r, h', r');
    }
  }

  /** The closed taxonomy is what keeps the families apart: with a type named
      "etag" a territory entry would be another type's ETag key. */
  lemma OpenTaxonomyWouldCollide()
    ensures !IsKind("etag")
    ensures Render(Typed("etag", Territory("access_ca"))) == Render(Typed("access_ca", ETag))
  {
    if IsKind("etag") {
      KindsAreKeySafe("etag");
    }
    assert "trust:anchors:" + "etag" + ":" == "trust:anchors:etag:";
  }
}
