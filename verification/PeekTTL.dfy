/** How long a status-list token may be cached: int64 nanosecond durations that wrap
    in multiplication and saturate in time subtraction. */
module PeekTTL {
  import opened Wrappers
  import opened Cache

  const MIN64: int := -0x8000_0000_0000_0000
  const MAX64: int := 0x7FFF_FFFF_FFFF_FFFF

  type int64 = x: int | MIN64 <= x <= MAX64

  type Bytes = seq<bv8>

  /** Two's-complement wrap-around. */
  function Wrap(x: int): int64 { (x - MIN64) % 0x1_0000_0000_0000_0000 + MIN64 }

  function Saturate(x: int): int64 { if x < MIN64 then MIN64 else if x > MAX64 then MAX64 else x }

  /** Seconds from the year 1, where the clock counts from, to the Unix epoch. */
  const TO_UNIX: int := 62135596800

  /** The instant, in Unix nanoseconds, that `time.Unix(exp, 0)` denotes. */
  function ExpInstant(exp: int64): int { (Wrap(exp + TO_UNIX) - TO_UNIX) * SECOND }

  datatype Claims = Claims(ttl: Option<int64>, exp: Option<int64>)

  /** Base64url and JSON decoding of the payload, either of which may fail. */
  datatype Codec = Codec(payload: Bytes -> Option<Bytes>, claims: Bytes -> Option<Claims>)

  /** Pieces of the token between dots; a dot is byte 46. */
  function Parts(token: Bytes): (r: seq<Bytes>)
    ensures |r| > 0
  {
    if token == [] then [[]]
    else
      var rest := Parts(token[1..]);
      if token[0] == 46 then [[]] + rest else [[token[0]] + rest[0]] + rest[1..]
  }

  function Dotted(parts: seq<Bytes>): Bytes
    requires |parts| > 0
  {
    if |parts| == 1 then parts[0] else parts[0] + [46] + Dotted(parts[1..])
  }

  /** Splitting loses nothing and leaves no dot in any piece. */
  lemma {:induction false} PartsRejoin(token: Bytes)
    ensures Dotted(Parts(token)) == token
    ensures forall i :: 0 <= i < |Parts(token)| ==> 46 !in Parts(token)[i]
  {
    if token == [] {
    } else {
      var rest := Parts(token[1..]);
      PartsRejoin(token[1..]);
      assert token == [token[0]] + token[1..];
      if token[0] == 46 {
        assert Parts(token)[1..] == rest;
        assert token == [] + [46] + Dotted(rest);
      } else {
        assert Parts(token)[1..] == rest[1..];
        assert token == [token[0]] + Dotted(rest);
      }
    }
  }

  lemma {:induction false} DotFreeIsOnePart(a: Bytes)
    requires 46 !in a
    ensures Parts(a) == [a]
  {
    if a == [] {
    } else {
      DotFreeIsOnePart(a[1..]);
      assert a == [a[0]] + a[1..];
    }
  }

  lemma {:induction false} FirstPart(a: Bytes, rest: Bytes)
    requires 46 !in a
    ensures Parts(a + [46] + rest) == [a] + Parts(rest)
  {
    if a == [] {
      assert (a + [46] + rest)[1..] == rest;
    } else {
      FirstPart(a[1..], rest);
      assert (a + [46] + rest)[1..] == a[1..] + [46] + rest;
      assert a == [a[0]] + a[1..];
    }
  }

  /** A JWT's three parts are found where they were put (section 7.1 of RFC 7515). */
  lemma ThreeParts(head: Bytes, body: Bytes, sig: Bytes)
    requires 46 !in head && 46 !in body && 46 !in sig
    ensures Parts(head + [46] + body + [46] + sig) == [head, body, sig]
  {
    FirstPart(head, body + [46] + sig);
    FirstPart(body, sig);
    DotFreeIsOnePart(sig);
    assert head + [46] + body + [46] + sig == head + [46] + (body + [46] + sig);
  }

  /** The claims a token shows, if it has three parts and both decoders accept it. */
  function Shown(codec: Codec, token: Bytes): Option<Claims> {
    var parts := Parts(token);
    if |parts| != 3 then None
    else match codec.payload(parts[1])
      case None => None
      case Some(raw) => codec.claims(raw)
  }

  /** What counts is the middle part alone, whatever stands before and after it. */
  lemma ShownIsTheBody(codec: Codec, head: Bytes, body: Bytes, sig: Bytes)
    requires 46 !in head && 46 !in body && 46 !in sig
    ensures Shown(codec, head + [46] + body + [46] + sig)
      == match codec.payload(body) case None => None case Some(raw) => codec.claims(raw)
  {
    ThreeParts(head, body, sig);
  }

  /** A token shows claims only if it has the three-part form. */
  lemma ShownHasThreeParts(codec: Codec, token: Bytes)
    requires Shown(codec, token).Some?
    ensures exists head, body, sig ::
      && 46 !in head && 46 !in body && 46 !in sig && token == head + [46] + body + [46] + sig
      && codec.payload(body).Some? && codec.claims(codec.payload(body).value) == Shown(codec, token)
  {
    var parts := Parts(token);
    PartsRejoin(token);
    assert Dotted(parts) == parts[0] + [46] + Dotted(parts[1..]);
    assert Dotted(parts[1..]) == parts[1] + [46] + Dotted(parts[1..][1..]);
    assert parts[1..][1..] == [parts[2]];
    assert token == parts[0] + [46] + parts[1] + [46] + parts[2];
  }

  function HasTTL(c: Claims): bool { c.ttl.Some? && c.ttl.value > 0 }

  predicate Silent(shown: Option<Claims>) { shown.None? || (shown.value.ttl.None? && shown.value.exp.None?) }

  /** The claimed lifetime before the final clamp at zero. */
  function Claimed(c: Claims, dflt: int64, now: int): int64 {
    var base := if HasTTL(c) then Wrap(c.ttl.value * SECOND) else dflt;
    if c.exp.None? then base
    else
      var untilExp := Saturate(ExpInstant(c.exp.value) - now);
      if HasTTL(c) && base <= untilExp then base else untilExp
  }

  function Peeked(shown: Option<Claims>, dflt: int64, now: int): int64 {
    if Silent(shown) then dflt
    else if Claimed(shown.value, dflt, now) < 0 then 0
    else Claimed(shown.value, dflt, now)
  }

  method Peek(codec: Codec, token: Bytes, dflt: int64, now: int) returns (out: int64)
    ensures out == Peeked(Shown(codec, token), dflt, now)
    ensures dflt >= 0 ==> out >= 0
    ensures forall head, body, sig ::
      46 !in head && 46 !in body && 46 !in sig && token == head + [46] + body + [46] + sig ==>
        out == Peeked(match codec.payload(body) case None => None case Some(raw) => codec.claims(raw), dflt, now)
  {
    forall head: Bytes, body: Bytes, sig: Bytes |
      46 !in head && 46 !in body && 46 !in sig && token == head + [46] + body + [46] + sig
      ensures Parts(token) == [head, body, sig]
    {
      ThreeParts(head, body, sig);
    }
    var parts := Parts(token);
    if |parts| != 3 {
      return dflt;
    }
    var payload := codec.payload(parts[1]);
    if payload.None? {
      return dflt;
    }
    var claims := codec.claims(payload.value);
    if claims.None? || (claims.value.ttl.None? && claims.value.exp.None?) {
      return dflt;
    }
    out := dflt;
    var hasTTL := claims.value.ttl.Some? && claims.value.ttl.value > 0;
    if hasTTL {
      out := Wrap(claims.value.ttl.value * SECOND);
    }
    if claims.value.exp.Some? {
      var untilExp := Saturate(ExpInstant(claims.value.exp.value) - now);
      if hasTTL && untilExp < out {
        out := untilExp;
      } else if !hasTTL {
        out := untilExp;
      }
    }
    if out < 0 {
      out := 0;
    }
  }

  function Max(a: int, b: int): int { if a < b then b else a }
  function Min(a: int, b: int): int { if a < b then a else b }

  /** The largest ttl whose nanoseconds fit. */
  const LONGEST: int := 9223372036

  /** The last exp, in Unix seconds, that the clock can hold. */
  const LAST_EXP: int := 9223371974719179007

  lemma ShortIsExact(ttl: int64)
    requires 0 <= ttl <= LONGEST
    ensures Wrap(ttl * SECOND) == ttl * SECOND
  {
  }

  /** The clock reads some instant within a few hundred billion years of the epoch. */
  predicate Sane(now: int) { -0x4000_0000_0000_0000 * SECOND <= now <= 0x4000_0000_0000_0000 * SECOND }

  /** A token that shows neither claim takes the default as it is; a ttl that is not
      positive, alone, takes it too, but never below zero. */
  lemma DefaultTaken(shown: Option<Claims>, dflt: int64, now: int)
    ensures Silent(shown) ==> Peeked(shown, dflt, now) == dflt
    ensures shown.Some? && shown.value.exp.None? && shown.value.ttl.Some? && shown.value.ttl.value <= 0 ==>
      Peeked(shown, dflt, now) == Max(0, dflt)
  {
  }

  lemma WrapIsCongruent(x: int)
    ensures (x - Wrap(x)) % 0x1_0000_0000_0000_0000 == 0
  {
    var m := 0x1_0000_0000_0000_0000;
    assert x - Wrap(x) == (x - MIN64) / m * m;
  }

  /** Every case at once: a positive ttl counts as its nanoseconds modulo 2^64, in
      int64 range; exp counts as the time to it, saturated, or as the past when it is
      beyond the clock; the smaller of the two claims wins, and zero is the floor. */
  lemma ClaimsMean(c: Claims, dflt: int64, now: int) returns (ttl: int, left: int)
    requires Sane(now) && (c.ttl.Some? || c.exp.Some?)
    ensures HasTTL(c) ==> MIN64 <= ttl <= MAX64 && (c.ttl.value * SECOND - ttl) % 0x1_0000_0000_0000_0000 == 0
    ensures c.exp.Some? && c.exp.value <= LAST_EXP ==>
      left == Max(MIN64, Min(MAX64, c.exp.value * SECOND - now))
    ensures c.exp.Some? && c.exp.value > LAST_EXP ==> left < 0
    ensures Peeked(Some(c), dflt, now) == Max(0,
      if HasTTL(c) && c.exp.Some? then Min(ttl, left)
      else if HasTTL(c) then ttl
      else if c.exp.Some? then left
      else dflt)
  {
    ttl := 0;
    if HasTTL(c) {
      ttl := Wrap(c.ttl.value * SECOND);
      WrapIsCongruent(c.ttl.value * SECOND);
    }
    left := if c.exp.Some? then Saturate(ExpInstant(c.exp.value) - now) else 0;
    if c.exp.Some? {
      WrapNeverGains(c.exp.value);
    }
  }

  /** Never negative, wrapped ttl or not, unless a negative default is handed straight back. */
  lemma NeverNegativeIff(shown: Option<Claims>, dflt: int64, now: int)
    ensures Peeked(shown, dflt, now) >= 0 <==> dflt >= 0 || !Silent(shown)
  {
  }

  /** With an exp claim (section 4.1.4 of RFC 7519) the value never reaches past exp. */
  lemma ExpCaps(c: Claims, dflt: int64, now: int)
    requires c.exp.Some?
    ensures Peeked(Some(c), dflt, now) <= Max(0, c.exp.value * SECOND - now)
  {
    WrapNeverGains(c.exp.value);
  }

  lemma WrapNeverGains(exp: int64)
    ensures ExpInstant(exp) <= exp * SECOND
    ensures ExpInstant(exp) == exp * SECOND <==> exp <= LAST_EXP
    ensures exp > LAST_EXP ==> ExpInstant(exp) < -0x4000_0000_0000_0000 * SECOND
  {
  }

  /** ttl alone is honoured exactly when its nanoseconds fit in an int64. */
  lemma TtlAloneExactIff(ttl: int64, dflt: int64, now: int)
    requires ttl > 0
    ensures Peeked(Some(Claims(Some(ttl), None)), dflt, now) == ttl * SECOND <==> ttl <= LONGEST
  {
  }

  /** With a ttl that fits and an exp, the value is the smaller of the two, never below
      zero, exactly when exp does not wrap the clock. */
  lemma BothExactIff(ttl: int64, exp: int64, dflt: int64, now: int)
    requires 0 < ttl <= LONGEST && Sane(now)
    ensures Peeked(Some(Claims(Some(ttl), Some(exp))), dflt, now) == Max(0, Min(ttl * SECOND, exp * SECOND - now))
      <==> exp <= LAST_EXP
  {
    WrapNeverGains(exp);
    assert ttl * SECOND <= MAX64;
  }

  /** exp alone defines the value, exactly when it neither wraps the clock nor lies
      further ahead than a duration can say. */
  lemma ExpAloneExactIff(ttl: Option<int64>, exp: int64, dflt: int64, now: int)
    requires (ttl.Some? ==> ttl.value <= 0) && Sane(now)
    ensures Peeked(Some(Claims(ttl, Some(exp))), dflt, now) == Max(0, exp * SECOND - now)
      <==> exp <= LAST_EXP && exp * SECOND - now <= MAX64
  {
    WrapNeverGains(exp);
  }

  function Clamp(ttl: int64, lo: int64, hi: int64): (r: int64)
    ensures lo <= hi ==> lo <= r <= hi
    ensures lo <= ttl <= hi ==> r == ttl
    ensures lo <= hi && ttl <= lo ==> r == lo
    ensures lo <= hi && ttl >= hi ==> r == hi
  {
    if ttl < lo then lo else if ttl > hi then hi else ttl
  }

  /** The requested horizon reaches past exp only as far as MinTTL forces it. */
  lemma HorizonCapped(c: Claims, dflt: int64, lo: int64, hi: int64, now: int)
    requires c.exp.Some? && 0 <= lo <= hi
    ensures now + Clamp(Peeked(Some(c), dflt, now), lo, hi) <= Max(c.exp.value * SECOND, now + lo)
  {
    ExpCaps(c, dflt, now);
  }
}
