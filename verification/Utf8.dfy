/** Runes and byte-bounded truncation: the string half of logcenter/limit.go. */
module Utf8 {
  import opened Bytes

  predicate Continues(b: Byte) {
    0x80 <= b <= 0xBF
  }

  /** Two-, three- and four-byte sequences of section 3 of RFC 3629, at the start of a text. */
  predicate Rune2(t: Text) {
    |t| >= 2 && 0xC2 <= t[0] <= 0xDF && Continues(t[1])
  }

  predicate Rune3(t: Text) {
    && |t| >= 3 && 0xE0 <= t[0] <= 0xEF && Continues(t[1]) && Continues(t[2])
    && (t[0] == 0xE0 ==> t[1] >= 0xA0)
    && (t[0] == 0xED ==> t[1] <= 0x9F)
  }

  predicate Rune4(t: Text) {
    && |t| >= 4 && 0xF0 <= t[0] <= 0xF4 && Continues(t[1]) && Continues(t[2]) && Continues(t[3])
    && (t[0] == 0xF0 ==> t[1] >= 0x90)
    && (t[0] == 0xF4 ==> t[1] <= 0x8F)
  }

  /** Bytes by which Go's `range` over a string advances: one for a byte that starts no valid sequence. */
  function RuneWidth(t: Text): (w: nat)
    requires t != []
    ensures 1 <= w <= 4 && w <= |t|
  {
    if Rune2(t) then 2 else if Rune3(t) then 3 else if Rune4(t) then 4 else 1
  }

  predicate StartsWell(t: Text)
    requires t != []
  {
    t[0] < 0x80 || Rune2(t) || Rune3(t) || Rune4(t)
  }

  predicate WellFormed(t: Text)
    decreases |t|
  {
    t == [] || (StartsWell(t) && WellFormed(t[RuneWidth(t)..]))
  }

  // ----- Runes as code points

  /** The code points that have an encoding: all but the surrogates. */
  predicate IsScalar(cp: int) {
    0 <= cp < 0xD800 || 0xE000 <= cp < 0x11_0000
  }

  /** The encoding of section 3 of RFC 3629: six bits to a continuation byte, the rest in the first byte. */
  function Encode(cp: int): (t: Text)
    requires IsScalar(cp)
  {
    if cp < 0x80 then [cp as Byte]
    else if cp < 0x800 then [(0xC0 + cp / 64) as Byte, (0x80 + cp % 64) as Byte]
    else if cp < 0x1_0000 then [(0xE0 + cp / 4096) as Byte, (0x80 + cp / 64 % 64) as Byte, (0x80 + cp % 64) as Byte]
    else [(0xF0 + cp / 0x4_0000) as Byte, (0x80 + cp / 4096 % 64) as Byte, (0x80 + cp / 64 % 64) as Byte,
          (0x80 + cp % 64) as Byte]
  }

  /** Every code point's encoding is read as one rune of its own width, whatever follows. */
  lemma {:induction false} EncodingIsRune(cp: int, rest: Text)
    requires IsScalar(cp)
    ensures StartsWell(Encode(cp) + rest) && RuneWidth(Encode(cp) + rest) == |Encode(cp)|
  {
    var t := Encode(cp) + rest;
    assert forall i :: 0 <= i < |Encode(cp)| ==> t[i] == Encode(cp)[i];
  }

  function Low(b: Byte): int {
    b as int % 64
  }

  /** The code point a well-formed text starts with. */
  function CodePoint(t: Text): int
    requires t != []
  {
    if Rune2(t) then (t[0] as int - 0xC0) * 64 + Low(t[1])
    else if Rune3(t) then (t[0] as int - 0xE0) * 4096 + Low(t[1]) * 64 + Low(t[2])
    else if Rune4(t) then (t[0] as int - 0xF0) * 0x4_0000 + Low(t[1]) * 4096 + Low(t[2]) * 64 + Low(t[3])
    else t[0] as int
  }

  lemma {:induction false} SixBits(x: int, y: int)
    requires 0 <= y < 64
    ensures (x * 64 + y) / 64 == x && (x * 64 + y) % 64 == y
  {}

  lemma {:induction false} ShiftTwice(n: int)
    ensures n / 4096 == n / 64 / 64 && n / 0x4_0000 == n / 4096 / 64
  {}

  lemma {:induction false} Rune2IsEncoding(t: Text)
    requires Rune2(t)
    ensures IsScalar(CodePoint(t)) && Encode(CodePoint(t)) == t[..2]
  {
    SixBits(t[0] as int - 0xC0, Low(t[1]));
  }

  lemma {:induction false} Rune3IsEncoding(t: Text)
    requires Rune3(t)
    ensures IsScalar(CodePoint(t)) && Encode(CodePoint(t)) == t[..3]
  {
    var x, cp := (t[0] as int - 0xE0) * 64 + Low(t[1]), CodePoint(t);
    assert cp == x * 64 + Low(t[2]);
    SixBits(t[0] as int - 0xE0, Low(t[1]));
    SixBits(x, Low(t[2]));
    ShiftTwice(cp);
  }

  lemma {:induction false} Rune4IsEncoding(t: Text)
    requires Rune4(t)
    ensures IsScalar(CodePoint(t)) && Encode(CodePoint(t)) == t[..4]
  {
    var x := (t[0] as int - 0xF0) * 64 + Low(t[1]);
    var y, cp := x * 64 + Low(t[2]), CodePoint(t);
    assert cp == y * 64 + Low(t[3]);
    SixBits(t[0] as int - 0xF0, Low(t[1]));
    SixBits(x, Low(t[2]));
    SixBits(y, Low(t[3]));
    ShiftTwice(cp);
  }

  /** And every rune read from a well-formed text is the encoding of one. */
  lemma {:induction false} RuneIsEncoding(t: Text)
    requires t != [] && StartsWell(t)
    ensures IsScalar(CodePoint(t)) && Encode(CodePoint(t)) == t[..RuneWidth(t)]
  {
    if Rune2(t) {
      Rune2IsEncoding(t);
    } else if Rune3(t) {
      Rune3IsEncoding(t);
    } else if Rune4(t) {
      Rune4IsEncoding(t);
    }
  }

  /** The space code points of Go's `unicode.IsSpace`. */
  predicate IsSpacePoint(cp: int) {
    || 9 <= cp <= 13 || cp == 0x20 || cp == 0x85 || cp == 0xA0 || cp == 0x1680 || 0x2000 <= cp <= 0x200A
    || cp == 0x2028 || cp == 0x2029 || cp == 0x202F || cp == 0x205F || cp == 0x3000
  }

  /** What trimming takes for a space is the encoding of one of them. */
  lemma {:induction false} SpaceIsSpacePoint(t: Text)
    requires IsSpace(t)
    ensures StartsWell(t) && IsSpacePoint(CodePoint(t)) && t == Encode(CodePoint(t))
  {
    assert t[..|t|] == t;
    RuneIsEncoding(t);
  }

  /** And each of them is taken for one. */
  lemma {:induction false} SpacePointIsSpace(cp: int)
    requires IsSpacePoint(cp)
    ensures IsScalar(cp) && IsSpace(Encode(cp))
  {}

  /** The offset is one at which a rune starts, or the end. */
  predicate Boundary(t: Text, i: int)
    decreases |t|
  {
    i == 0 || (t != [] && i >= RuneWidth(t) && Boundary(t[RuneWidth(t)..], i - RuneWidth(t)))
  }

  /** The last boundary not beyond `max`. */
  function LastBoundary(t: Text, max: int): (end: nat)
    requires max >= 0
    ensures end <= |t| && end <= max
    decreases |t|
  {
    if t == [] || RuneWidth(t) > max then 0
    else RuneWidth(t) + LastBoundary(t[RuneWidth(t)..], max - RuneWidth(t))
  }

  lemma {:induction false} LastBoundaryIsLongest(t: Text, max: int, j: int)
    requires max >= 0
    ensures Boundary(t, LastBoundary(t, max))
    ensures Boundary(t, j) && j <= max ==> j <= LastBoundary(t, max)
    ensures max <= |t| ==> LastBoundary(t, max) >= max - 3
    decreases |t|
  {
    if t != [] && RuneWidth(t) <= max {
      LastBoundaryIsLongest(t[RuneWidth(t)..], max - RuneWidth(t), j - RuneWidth(t));
    }
  }

  ghost function LastFrom(t: Text, index: nat, max: int): int
    requires index <= |t| && index <= max
  {
    index + LastBoundary(t[index..], max - index)
  }

  lemma {:induction false} LastFromStep(t: Text, index: nat, max: int)
    requires index < |t| && index <= max
    ensures var next := index + RuneWidth(t[index..]);
            LastFrom(t, index, max) == if next > max then index else LastFrom(t, next, max)
  {
    var w := RuneWidth(t[index..]);
    assert t[index..][w..] == t[index + w..];
  }

  /** `validStringPrefix`. */
  method ValidStringPrefix(value: Text, max: int) returns (prefix: Text)
    ensures prefix == value[..if max <= 0 then 0 else if |value| <= max then |value| else LastBoundary(value, max)]
  {
    if max <= 0 {
      return [];
    }
    if |value| <= max {
      return value;
    }
    var index, end := 0, 0;
    assert value[0..] == value;
    while index < |value|
      invariant 0 <= end <= index <= |value|
      invariant LastBoundary(value, max) == if index > max then end else LastFrom(value, index, max)
      decreases |value| - index
    {
      if index > max {
        break;
      }
      LastFromStep(value, index, max);
      end := index;
      index := index + RuneWidth(value[index..]);
    }
    return value[..end];
  }

  const SUFFIX := Ascii("...[TRUNCATED]")

  function Kept(value: Text, max: int): (n: nat)
    requires max >= 0
    ensures n <= |value|
  {
    LastBoundary(value, if max <= |SUFFIX| then max else max - |SUFFIX|)
  }

  /** `truncateStringBytes`. */
  function Truncate(value: Text, max: int): (r: Text)
    ensures max > 0 ==> |r| <= max
    ensures max <= 0 || |value| <= max ==> r == value
  {
    if max <= 0 || |value| <= max then value
    else if max <= |SUFFIX| then value[..Kept(value, max)]
    else value[..Kept(value, max)] + SUFFIX
  }

  method TruncateStringBytes(value: Text, max: int) returns (r: Text)
    ensures r == Truncate(value, max)
  {
    if max <= 0 || |value| <= max {
      return value;
    }
    if max <= |SUFFIX| {
      r := ValidStringPrefix(value, max);
    } else {
      r := ValidStringPrefix(value, max - |SUFFIX|);
      r := r + SUFFIX;
    }
  }

  // ----- Well-formedness

  lemma {:induction false} RuneIsLocal(t: Text, n: nat)
    requires t != [] && StartsWell(t) && RuneWidth(t) <= n <= |t|
    ensures StartsWell(t[..n]) && RuneWidth(t[..n]) == RuneWidth(t)
  {
    var p := t[..n];
    assert p[0] == t[0];
  }

  lemma {:induction false} WellFormedPrefix(t: Text, i: nat)
    requires WellFormed(t) && Boundary(t, i) && i <= |t|
    ensures WellFormed(t[..i])
    decreases |t|
  {
    if i > 0 {
      var w := RuneWidth(t);
      WellFormedPrefix(t[w..], i - w);
      RuneIsLocal(t, i);
      SliceOfPrefix(t, w, i);
    }
  }

  lemma {:induction false} WellFormedConcat(a: Text, b: Text)
    requires WellFormed(a) && WellFormed(b)
    ensures WellFormed(a + b)
    decreases |a|
  {
    if a == [] {
      assert a + b == b;
    } else {
      var w := RuneWidth(a);
      WellFormedConcat(a[w..], b);
      RuneGrows(a, b);
      SliceOfConcat(a, b, w);
    }
  }

  lemma {:induction false} RuneGrows(a: Text, b: Text)
    requires a != [] && StartsWell(a)
    ensures StartsWell(a + b) && RuneWidth(a + b) == RuneWidth(a)
  {
    var t := a + b;
    assert forall i :: 0 <= i < |a| ==> t[i] == a[i];
  }

  lemma {:induction false} AsciiWellFormed(t: Text)
    requires forall i :: 0 <= i < |t| ==> t[i] < 0x80
    ensures WellFormed(t)
    decreases |t|
  {
    if t != [] {
      AsciiWellFormed(t[1..]);
    }
  }

  /**
    * Truncation of a text that is too long: the result fits, falls at most three bytes short, keeps the
    * longest prefix that ends on a rune boundary and leaves room for the marker (when the limit has room for
    * it at all), and is well-formed UTF-8 if the text was.
    */
  lemma {:induction false} TruncationIsSafe(value: Text, max: int)
    requires 0 < max < |value|
    ensures var r := Truncate(value, max);
            var room := if max <= |SUFFIX| then max else max - |SUFFIX|;
            && max - 3 <= |r| <= max
            && (exists k :: 0 <= k <= |value| && Boundary(value, k) && k <= room
                  && r == value[..k] + (if max <= |SUFFIX| then [] else SUFFIX)
                  && forall j :: Boundary(value, j) && j <= room ==> j <= k)
            && (WellFormed(value) ==> WellFormed(r))
  {
    var room := if max <= |SUFFIX| then max else max - |SUFFIX|;
    var k := Kept(value, max);
    LastBoundaryIsLongest(value, room, 0);
    forall j | Boundary(value, j) && j <= room
      ensures j <= k
    {
      LastBoundaryIsLongest(value, room, j);
    }
    if WellFormed(value) {
      WellFormedPrefix(value, k);
      AsciiWellFormed(SUFFIX);
      WellFormedConcat(value[..k], SUFFIX);
    }
    assert value[..k] + [] == value[..k];
  }
}
