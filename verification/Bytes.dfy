/** Go strings: immutable byte sequences, their literals and `strings.TrimSpace`. */
module Bytes {

  newtype Byte = b: int | 0 <= b < 0x100

  type Text = seq<Byte>

  datatype Option<+T> = None | Some(value: T)

  datatype Result<+R, +E> = Ok(value: R) | Err(error: E)

  /** The bytes of an ASCII literal (a character outside ASCII has no meaning here and reads as 0). */
  function Ascii(s: string): (t: Text)
    ensures |t| == |s|
    ensures forall i :: 0 <= i < |s| ==> t[i] < 0x80
  {
    seq(|s|, i requires 0 <= i < |s| => if s[i] < 128 as char then (s[i] as int) as Byte else 0)
  }

  predicate IsPrefixAt(t: Text, i: nat, p: Text) {
    i + |p| <= |t| && t[i..i + |p|] == p
  }

  lemma {:induction false} SliceOfPrefix(t: Text, w: nat, i: nat)
    requires w <= i <= |t|
    ensures t[..i][w..] == t[w..][..i - w] == t[w..i]
  {}

  lemma {:induction false} SliceOfConcat(a: Text, b: Text, w: nat)
    requires w <= |a|
    ensures (a + b)[..w] == a[..w] && (a + b)[w..] == a[w..] + b
  {}

  /** The UTF-8 encodings of the runes that Go's `unicode.IsSpace` accepts. */
  predicate IsSpace(t: Text) {
    match |t|
    case 1 => 9 <= t[0] <= 13 || t[0] == 0x20
    case 2 => t[0] == 0xC2 && (t[1] == 0x85 || t[1] == 0xA0)
    case 3 =>
      || (t[0] == 0xE1 && t[1] == 0x9A && t[2] == 0x80)
      || (t[0] == 0xE2 && t[1] == 0x80 && (0x80 <= t[2] <= 0x8A || t[2] == 0xA8 || t[2] == 0xA9 || t[2] == 0xAF))
      || (t[0] == 0xE2 && t[1] == 0x81 && t[2] == 0x9F)
      || (t[0] == 0xE3 && t[1] == 0x80 && t[2] == 0x80)
    case _ => false
  }

  /** Bytes of the space at the start of `t`, 0 when there is none. */
  function LeadingSpace(t: Text): (w: nat)
    ensures w <= |t|
    ensures w > 0 ==> IsSpace(t[..w])
  {
    if |t| >= 1 && IsSpace(t[..1]) then 1
    else if |t| >= 2 && IsSpace(t[..2]) then 2
    else if |t| >= 3 && IsSpace(t[..3]) then 3
    else 0
  }

  predicate SpaceAtEnd(t: Text, k: nat) {
    k <= |t| && IsSpace(t[|t| - k..])
  }

  /** Bytes of the space at the end of `t`, 0 when there is none. */
  function TrailingSpace(t: Text): (w: nat)
    ensures w <= |t|
    ensures w > 0 ==> SpaceAtEnd(t, w)
  {
    if SpaceAtEnd(t, 1) then 1
    else if SpaceAtEnd(t, 2) then 2
    else if SpaceAtEnd(t, 3) then 3
    else 0
  }

  function TrimLeft(t: Text): (r: Text)
    ensures |r| <= |t|
    ensures LeadingSpace(r) == 0
    decreases |t|
  {
    var w := LeadingSpace(t);
    if w == 0 then t else TrimLeft(t[w..])
  }

  function TrimRight(t: Text): (r: Text)
    ensures r <= t
    ensures TrailingSpace(r) == 0
    decreases |t|
  {
    var w := TrailingSpace(t);
    if w == 0 then t else TrimRight(t[..|t| - w])
  }

  /** `strings.TrimSpace`. */
  function TrimSpace(t: Text): (r: Text)
    ensures |r| <= |t|
  {
    TrimRight(TrimLeft(t))
  }

  /** Dropping a tail never uncovers a leading space. */
  lemma {:induction false} LeadingSpaceOfPrefix(t: Text, p: Text)
    requires p <= t && LeadingSpace(t) == 0
    ensures LeadingSpace(p) == 0
  {
    forall n | 1 <= n <= 3 && n <= |p|
      ensures !IsSpace(p[..n])
    {
      assert p[..n] == t[..n];
    }
  }

  /** Trimming twice trims once. */
  lemma {:induction false} TrimSpaceIdempotent(t: Text)
    ensures TrimSpace(TrimSpace(t)) == TrimSpace(t)
  {
    LeadingSpaceOfPrefix(TrimLeft(t), TrimSpace(t));
  }

  /** Nothing but spaces, one after the other. */
  ghost predicate Spaces(t: Text)
    decreases |t|
  {
    t == [] || exists w :: 0 < w <= |t| && IsSpace(t[..w]) && Spaces(t[w..])
  }

  lemma {:induction false} SpacesSnoc(a: Text, b: Text)
    requires Spaces(a) && IsSpace(b)
    ensures Spaces(a + b)
    decreases |a|
  {
    var t := a + b;
    if a == [] {
      assert t[..|b|] == b && t[|b|..] == [];
    } else {
      var w :| 0 < w <= |a| && IsSpace(a[..w]) && Spaces(a[w..]);
      SpacesSnoc(a[w..], b);
      SliceOfConcat(a, b, w);
    }
  }

  lemma {:induction false} SpacesJoin(a: Text, b: Text)
    requires IsSpace(a) && Spaces(b)
    ensures Spaces(a + b)
  {
    assert (a + b)[..|a|] == a && (a + b)[|a|..] == b;
  }

  lemma {:induction false} SplitFront(t: Text, w: nat, rest: Text, kept: Text)
    requires w <= |t| && t[w..] == rest + kept
    ensures t == t[..w] + rest + kept
  {
    assert t == t[..w] + t[w..];
    assert t[..w] + (rest + kept) == t[..w] + rest + kept;
  }

  lemma {:induction false} SplitBack(t: Text, n: nat, kept: Text, rest: Text)
    requires n <= |t| && t[..n] == kept + rest
    ensures t == kept + (rest + t[n..])
  {
    assert t == t[..n] + t[n..];
    assert kept + rest + t[n..] == kept + (rest + t[n..]);
  }

  lemma {:induction false} TrimLeftTakes(t: Text) returns (a: Text)
    ensures t == a + TrimLeft(t) && Spaces(a)
    decreases |t|
  {
    var w := LeadingSpace(t);
    if w == 0 {
      a := [];
    } else {
      var rest := TrimLeftTakes(t[w..]);
      SplitFront(t, w, rest, TrimLeft(t[w..]));
      SpacesJoin(t[..w], rest);
      a := t[..w] + rest;
    }
  }

  lemma {:induction false} TrimRightTakes(t: Text) returns (b: Text)
    ensures t == TrimRight(t) + b && Spaces(b)
    decreases |t|
  {
    var w := TrailingSpace(t);
    if w == 0 {
      b := [];
    } else {
      var n := |t| - w;
      var rest := TrimRightTakes(t[..n]);
      SplitBack(t, n, TrimRight(t[..n]), rest);
      SpacesSnoc(rest, t[n..]);
      b := rest + t[n..];
    }
  }

  /** Trimming takes spaces off both ends, nothing else, and all of them. */
  lemma {:induction false} TrimSpaceTakes(t: Text) returns (a: Text, b: Text)
    ensures t == a + (TrimSpace(t) + b) && Spaces(a) && Spaces(b)
    ensures forall n :: 0 < n <= |TrimSpace(t)| ==> !IsSpace(TrimSpace(t)[..n])
    ensures forall n :: 0 <= n < |TrimSpace(t)| ==> !IsSpace(TrimSpace(t)[n..])
  {
    a := TrimLeftTakes(t);
    b := TrimRightTakes(TrimLeft(t));
    TrimmedBare(t);
  }

  lemma {:induction false} TrimmedBare(t: Text)
    ensures forall n :: 0 < n <= |TrimSpace(t)| ==> !IsSpace(TrimSpace(t)[..n])
    ensures forall n :: 0 <= n < |TrimSpace(t)| ==> !IsSpace(TrimSpace(t)[n..])
  {
    var r := TrimSpace(t);
    LeadingSpaceOfPrefix(TrimLeft(t), r);
    NoneLeads(r);
    NoneTrails(r);
  }

  lemma {:induction false} NoneLeads(t: Text)
    requires LeadingSpace(t) == 0
    ensures forall n :: 0 < n <= |t| ==> !IsSpace(t[..n])
  {}

  lemma {:induction false} SpaceBytes(t: Text)
    requires IsSpace(t)
    ensures 1 <= |t| <= 3
    ensures !(0x21 <= t[0] < 0x80) && !(0x21 <= t[|t| - 1] < 0x80)
  {}

  lemma {:induction false} NoneTrails(t: Text)
    requires TrailingSpace(t) == 0
    ensures forall n :: 0 <= n < |t| ==> !IsSpace(t[n..])
  {
    forall n | 0 <= n < |t|
      ensures !IsSpace(t[n..])
    {
      NoneTrailsAt(t, |t| - n);
    }
  }

  lemma {:induction false} NoneTrailsAt(t: Text, k: nat)
    requires TrailingSpace(t) == 0 && 1 <= k <= |t|
    ensures !IsSpace(t[|t| - k..])
  {
    if IsSpace(t[|t| - k..]) {
      SpaceBytes(t[|t| - k..]);
      assert false;
    }
  }

  /** A text that is one space starts with a space. */
  lemma {:induction false} SpaceLeads(t: Text)
    requires IsSpace(t)
    ensures LeadingSpace(t) > 0
  {
    assert t[..|t|] == t;
  }

  /** A text that starts with no space is not blank. */
  lemma {:induction false} TrimRightNotBlank(t: Text)
    requires t != [] && LeadingSpace(t) == 0
    ensures TrimRight(t) != []
    decreases |t|
  {
    var w := TrailingSpace(t);
    if w == |t| {
      assert t[0..] == t;
      SpaceLeads(t);
      assert false;
    } else if w > 0 {
      LeadingSpaceOfPrefix(t, t[..|t| - w]);
      TrimRightNotBlank(t[..|t| - w]);
    }
  }

  lemma {:induction false} NoLeadingSpace(t: Text)
    requires t != [] && 0x21 <= t[0] < 0x80
    ensures LeadingSpace(t) == 0
  {
    var w := LeadingSpace(t);
    if w > 0 {
      SpaceBytes(t[..w]);
      assert false;
    }
  }

  lemma {:induction false} NoTrailingSpace(t: Text)
    requires t != [] && 0x21 <= t[|t| - 1] < 0x80
    ensures TrailingSpace(t) == 0
  {
    var w := TrailingSpace(t);
    if w > 0 {
      SpaceBytes(t[|t| - w..]);
      assert false;
    }
  }

  /** A text whose first and last bytes are visible has nothing to trim. */
  lemma {:induction false} TrimmedEnds(t: Text)
    requires t != [] && 0x21 <= t[0] < 0x80 && 0x21 <= t[|t| - 1] < 0x80
    ensures TrimSpace(t) == t
  {
    NoLeadingSpace(t);
    NoTrailingSpace(t);
  }

  /** No part kept from the front of a trimmed text is blank. */
  lemma {:induction false} PrefixOfTrimmed(t: Text, p: Text)
    requires TrimSpace(t) == t && p <= t && p != []
    ensures TrimSpace(p) != []
  {
    assert LeadingSpace(t) == 0;
    LeadingSpaceOfPrefix(t, p);
    TrimRightNotBlank(p);
  }

  const BRACKET: Byte := 0x5D

  /** No space ends in a bracket, so trimming never reaches past one. */
  lemma {:induction false} SpaceEnds(t: Text)
    requires IsSpace(t)
    ensures t != [] && t[|t| - 1] != BRACKET
  {}

  lemma {:induction false} TrimLeftKeepsBracket(t: Text)
    requires t != [] && t[|t| - 1] == BRACKET
    ensures TrimLeft(t) != [] && TrimLeft(t)[|TrimLeft(t)| - 1] == BRACKET
    decreases |t|
  {
    var w := LeadingSpace(t);
    if w > 0 {
      var rest := t[w..];
      SpaceEnds(t[..w]);
      assert w < |t|;
      assert rest[|rest| - 1] == BRACKET;
      TrimLeftKeepsBracket(rest);
    }
  }

  lemma {:induction false} TrimRightKeepsBracket(t: Text)
    requires t != [] && t[|t| - 1] == BRACKET
    ensures TrimRight(t) == t
  {
    var w := TrailingSpace(t);
    if w > 0 {
      SpaceEnds(t[|t| - w..]);
      assert false;
    }
  }

  lemma {:induction false} BracketIsNotBlank(t: Text)
    requires t != [] && t[|t| - 1] == BRACKET
    ensures TrimSpace(t) != []
  {
    TrimLeftKeepsBracket(t);
    TrimRightKeepsBracket(TrimLeft(t));
  }
}
