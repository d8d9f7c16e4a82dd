/** Filtering sequences, independently of what they hold. */
module Seqs {

  function Filter<T>(s: seq<T>, keep: T -> bool): (r: seq<T>)
    ensures |r| <= |s|
  {
    if s == [] then []
    else
      var rest := Filter(s[..|s| - 1], keep);
      if keep(s[|s| - 1]) then rest + [s[|s| - 1]] else rest
  }

  lemma {:induction false} OneThenRest<T>(before: seq<T>, one: seq<T>, rest: seq<T>)
    ensures before + one + rest == before + (one + rest)
  {}

  lemma {:induction false} FromNothing<T>(s: seq<T>)
    ensures [] + s == s
  {}

  lemma {:induction false} FilterSnoc<T>(s: seq<T>, x: T, keep: T -> bool)
    ensures Filter(s + [x], keep) == Filter(s, keep) + if keep(x) then [x] else []
  {
    assert (s + [x])[..|s|] == s;
  }

  lemma {:induction false} FilterConcat<T>(s: seq<T>, t: seq<T>, keep: T -> bool)
    ensures Filter(s + t, keep) == Filter(s, keep) + Filter(t, keep)
  {
    if t == [] {
      assert s + t == s;
    } else {
      FilterConcat(s, t[..|t| - 1], keep);
      assert (s + t)[..|s + t| - 1] == s + t[..|t| - 1];
    }
  }

  lemma {:induction false} FilterSplit<T>(q: seq<T>, i: nat, keep: T -> bool)
    requires i < |q|
    ensures Filter(q, keep) == Filter(q[..i], keep) + (if keep(q[i]) then [q[i]] else []) + Filter(q[i + 1..], keep)
  {
    assert q == q[..i] + [q[i]] + q[i + 1..];
    FilterSnoc(q[..i], q[i], keep);
    FilterConcat(q[..i] + [q[i]], q[i + 1..], keep);
  }

  lemma {:induction false} FilterReplaced<T>(q: seq<T>, i: nat, x: T, keep: T -> bool)
    requires i < |q|
    ensures keep(x) && !keep(q[i]) ==> multiset(Filter(q[i := x], keep)) == multiset(Filter(q, keep)) + multiset{x}
    ensures keep(q[i]) && !keep(x) ==> |Filter(q[i := x], keep)| == |Filter(q, keep)| - 1
    ensures !keep(q[i]) && !keep(x) ==> Filter(q[i := x], keep) == Filter(q, keep)
  {
    var r := q[i := x];
    assert r[..i] == q[..i] && r[i + 1..] == q[i + 1..];
    FilterSplit(q, i, keep);
    FilterSplit(r, i, keep);
  }

  function SumOf<T>(s: seq<T>, f: T -> int): int {
    if s == [] then 0 else SumOf(s[..|s| - 1], f) + f(s[|s| - 1])
  }

  lemma {:induction false} SumSnoc<T>(s: seq<T>, x: T, f: T -> int)
    ensures SumOf(s + [x], f) == SumOf(s, f) + f(x)
  {
    assert (s + [x])[..|s|] == s;
  }

  lemma {:induction false} SumConcat<T>(s: seq<T>, t: seq<T>, f: T -> int)
    ensures SumOf(s + t, f) == SumOf(s, f) + SumOf(t, f)
  {
    if t == [] {
      assert s + t == s;
    } else {
      SumConcat(s, t[..|t| - 1], f);
      assert (s + t)[..|s + t| - 1] == s + t[..|t| - 1];
    }
  }

  lemma {:induction false} SumReplaced<T>(s: seq<T>, i: nat, x: T, f: T -> int)
    requires i < |s|
    ensures SumOf(s[i := x], f) == SumOf(s, f) - f(s[i]) + f(x)
  {
    var front := s[..|s| - 1];
    if i == |s| - 1 {
      assert s[i := x][..|s| - 1] == front;
    } else {
      SumReplaced(front, i, x, f);
      assert s[i := x][..|s| - 1] == front[i := x];
    }
  }
}
