/** The orders the listings are sorted by and the sort itself.

    Every listing of the service sorts a set of member ids by a strict total
    order on ids; `SortBy` lists such a set as the unique sequence that is
    strictly ascending in that order. `StrLess` is the order SQLite's default
    BINARY collation gives TEXT values: lexicographic by code point. */
module Ordering {

  ghost predicate StrictTotal(before: (nat, nat) -> bool)
  {
    && (forall a :: !before(a, a))
    && (forall a, b, c :: before(a, b) && before(b, c) ==> before(a, c))
    && (forall a, b :: a != b ==> before(a, b) || before(b, a))
  }

  predicate Distinct(s: seq<nat>)
  {
    forall i, j :: 0 <= i < j < |s| ==> s[i] != s[j]
  }

  function Elems(s: seq<nat>): set<nat>
  {
    set x | x in s
  }

  /** `m` comes before every other element of `s`. */
  predicate IsFirst(m: nat, s: set<nat>, before: (nat, nat) -> bool)
  {
    forall y :: y in s && y != m ==> before(m, y)
  }

  lemma {:induction false} FirstExists(s: set<nat>, before: (nat, nat) -> bool)
    requires s != {}
    requires StrictTotal(before)
    ensures exists m :: m in s && IsFirst(m, s, before)
  {
    var x :| x in s;
    if s == {x} {
      assert IsFirst(x, s, before);
    } else {
      FirstExists(s - {x}, before);
      var m :| m in s - {x} && IsFirst(m, s - {x}, before);
      if before(x, m) {
        assert IsFirst(x, s, before);
      } else {
        assert before(m, x);
        assert IsFirst(m, s, before);
      }
    }
  }

  lemma FirstUnique(s: set<nat>, before: (nat, nat) -> bool)
    requires StrictTotal(before)
    ensures forall m, n :: m in s && IsFirst(m, s, before) && n in s && IsFirst(n, s, before) ==> m == n
  {
  }

  /** The elements of `s`, each exactly once, in `before` order. */
  function SortBy(s: set<nat>, before: (nat, nat) -> bool): (r: seq<nat>)
    requires StrictTotal(before)
    ensures |r| == |s|
    ensures Elems(r) == s
    ensures Distinct(r)
    ensures forall i, j :: 0 <= i < j < |r| ==> before(r[i], r[j])
    decreases s
  {
    if s == {} then []
    else
      FirstExists(s, before);
      FirstUnique(s, before);
      var m :| m in s && IsFirst(m, s, before);
      var rest := SortBy(s - {m}, before);
      PrependFirst(m, s, rest, before);
      [m] + rest
  }

  /** Putting the first element of `s` in front of a sorted listing of the
      rest lists all of `s` in order. */
  lemma PrependFirst(m: nat, s: set<nat>, rest: seq<nat>, before: (nat, nat) -> bool)
    requires m in s && IsFirst(m, s, before)
    requires |rest| == |s - {m}| && Elems(rest) == s - {m} && Distinct(rest)
    requires forall i, j :: 0 <= i < j < |rest| ==> before(rest[i], rest[j])
    ensures |[m] + rest| == |s| && Elems([m] + rest) == s && Distinct([m] + rest)
    ensures forall i, j :: 0 <= i < j < |[m] + rest| ==> before(([m] + rest)[i], ([m] + rest)[j])
  {
    assert Elems([m] + rest) == {m} + Elems(rest);
    forall j | 0 <= j < |rest|
      ensures rest[j] in s && rest[j] != m
    {
      assert rest[j] in Elems(rest);
    }
    PrependFirstOrder(m, s, rest, before);
  }

  lemma PrependFirstOrder(m: nat, s: set<nat>, rest: seq<nat>, before: (nat, nat) -> bool)
    requires IsFirst(m, s, before)
    requires forall j :: 0 <= j < |rest| ==> rest[j] in s && rest[j] != m
    requires forall i, j :: 0 <= i < j < |rest| ==> before(rest[i], rest[j])
    requires Distinct(rest)
    ensures Distinct([m] + rest)
    ensures forall i, j :: 0 <= i < j < |[m] + rest| ==> before(([m] + rest)[i], ([m] + rest)[j])
  {
    var r := [m] + rest;
    forall i, j | 0 <= i < j < |r|
      ensures r[i] != r[j] && before(r[i], r[j])
    {
      if i == 0 {
        assert r[j] == rest[j - 1];
      } else {
        assert r[i] == rest[i - 1] && r[j] == rest[j - 1];
      }
    }
  }

  /** Lexicographic order on strings: a proper prefix comes first, otherwise
      the first differing character decides. */
  predicate StrLess(a: string, b: string)
    decreases |a|
  {
    if |a| == 0 then |b| > 0
    else if |b| == 0 then false
    else a[0] < b[0] || (a[0] == b[0] && StrLess(a[1..], b[1..]))
  }

  lemma {:induction false} StrLessIrreflexive(a: string)
    ensures !StrLess(a, a)
    decreases |a|
  {
    if |a| > 0 {
      StrLessIrreflexive(a[1..]);
    }
  }

  lemma {:induction false} StrLessTransitive(a: string, b: string, c: string)
    requires StrLess(a, b) && StrLess(b, c)
    ensures StrLess(a, c)
    decreases |a|
  {
    if |a| > 0 && a[0] == b[0] && b[0] == c[0] {
      StrLessTransitive(a[1..], b[1..], c[1..]);
    }
  }

  lemma {:induction false} StrLessTotal(a: string, b: string)
    requires a != b
    ensures StrLess(a, b) || StrLess(b, a)
    decreases |a|
  {
    if |a| > 0 && |b| > 0 && a[0] == b[0] {
      assert a == [a[0]] + a[1..] && b == [b[0]] + b[1..];
      StrLessTotal(a[1..], b[1..]);
    }
  }
}
