/** The LINQ operators the repositories compose their queries from, over an
    in-memory table (a sequence of rows in table order). */
module Linq {

  import opened Wrappers
  import Texto

  /** `Enumerable.Any(p)`. */
  predicate Any<T>(s: seq<T>, p: T -> bool)
    ensures Any(s, p) <==> exists i :: 0 <= i < |s| && p(s[i])
  {
    if s == [] then false
    else
      assert forall i :: 0 <= i < |s| - 1 ==> s[1..][i] == s[i + 1];
      p(s[0]) || Any(s[1..], p)
  }

  /** `Enumerable.FirstOrDefault(p)`: the first row satisfying `p`, or null. */
  function FirstOrDefault<T>(s: seq<T>, p: T -> bool): (r: Option<T>)
    ensures r.None? <==> !Any(s, p)
    ensures r.Some? ==> exists i :: 0 <= i < |s| && s[i] == r.value && p(s[i])
                                    && forall j :: 0 <= j < i ==> !p(s[j])
  {
    if s == [] then None
    else if p(s[0]) then Some(s[0])
    else
      var r := FirstOrDefault(s[1..], p);
      assert r.Some? ==> exists i :: 0 <= i < |s| && s[i] == r.value && p(s[i])
                                     && forall j :: 0 <= j < i ==> !p(s[j]) by {
        if r.Some? {
          var i :| 0 <= i < |s| - 1 && s[1..][i] == r.value && p(s[1..][i])
                   && forall j :: 0 <= j < i ==> !p(s[1..][j]);
          assert forall j :: 0 <= j < i + 1 ==> !p(s[j]) by {
            forall j | 0 <= j < i + 1 ensures !p(s[j]) {
              if j > 0 { assert s[j] == s[1..][j - 1]; }
            }
          }
        }
      }
      r
  }

  /** `Enumerable.Where(p)`: the rows satisfying `p`, each as often as in `s`.
      The ensures give membership only; `WhereConcat` states the order kept and
      `WhereMultiset` the multiplicity. */
  function Where<T(!new)>(s: seq<T>, p: T -> bool): (r: seq<T>)
    ensures |r| <= |s|
    ensures forall x :: x in r <==> x in s && p(x)
  {
    if s == [] then []
    else
      assert s == [s[0]] + s[1..];
      if p(s[0]) then [s[0]] + Where(s[1..], p) else Where(s[1..], p)
  }

  /** `Where` keeps table order: filtering a concatenation filters each part. */
  lemma {:induction false} WhereConcat<T(!new)>(a: seq<T>, b: seq<T>, p: T -> bool)
    ensures Where(a + b, p) == Where(a, p) + Where(b, p)
  {
    if a == [] {
      assert a + b == b;
    } else {
      var ab := a + b;
      assert ab[0] == a[0] && ab[1..] == a[1..] + b;
      WhereConcat(a[1..], b, p);
      if p(a[0]) {
        calc {
          Where(ab, p);
          [a[0]] + Where(a[1..] + b, p);
          [a[0]] + (Where(a[1..], p) + Where(b, p));
          ([a[0]] + Where(a[1..], p)) + Where(b, p);
        }
      }
    }
  }

  /** `Where` keeps each passing row as many times as the table holds it and
      drops every other row. */
  lemma {:induction false} WhereMultiset<T(!new)>(s: seq<T>, p: T -> bool)
    ensures forall x :: multiset(Where(s, p))[x] == if p(x) then multiset(s)[x] else 0
  {
    if s != [] {
      WhereMultiset(s[1..], p);
      assert s == [s[0]] + s[1..];
    }
  }

  /** A filter every row passes returns the table itself. */
  lemma {:induction false} WhereAll<T(!new)>(s: seq<T>, p: T -> bool)
    requires forall i :: 0 <= i < |s| ==> p(s[i])
    ensures Where(s, p) == s
  {
    if s != [] {
      WhereAll(s[1..], p);
    }
  }

  /** `Enumerable.Select(f)`: `f` applied to every row, in order. */
  function Select<T, U>(s: seq<T>, f: T -> U): (r: seq<U>)
    ensures |r| == |s|
    ensures forall i :: 0 <= i < |s| ==> r[i] == f(s[i])
  {
    if s == [] then [] else [f(s[0])] + Select(s[1..], f)
  }

  /** Mapping one more element appends its image. */
  lemma SelectSnoc<T, U>(s: seq<T>, x: T, f: T -> U)
    ensures Select(s + [x], f) == Select(s, f) + [f(x)]
  {
    var a := Select(s + [x], f);
    var b := Select(s, f) + [f(x)];
    assert |a| == |b|;
    forall i | 0 <= i < |a|
      ensures a[i] == b[i]
    {
      if i < |s| {
        assert (s + [x])[i] == s[i];
      }
    }
  }

  /** Rows in ascending order of `key`. */
  ghost predicate SortedBy<T>(s: seq<T>, key: T -> string)
  {
    forall i, j :: 0 <= i < j < |s| ==> Texto.LessEq(key(s[i]), key(s[j]))
  }

  /** Inserts `x` into a sorted sequence, before the first row whose key is
      not below its own. */
  function InsertBy<T>(x: T, s: seq<T>, key: T -> string): (r: seq<T>)
    requires SortedBy(s, key)
    ensures SortedBy(r, key)
    ensures multiset(r) == multiset(s) + multiset{x}
  {
    if s == [] || Texto.LessEq(key(x), key(s[0])) then
      forall j | 0 <= j < |s| ensures Texto.LessEq(key(x), key(s[j])) {
        if j > 0 { Texto.LessEqTransitive(key(x), key(s[0]), key(s[j])); }
      }
      [x] + s
    else
      var t := InsertBy(x, s[1..], key);
      Texto.LessEqTotal(key(x), key(s[0]));
      assert s == [s[0]] + s[1..];
      forall k | 0 <= k < |t| ensures Texto.LessEq(key(s[0]), key(t[k])) {
        assert t[k] in multiset(t);
        if t[k] != x {
          assert t[k] in multiset(s[1..]);
          var j :| 0 <= j < |s[1..]| && s[1..][j] == t[k];
          assert s[j + 1] == t[k];
        }
      }
      [s[0]] + t
  }

  /** `Enumerable.OrderBy(key)`: a permutation of `s` sorted by `key`. */
  function OrderBy<T>(s: seq<T>, key: T -> string): (r: seq<T>)
    ensures SortedBy(r, key)
    ensures multiset(r) == multiset(s)
    ensures |r| == |s|
  {
    if s == [] then []
    else
      assert s == [s[0]] + s[1..];
      InsertBy(s[0], OrderBy(s[1..], key), key)
  }

  /** Rows whose keys are pairwise distinct (a primary key). */
  ghost predicate UniqueBy<T>(s: seq<T>, key: T -> int)
  {
    forall i, j :: 0 <= i < j < |s| ==> key(s[i]) != key(s[j])
  }

  // ---------------------------------------------------------------- keyed tables

  /** Every row with the key of `x` replaced by `x`; the rest untouched. */
  function ReplaceByKey<T>(s: seq<T>, key: T -> int, x: T): (r: seq<T>)
    ensures |r| == |s|
    ensures forall i :: 0 <= i < |s| ==> r[i] == if key(s[i]) == key(x) then x else s[i]
  {
    if s == [] then [] else [if key(s[0]) == key(x) then x else s[0]] + ReplaceByKey(s[1..], key, x)
  }

  function KeyIsNot<T>(key: T -> int, k: int): T -> bool
  {
    (y: T) => key(y) != k
  }

  /** The rows whose key differs from `k`, in table order. */
  function RemoveByKey<T(!new)>(s: seq<T>, key: T -> int, k: int): (r: seq<T>)
    ensures forall x :: x in r <==> x in s && key(x) != k
  {
    Where(s, KeyIsNot(key, k))
  }

  lemma {:induction false} UniqueByWhere<T(!new)>(s: seq<T>, key: T -> int, p: T -> bool)
    requires UniqueBy(s, key)
    ensures UniqueBy(Where(s, p), key)
  {
    if s != [] {
      UniqueByWhere(s[1..], key, p);
      var w := Where(s[1..], p);
      forall j | 0 <= j < |w| ensures key(s[0]) != key(w[j]) {
        assert w[j] in s[1..];
        var k :| 0 <= k < |s[1..]| && s[1..][k] == w[j];
        assert s[k + 1] == w[j];
      }
    }
  }

  lemma UniqueByReplace<T>(s: seq<T>, key: T -> int, x: T)
    requires UniqueBy(s, key)
    ensures UniqueBy(ReplaceByKey(s, key, x), key)
  {
    var r := ReplaceByKey(s, key, x);
    assert forall i :: 0 <= i < |s| ==> key(r[i]) == key(s[i]);
  }

  /** In a table with a primary key, removing the key of row `i` removes
      exactly that row. */
  lemma RemoveByKeyAt<T(!new)>(s: seq<T>, key: T -> int, i: int)
    requires UniqueBy(s, key) && 0 <= i < |s|
    ensures RemoveByKey(s, key, key(s[i])) == s[..i] + s[i + 1..]
  {
    var p := KeyIsNot(key, key(s[i]));
    var a, b := s[..i], s[i + 1..];
    forall j | 0 <= j < |a| ensures p(a[j]) {
      assert a[j] == s[j];
    }
    forall j | 0 <= j < |b| ensures p(b[j]) {
      assert b[j] == s[i + 1 + j];
    }
    WhereAll(a, p);
    WhereAll(b, p);
    WhereDrop(a, s[i], b, p);
    assert s == a + [s[i]] + b;
  }

  lemma WhereDrop<T(!new)>(a: seq<T>, x: T, b: seq<T>, p: T -> bool)
    requires !p(x)
    ensures Where(a + [x] + b, p) == Where(a, p) + Where(b, p)
  {
    assert [x][1..] == [];
    assert Where([x], p) == [];
    WhereConcat(a, [x], p);
    assert Where(a, p) + [] == Where(a, p);
    assert Where(a + [x], p) == Where(a, p);
    WhereConcat(a + [x], b, p);
  }

  /** Removing a key no row has leaves the table as it was. */
  lemma RemoveByKeyAbsent<T(!new)>(s: seq<T>, key: T -> int, k: int)
    requires forall i :: 0 <= i < |s| ==> key(s[i]) != k
    ensures RemoveByKey(s, key, k) == s
  {
    WhereAll(s, KeyIsNot(key, k));
  }

  /** In a table with a primary key, replacing by the key of row `i` changes
      exactly that row. */
  lemma ReplaceByKeyAt<T>(s: seq<T>, key: T -> int, x: T, i: int)
    requires UniqueBy(s, key) && 0 <= i < |s| && key(s[i]) == key(x)
    ensures ReplaceByKey(s, key, x) == s[i := x]
  {
  }
}
