/** String operations the repository relies on from .NET: `ToLower`, `ToUpper`,
    `Trim`, `Contains`, integer formatting in interpolated strings and
    `Path.GetExtension`.  Case mapping covers the ASCII letters only. */
module Texto {

  import opened Wrappers

  // ---------------------------------------------------------------- case mapping

  function ToLowerChar(c: char): (r: char)
    ensures 'A' <= c <= 'Z' ==> r as int == c as int + 32
    ensures !('A' <= c <= 'Z') ==> r == c
  {
    if 'A' <= c <= 'Z' then (c as int + 32) as char else c
  }

  function ToUpperChar(c: char): (r: char)
    ensures 'a' <= c <= 'z' ==> r as int == c as int - 32
    ensures !('a' <= c <= 'z') ==> r == c
  {
    if 'a' <= c <= 'z' then (c as int - 32) as char else c
  }

  /** `string.ToLower()`: every character mapped, length kept. */
  function ToLower(s: string): (r: string)
    ensures |r| == |s|
    ensures forall i :: 0 <= i < |s| ==> r[i] == ToLowerChar(s[i])
  {
    if s == [] then [] else [ToLowerChar(s[0])] + ToLower(s[1..])
  }

  /** `string.ToUpper()`: every character mapped, length kept. */
  function ToUpper(s: string): (r: string)
    ensures |r| == |s|
    ensures forall i :: 0 <= i < |s| ==> r[i] == ToUpperChar(s[i])
  {
    if s == [] then [] else [ToUpperChar(s[0])] + ToUpper(s[1..])
  }

  lemma ToLowerIdempotent(s: string)
    ensures ToLower(ToLower(s)) == ToLower(s)
  {
  }

  // ---------------------------------------------------------------- trimming

  /** `char.IsWhiteSpace` on the characters this model distinguishes. */
  predicate IsWhiteSpace(c: char)
  {
    c == ' ' || c == '\t' || c == '\n' || c == '\r' || c == '\U{000B}' || c == '\U{000C}'
    || c == '\U{0085}' || c == '\U{00A0}'
  }

  predicate AllWhiteSpace(s: string)
  {
    forall i :: 0 <= i < |s| ==> IsWhiteSpace(s[i])
  }

  /** Scans forward from `k` over white space: the index of the first
      character at or after `k` that is not white space, or `|s|`. */
  function FirstNonWhite(s: string, k: nat): (n: nat)
    requires k <= |s|
    ensures k <= n <= |s|
    ensures forall x :: k <= x < n ==> IsWhiteSpace(s[x])
    ensures n == |s| || !IsWhiteSpace(s[n])
    decreases |s| - k
  {
    if k == |s| || !IsWhiteSpace(s[k]) then k else FirstNonWhite(s, k + 1)
  }

  /** Scans backward from `m` over white space: the end of the text once the
      white space before `m` is dropped. */
  function EndNonWhite(s: string, m: nat): (n: nat)
    requires m <= |s|
    ensures n <= m
    ensures forall x :: n <= x < m ==> IsWhiteSpace(s[x])
    ensures n == 0 || !IsWhiteSpace(s[n - 1])
  {
    if m == 0 || !IsWhiteSpace(s[m - 1]) then m else EndNonWhite(s, m - 1)
  }

  /** `string.Trim()`: `s` is white space, then the result, then white space,
      and the result neither starts nor ends with white space. */
  function Trim(s: string): (r: string)
    ensures exists i, j :: 0 <= i <= j <= |s| && r == s[i..j]
                           && (forall k :: 0 <= k < i ==> IsWhiteSpace(s[k]))
                           && (forall k :: j <= k < |s| ==> IsWhiteSpace(s[k]))
    ensures r == [] || (!IsWhiteSpace(r[0]) && !IsWhiteSpace(r[|r| - 1]))
  {
    var i := FirstNonWhite(s, 0);
    var j := EndNonWhite(s, |s|);
    if j <= i then
      assert s[i..i] == [];
      []
    else
      s[i..j]
  }

  /** The normalisation the catalogue applies before comparing names:
      `x.ToLower().Trim()`. */
  function Normalize(s: string): string
  {
    Trim(ToLower(s))
  }

  /** A string that is only white space (the empty string included)
      normalises to the empty string. */
  lemma NormalizeAllWhite(s: string)
    requires AllWhiteSpace(s)
    ensures Normalize(s) == []
  {
    var l := ToLower(s);
    forall k | 0 <= k < |l| ensures IsWhiteSpace(l[k]) {
      ToLowerCharBlanco(s[k]);
    }
    assert FirstNonWhite(l, 0) == |l|;
  }

  lemma TrimPadded(w: string)
    requires w != [] && !IsWhiteSpace(w[0]) && !IsWhiteSpace(w[|w| - 1])
    ensures Trim([' '] + w + [' ']) == w
  {
    var p := [' '] + w + [' '];
    assert p[0] == ' ' && p[1] == w[0];
    assert p[|p| - 1] == ' ' && p[|p| - 2] == w[|w| - 1];
    assert FirstNonWhite(p, 0) == 1;
    assert EndNonWhite(p, |p|) == |p| - 1;
    assert p[1..|p| - 1] == w;
  }

  lemma TrimPlain(w: string)
    requires w != [] && !IsWhiteSpace(w[0]) && !IsWhiteSpace(w[|w| - 1])
    ensures Trim(w) == w
  {
    assert FirstNonWhite(w, 0) == 0;
    assert EndNonWhite(w, |w|) == |w|;
    assert w[0..|w|] == w;
  }

  /** Surrounding spaces do not tell names apart: a word padded with one
      space on each side normalises to the word lower-cased, as the bare
      word does (so " Drama " and "drama" are the same name). */
  lemma NormalizePadded(w: string)
    requires w != [] && !IsWhiteSpace(w[0]) && !IsWhiteSpace(w[|w| - 1])
    ensures Normalize([' '] + w + [' ']) == Normalize(w) == ToLower(w)
  {
    var l := ToLower(w);
    ToLowerConcat([' '], w);
    ToLowerConcat([' '] + w, [' ']);
    assert ToLower([' ']) == [' '];
    assert ToLower([' '] + w + [' ']) == [' '] + l + [' '];
    ToLowerCharBlanco(w[0]);
    ToLowerCharBlanco(w[|w| - 1]);
    TrimPadded(l);
    TrimPlain(l);
  }

  /** Lower-casing neither creates nor removes white space. */
  lemma ToLowerCharBlanco(c: char)
    ensures IsWhiteSpace(ToLowerChar(c)) <==> IsWhiteSpace(c)
  {
    if 'A' <= c <= 'Z' {
      var d := ToLowerChar(c);
      assert 'a' as int <= d as int <= 'z' as int;
    }
  }

  lemma {:induction false} ToLowerConcat(a: string, b: string)
    ensures ToLower(a + b) == ToLower(a) + ToLower(b)
  {
    var l, r := ToLower(a + b), ToLower(a) + ToLower(b);
    assert |l| == |r|;
    forall i | 0 <= i < |l| ensures l[i] == r[i] {
      if i < |a| { assert (a + b)[i] == a[i]; } else { assert (a + b)[i] == b[i - |a|]; }
    }
  }

  // ---------------------------------------------------------------- substring search

  predicate StartsWith(s: string, q: string)
  {
    |q| <= |s| && s[..|q|] == q
  }

  /** `q` occurs in `s` starting at index `i`. */
  predicate OccursAt(s: string, q: string, i: int)
  {
    0 <= i && i + |q| <= |s| && s[i..i + |q|] == q
  }

  /** `string.Contains(q)`: `q` occurs in `s` at some position. */
  predicate Contains(s: string, q: string)
    ensures Contains(s, q) <==> exists i :: OccursAt(s, q, i)
    decreases |s|
  {
    if StartsWith(s, q) then
      assert OccursAt(s, q, 0);
      true
    else if s == [] then
      false
    else
      var c := Contains(s[1..], q);
      assert forall j :: OccursAt(s[1..], q, j) <==> OccursAt(s, q, j + 1) by {
        forall j ensures OccursAt(s[1..], q, j) <==> OccursAt(s, q, j + 1) {
          if 0 <= j && j + |q| <= |s| - 1 {
            assert s[1..][j..j + |q|] == s[j + 1..j + 1 + |q|];
          }
        }
      }
      assert c ==> exists i :: OccursAt(s, q, i) by {
        if c {
          var j :| OccursAt(s[1..], q, j);
          assert OccursAt(s, q, j + 1);
        }
      }
      assert (exists i :: OccursAt(s, q, i)) ==> c by {
        if exists i :: OccursAt(s, q, i) {
          var i :| OccursAt(s, q, i);
          assert i != 0;
          assert OccursAt(s[1..], q, i - 1);
        }
      }
      c
  }

  /** The empty query occurs in every string. */
  lemma ContainsEmpty(s: string)
    ensures Contains(s, [])
  {
    assert OccursAt(s, [], 0);
  }

  // ---------------------------------------------------------------- integers as text

  function DigitChar(d: nat): (c: char)
    requires d < 10
    ensures '0' <= c <= '9'
  {
    ('0' as int + d) as char
  }

  function DigitValue(c: char): nat
  {
    if '0' <= c <= '9' then c as int - '0' as int else 0
  }

  /** Decimal digits of `n`, most significant first, without leading zeros. */
  function NatToString(n: nat): (r: string)
    ensures |r| >= 1
    ensures forall i :: 0 <= i < |r| ==> '0' <= r[i] <= '9'
    ensures |r| > 1 ==> r[0] != '0'
  {
    if n < 10 then [DigitChar(n)] else NatToString(n / 10) + [DigitChar(n % 10)]
  }

  /** `int.ToString()` as string interpolation and concatenation use it. */
  function IntToString(n: int): (r: string)
    ensures |r| >= 1
    ensures n < 0 <==> r[0] == '-'
    ensures forall i :: 0 <= i < |r| ==> r[i] == '-' || '0' <= r[i] <= '9'
  {
    if n < 0 then "-" + NatToString(-n) else NatToString(n)
  }

  /** Reads back decimal digits. */
  function ParseNat(s: string): nat
  {
    if s == [] then 0 else ParseNat(s[..|s| - 1]) * 10 + DigitValue(s[|s| - 1])
  }

  function ParseInt(s: string): int
  {
    if s != [] && s[0] == '-' then -(ParseNat(s[1..]) as int) else ParseNat(s)
  }

  lemma {:induction false} ParseNatToString(n: nat)
    ensures ParseNat(NatToString(n)) == n
  {
    if n >= 10 {
      var s := NatToString(n);
      assert s[..|s| - 1] == NatToString(n / 10);
      ParseNatToString(n / 10);
    }
  }

  /** The decimal text of an integer determines it. */
  lemma IntToStringRoundTrip(n: int)
    ensures ParseInt(IntToString(n)) == n
  {
    if n < 0 {
      ParseNatToString(-n);
      assert IntToString(n)[1..] == NatToString(-n);
    } else {
      ParseNatToString(n);
    }
  }

  // ---------------------------------------------------------------- file extensions

  predicate IsDirectorySeparator(c: char)
  {
    c == '/' || c == '\\'
  }

  /** Index of the last '.' in `p[..n]` that no directory separator follows. */
  function ExtensionDot(p: string, n: nat): (r: Option<nat>)
    requires n <= |p|
    ensures r.Some? ==> r.value < n && p[r.value] == '.'
    ensures r.Some? ==> forall k :: r.value < k < n ==> p[k] != '.' && !IsDirectorySeparator(p[k])
    ensures r.None? ==> forall k :: 0 <= k < n && p[k] == '.' ==>
                          exists j :: k < j < n && IsDirectorySeparator(p[j])
  {
    if n == 0 then None
    else if p[n - 1] == '.' then Some(n - 1)
    else if IsDirectorySeparator(p[n - 1]) then None
    else ExtensionDot(p, n - 1)
  }

  /** `Path.GetExtension(p)`: the text from the last '.' of the last path
      segment to the end, dot included; empty when there is no such dot or the
      dot is the last character. */
  function GetExtension(p: string): (r: string)
    ensures |r| <= |p|
    ensures r == [] || (|r| >= 2 && r[0] == '.' && r == p[|p| - |r|..])
    ensures forall k :: 1 <= k < |r| ==> r[k] != '.' && !IsDirectorySeparator(r[k])
    ensures r == [] && p != [] && p[|p| - 1] != '.' ==>
              forall k :: 0 <= k < |p| && p[k] == '.' ==>
                exists j :: k < j < |p| && IsDirectorySeparator(p[j])
  {
    match ExtensionDot(p, |p|)
    case None => []
    case Some(i) => if i == |p| - 1 then [] else p[i..]
  }

  /** The dot found is the last one of the last segment. */
  lemma {:induction false} ExtensionDotAt(p: string, m: nat, n: nat)
    requires m < n <= |p| && p[m] == '.'
    requires forall k :: m < k < n ==> p[k] != '.' && !IsDirectorySeparator(p[k])
    ensures ExtensionDot(p, n) == Some(m)
  {
    if n - 1 != m {
      ExtensionDotAt(p, m, n - 1);
    }
  }

  /** Without any dot there is no extension dot. */
  lemma {:induction false} ExtensionDotNone(p: string, n: nat)
    requires n <= |p|
    requires forall k :: 0 <= k < n ==> p[k] != '.'
    ensures ExtensionDot(p, n) == None
  {
    if n > 0 && !IsDirectorySeparator(p[n - 1]) {
      ExtensionDotNone(p, n - 1);
    }
  }

  /** Whatever precedes it, a text that is an extension stays the extension
      once appended: the extension of `a + GetExtension(b)` is the extension
      of `b`, provided `a` has no dot when `b` has no extension. */
  lemma GetExtensionAppended(a: string, b: string)
    requires GetExtension(b) == [] ==> forall k :: 0 <= k < |a| ==> a[k] != '.'
    ensures GetExtension(a + GetExtension(b)) == GetExtension(b)
  {
    var e := GetExtension(b);
    var p := a + e;
    if e == [] {
      assert p == a;
      ExtensionDotNone(p, |p|);
    } else {
      assert p[|a|] == '.';
      forall k | |a| < k < |p|
        ensures p[k] != '.' && !IsDirectorySeparator(p[k])
      {
        assert p[k] == e[k - |a|];
      }
      ExtensionDotAt(p, |a|, |p|);
      assert p[|a|..] == e;
    }
  }

  /** A separator with no dot after it hides every earlier dot. */
  lemma {:induction false} ExtensionDotAfterSeparator(p: string, j: nat, n: nat)
    requires j < n <= |p| && IsDirectorySeparator(p[j])
    requires forall k :: j < k < n ==> p[k] != '.'
    ensures ExtensionDot(p, n) == None
  {
    if n - 1 != j && !IsDirectorySeparator(p[n - 1]) {
      ExtensionDotAfterSeparator(p, j, n - 1);
    }
  }

  lemma GetExtensionExample()
    ensures GetExtension("poster.final.jpg") == ".jpg"
    ensures GetExtension("carpeta.v2/poster") == ""
  {
    var p := "poster.final.jpg";
    assert p[12] == '.' && p[13] == 'j' && p[14] == 'p' && p[15] == 'g';
    ExtensionDotAt(p, 12, |p|);
    assert p[12..] == ".jpg";
    var q := "carpeta.v2/poster";
    assert q[10] == '/';
    assert forall k :: 10 < k < |q| ==> q[k] != '.';
    ExtensionDotAfterSeparator(q, 10, |q|);
  }

  // ---------------------------------------------------------------- ordering

  /** Ordinal (code point by code point) lexicographic order on strings. */
  predicate LessEq(a: string, b: string)
  {
    a == [] || (b != [] && (a[0] < b[0] || (a[0] == b[0] && LessEq(a[1..], b[1..]))))
  }

  lemma {:induction false} LessEqTotal(a: string, b: string)
    ensures LessEq(a, b) || LessEq(b, a)
  {
    if a != [] && b != [] && a[0] == b[0] {
      LessEqTotal(a[1..], b[1..]);
    }
  }

  lemma {:induction false} LessEqTransitive(a: string, b: string, c: string)
    requires LessEq(a, b) && LessEq(b, c)
    ensures LessEq(a, c)
  {
    if a != [] && b != [] && c != [] && a[0] == b[0] && b[0] == c[0] {
      LessEqTransitive(a[1..], b[1..], c[1..]);
    }
  }

  lemma {:induction false} LessEqAntisymmetric(a: string, b: string)
    requires LessEq(a, b) && LessEq(b, a)
    ensures a == b
  {
    if a != [] && b != [] {
      LessEqAntisymmetric(a[1..], b[1..]);
      assert a == [a[0]] + a[1..];
      assert b == [b[0]] + b[1..];
    }
  }
}
