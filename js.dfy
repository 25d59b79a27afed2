/**
 * The JavaScript built-ins the search code relies on, stated over Dafny
 * strings and sequences: `indexOf`/`includes`/`startsWith`, `split` and
 * `join` with a non-empty separator, ASCII `toLowerCase`, `parseInt` with
 * no radix, integer-to-string conversion, the `||` default of strings and
 * numbers, `Array.prototype.filter`, `slice(0, end)` and the insertion order
 * of a `Set`.
 */
module Js {
  import opened Wrappers

  // ---------------------------------------------------------------------
  // Substrings
  // ---------------------------------------------------------------------

  /** `sub` occurs in `s` starting at index `j`. */
  predicate OccursAt(s: string, sub: string, j: int) {
    0 <= j && j + |sub| <= |s| && s[j..j + |sub|] == sub
  }

  /** The first occurrence of `sub` in `s` at or after index `from`. */
  function IndexOfFrom(s: string, sub: string, from: nat): (r: Option<nat>)
    ensures r.Some? ==> from <= r.value && OccursAt(s, sub, r.value)
    ensures r.Some? ==> forall j :: from <= j < r.value ==> !OccursAt(s, sub, j)
    ensures r.None? ==> forall j :: from <= j ==> !OccursAt(s, sub, j)
    decreases |s| - from
  {
    if from + |sub| > |s| then None
    else if OccursAt(s, sub, from) then Some(from)
    else IndexOfFrom(s, sub, from + 1)
  }

  /** `s.indexOf(sub)`: the first index where `sub` occurs, None for JavaScript's -1. */
  function IndexOf(s: string, sub: string): (r: Option<nat>)
    ensures r.Some? ==> OccursAt(s, sub, r.value)
    ensures r.Some? ==> forall j :: 0 <= j < r.value ==> !OccursAt(s, sub, j)
    ensures r.None? ==> forall j :: !OccursAt(s, sub, j)
  {
    IndexOfFrom(s, sub, 0)
  }

  /** `s.includes(sub)`. */
  predicate Contains(s: string, sub: string) {
    IndexOf(s, sub).Some?
  }

  /** `s.startsWith(p)`. */
  predicate StartsWith(s: string, p: string) {
    |p| <= |s| && s[..|p|] == p
  }

  /** IndexOf is determined by the first occurrence. */
  lemma IndexOfIsFirst(s: string, sub: string, i: nat)
    requires OccursAt(s, sub, i)
    requires forall j :: 0 <= j < i ==> !OccursAt(s, sub, j)
    ensures IndexOf(s, sub) == Some(i)
  {
  }

  /** Appending text after the first occurrence does not move it. */
  lemma IndexOfExtend(a: string, b: string, sub: string, i: nat)
    requires IndexOf(a, sub) == Some(i)
    ensures IndexOf(a + b, sub) == Some(i)
  {
    assert (a + b)[i..i + |sub|] == a[i..i + |sub|];
    forall j | 0 <= j < i
      ensures !OccursAt(a + b, sub, j)
    {
      assert !OccursAt(a, sub, j);
      assert (a + b)[j..j + |sub|] == a[j..j + |sub|];
    }
    IndexOfIsFirst(a + b, sub, i);
  }

  /** A string contains anything that is written into it. */
  lemma ContainsInfix(a: string, sub: string, b: string)
    ensures Contains(a + sub + b, sub)
  {
    assert (a + sub + b)[|a|..|a| + |sub|] == sub;
    assert OccursAt(a + sub + b, sub, |a|);
  }

  /** A string contains whatever its middle part contains. */
  lemma ContainsWithin(a: string, m: string, b: string, sub: string)
    requires Contains(m, sub)
    ensures Contains(a + m + b, sub)
  {
    var i := IndexOf(m, sub).value;
    assert (a + m + b)[|a| + i..|a| + i + |sub|] == m[i..i + |sub|];
    assert OccursAt(a + m + b, sub, |a| + i);
  }

  /** Containment is transitive. */
  lemma ContainsTrans(s: string, m: string, sub: string)
    requires Contains(s, m) && Contains(m, sub)
    ensures Contains(s, sub)
  {
    var i, j := IndexOf(s, m).value, IndexOf(m, sub).value;
    forall k | 0 <= k < |sub|
      ensures s[i + j + k] == sub[k]
    {
      assert s[i + j + k] == s[i..i + |m|][j + k] == m[j + k];
      assert m[j + k] == m[j..j + |sub|][k];
    }
    assert s[i + j..i + j + |sub|] == sub;
    assert OccursAt(s, sub, i + j);
  }

  /** `sep` does not occur in `c`. */
  predicate NoSep(c: string, sep: string) {
    IndexOf(c, sep).None?
  }

  /**
   * `c` can stand before a separator: the first `sep` in `c + sep` is the
   * appended one, so splitting `c + sep + rest` cuts exactly after `c`.
   */
  predicate Delimitable(c: string, sep: string) {
    IndexOf(c + sep, sep) == Some(|c|)
  }

  lemma DelimitableHasNoSep(c: string, sep: string)
    requires |sep| > 0 && Delimitable(c, sep)
    ensures NoSep(c, sep)
  {
    if IndexOf(c, sep).Some? {
      var i := IndexOf(c, sep).value;
      IndexOfExtend(c, sep, sep, i);
    }
  }

  /**
   * Gluing two separator-free strings with a non-empty middle none of whose
   * characters occurs in the separator leaves the result separator-free.
   */
  lemma NoSepGlue(a: string, m: string, b: string, sep: string)
    requires NoSep(a, sep) && NoSep(b, sep)
    requires |m| > 0
    requires forall k :: 0 <= k < |m| ==> m[k] !in sep
    ensures NoSep(a + m + b, sep)
  {
    var s := a + m + b;
    forall j | 0 <= j
      ensures !OccursAt(s, sep, j)
    {
      if j + |sep| <= |a| {
        OccursInLeft(a, m + b, sep, j);
        assert a + m + b == a + (m + b);
        assert !OccursAt(a, sep, j);
      } else if j >= |a| + |m| {
        OccursInRight(a + m, b, sep, j);
        assert !OccursAt(b, sep, j - |a| - |m|);
      } else {
        var p := if j < |a| then |a| else j;
        OccurrenceChar(s, sep, j, p);
        assert s[p] == m[p - |a|];
      }
    }
  }

  lemma OccursInLeft(x: string, y: string, sub: string, j: nat)
    requires j + |sub| <= |x|
    ensures OccursAt(x + y, sub, j) <==> OccursAt(x, sub, j)
  {
    assert (x + y)[j..j + |sub|] == x[j..j + |sub|];
  }

  lemma OccursInRight(x: string, y: string, sub: string, j: nat)
    requires j >= |x|
    ensures OccursAt(x + y, sub, j) <==> OccursAt(y, sub, j - |x|)
  {
    if j + |sub| <= |x + y| {
      assert (x + y)[j..j + |sub|] == y[j - |x|..j - |x| + |sub|];
    }
  }

  lemma OccurrenceChar(s: string, sub: string, j: nat, p: nat)
    requires j <= p < |s|
    ensures OccursAt(s, sub, j) && p < j + |sub| ==> s[p] in sub
  {
    if OccursAt(s, sub, j) && p < j + |sub| {
      assert s[p] == s[j..j + |sub|][p - j];
    }
  }

  // ---------------------------------------------------------------------
  // split / join
  // ---------------------------------------------------------------------

  /** `s.split(sep)` for a non-empty separator: never empty; `"".split(sep)` is `[""]`. */
  function Split(s: string, sep: string): (r: seq<string>)
    requires |sep| > 0
    ensures |r| >= 1
    decreases |s|
  {
    match IndexOf(s, sep)
    case None => [s]
    case Some(i) => [s[..i]] + Split(s[i + |sep|..], sep)
  }

  /** `xs.join(sep)`; `[].join(sep)` is `""`. */
  function Join(xs: seq<string>, sep: string): string
    decreases |xs|
  {
    if |xs| == 0 then ""
    else if |xs| == 1 then xs[0]
    else xs[0] + sep + Join(xs[1..], sep)
  }

  /** A join contains each of the joined strings. */
  lemma {:induction false} JoinContains(xs: seq<string>, sep: string, i: nat)
    requires i < |xs|
    ensures Contains(Join(xs, sep), xs[i])
    decreases |xs|
  {
    if |xs| == 1 {
      ContainsInfix("", xs[0], "");
      assert "" + xs[0] + "" == xs[0];
    } else if i == 0 {
      ContainsInfix("", xs[0], sep + Join(xs[1..], sep));
      assert "" + xs[0] + (sep + Join(xs[1..], sep)) == Join(xs, sep);
    } else {
      JoinContains(xs[1..], sep, i - 1);
      ContainsWithin(xs[0] + sep, Join(xs[1..], sep), "", xs[i]);
      assert xs[0] + sep + Join(xs[1..], sep) + "" == Join(xs, sep);
    }
  }

  lemma JoinContainsAll(xs: seq<string>, sep: string)
    ensures forall i :: 0 <= i < |xs| ==> Contains(Join(xs, sep), xs[i])
  {
    forall i | 0 <= i < |xs|
      ensures Contains(Join(xs, sep), xs[i])
    {
      JoinContains(xs, sep, i);
    }
  }

  /** How a split proceeds when the separator occurs at `i`. */
  lemma SplitStep(s: string, sep: string, i: nat)
    requires |sep| > 0 && IndexOf(s, sep) == Some(i)
    ensures Split(s, sep) == [s[..i]] + Split(s[i + |sep|..], sep)
    ensures s == s[..i] + sep + s[i + |sep|..]
  {
    assert s[i..i + |sep|] == sep;
    assert s == s[..i] + s[i..i + |sep|] + s[i + |sep|..];
  }

  lemma JoinCons(x: string, xs: seq<string>, sep: string)
    requires |xs| >= 1
    ensures Join([x] + xs, sep) == x + sep + Join(xs, sep)
  {
    assert ([x] + xs)[1..] == xs;
  }

  /** Joining the pieces of a split gives back the string. */
  lemma {:induction false} JoinSplit(s: string, sep: string)
    requires |sep| > 0
    ensures Join(Split(s, sep), sep) == s
    decreases |s|
  {
    var idx := IndexOf(s, sep);
    if idx.Some? {
      var i := idx.value;
      var rest := s[i + |sep|..];
      SplitStep(s, sep, i);
      JoinSplit(rest, sep);
      JoinCons(s[..i], Split(rest, sep), sep);
    }
  }

  /**
   * The pieces a split can produce: every piece but the last can stand
   * before a separator, and the last contains none.
   */
  predicate SplitShaped(xs: seq<string>, sep: string) {
    && |xs| >= 1
    && (forall k :: 0 <= k < |xs| - 1 ==> Delimitable(xs[k], sep))
    && NoSep(xs[|xs| - 1], sep)
  }

  lemma ConsSplitShaped(x: string, xs: seq<string>, sep: string)
    requires Delimitable(x, sep) && SplitShaped(xs, sep)
    ensures SplitShaped([x] + xs, sep)
  {
    var ys := [x] + xs;
    forall k | 0 <= k < |ys| - 1
      ensures Delimitable(ys[k], sep)
    {
      if k > 0 {
        assert ys[k] == xs[k - 1];
      }
    }
    assert ys[|ys| - 1] == xs[|xs| - 1];
  }

  /** Every piece of a split but the last can stand before a separator; the last has none. */
  lemma {:induction false} SplitPieces(s: string, sep: string)
    requires |sep| > 0
    ensures SplitShaped(Split(s, sep), sep)
    decreases |s|
  {
    var idx := IndexOf(s, sep);
    if idx.Some? {
      var i := idx.value;
      var rest := s[i + |sep|..];
      SplitStep(s, sep, i);
      SplitPieces(rest, sep);
      var p := s[..i];
      forall j | 0 <= j < i
        ensures !OccursAt(p + sep, sep, j)
      {
        assert !OccursAt(s, sep, j);
        OccursInLeft(p + sep, rest, sep, j);
      }
      OccursInLeft(p + sep, rest, sep, i);
      IndexOfIsFirst(p + sep, sep, i);
      ConsSplitShaped(p, Split(rest, sep), sep);
    }
  }

  /** Splitting a join gives back the pieces, when they have the shape a split produces. */
  lemma {:induction false} SplitJoin(xs: seq<string>, sep: string)
    requires |sep| > 0 && SplitShaped(xs, sep)
    ensures Split(Join(xs, sep), sep) == xs
    decreases |xs|
  {
    if |xs| > 1 {
      var c, rest := xs[0], Join(xs[1..], sep);
      assert SplitShaped(xs[1..], sep) by {
        forall k | 0 <= k < |xs| - 2
          ensures Delimitable(xs[1..][k], sep)
        {
          assert xs[1..][k] == xs[k + 1];
        }
      }
      SplitJoin(xs[1..], sep);
      JoinCons(c, xs[1..], sep);
      assert xs == [c] + xs[1..];
      IndexOfExtend(c + sep, rest, sep, |c|);
      SplitStep(c + sep + rest, sep, |c|);
      assert (c + sep + rest)[..|c|] == c;
      assert (c + sep + rest)[|c| + |sep|..] == rest;
    }
  }

  // ---------------------------------------------------------------------
  // toLowerCase (ASCII letters only)
  // ---------------------------------------------------------------------

  function LowerChar(c: char): char {
    if 'A' <= c <= 'Z' then (c as int + 32) as char else c
  }

  /** `s.toLowerCase()` restricted to ASCII: same length, no upper-case ASCII letter left. */
  function ToLower(s: string): (r: string)
    ensures |r| == |s|
    ensures forall i :: 0 <= i < |s| ==> r[i] == LowerChar(s[i])
    ensures forall i :: 0 <= i < |r| ==> !('A' <= r[i] <= 'Z')
  {
    seq(|s|, i requires 0 <= i < |s| => LowerChar(s[i]))
  }

  /** Lower-casing works character by character, so it distributes over concatenation. */
  lemma ToLowerConcat(a: string, b: string)
    ensures ToLower(a + b) == ToLower(a) + ToLower(b)
  {
    assert forall i :: 0 <= i < |a + b| ==> ToLower(a + b)[i] == (ToLower(a) + ToLower(b))[i];
  }

  /** A string with no upper-case ASCII letter is its own lower-case form. */
  lemma ToLowerUnchanged(s: string)
    requires forall i :: 0 <= i < |s| ==> !('A' <= s[i] <= 'Z')
    ensures ToLower(s) == s
  {
  }

  /** Every string contains itself. */
  lemma ContainsSelf(s: string)
    ensures Contains(s, s)
  {
    assert OccursAt(s, s, 0);
  }

  /** A stretch of `s` at `j` that lower-cases to `sub` makes the lower-cased `s` contain `sub`. */
  lemma ContainsLowered(s: string, sub: string, j: nat)
    requires j + |sub| <= |s|
    requires forall k :: 0 <= k < |sub| ==> LowerChar(s[j + k]) == sub[k]
    ensures Contains(ToLower(s), sub)
  {
    var r := ToLower(s);
    assert r[j..j + |sub|] == sub;
    assert OccursAt(r, sub, j);
  }

  /** The upper-case partner of a lower-case ASCII letter. */
  function UpperChar(c: char): (u: char)
    requires 'a' <= c <= 'z'
    ensures 'A' <= u <= 'Z' && LowerChar(u) == c
  {
    (c as int - 32) as char
  }

  /**
   * A lower-case letter of `sub` that occurs in `s` in neither case keeps
   * `sub` out of the lower-cased `s`.
   */
  lemma NotContainsLowered(s: string, sub: string, c: char)
    requires 'a' <= c <= 'z'
    requires c in sub && c !in s && UpperChar(c) !in s
    ensures !Contains(ToLower(s), sub)
  {
    var r := ToLower(s);
    var k :| 0 <= k < |sub| && sub[k] == c;
    forall j
      ensures !OccursAt(r, sub, j)
    {
      if 0 <= j && j + |sub| <= |r| {
        assert s[j + k] != c && s[j + k] != UpperChar(c);
        assert r[j..j + |sub|][k] != sub[k];
      }
    }
  }

  /**
   * `sub` stays out of the lower-cased `a + m + b` when its first letter
   * occurs in neither `a` nor `b` (in either case), and inside `m` is never
   * followed by `sub`'s second letter (nor ends `m`).
   */
  lemma NotContainsLoweredAround(a: string, m: string, b: string, sub: string)
    requires |sub| >= 2 && 'a' <= sub[0] <= 'z' && |m| >= 1
    requires sub[0] !in a && UpperChar(sub[0]) !in a
    requires sub[0] !in b && UpperChar(sub[0]) !in b
    requires LowerChar(m[|m| - 1]) != sub[0]
    requires forall i :: 0 <= i < |m| - 1 && LowerChar(m[i]) == sub[0] ==> LowerChar(m[i + 1]) != sub[1]
    ensures !Contains(ToLower(a + m + b), sub)
  {
    var s := a + m + b;
    var r := ToLower(s);
    forall j
      ensures !OccursAt(r, sub, j)
    {
      if 0 <= j && j + |sub| <= |r| {
        assert r[j..j + |sub|][0] == r[j] && r[j..j + |sub|][1] == r[j + 1];
        if j < |a| {
          assert s[j] == a[j];
        } else if j >= |a| + |m| {
          assert s[j] == b[j - |a| - |m|];
        } else if j == |a| + |m| - 1 {
          assert s[j] == m[|m| - 1];
        } else {
          assert s[j] == m[j - |a|] && s[j + 1] == m[j - |a| + 1];
        }
      }
    }
  }

  /** A letter absent, in both cases, from three pieces is absent from their concatenation. */
  lemma LetterAbsent(s: string, a: string, b: string, c: string, lower: char)
    requires 'a' <= lower <= 'z' && s == a + b + c
    requires lower !in a && lower !in b && lower !in c
    requires UpperChar(lower) !in a && UpperChar(lower) !in b && UpperChar(lower) !in c
    ensures lower !in s && UpperChar(lower) !in s
  {
  }

  // ---------------------------------------------------------------------
  // `||` defaults
  // ---------------------------------------------------------------------

  /** A string-typed property as a JavaScript condition: missing and `""` are falsy. */
  predicate StrTruthy(x: Option<string>) {
    x.Some? && x.value != ""
  }

  /** `x || d` for a string-typed property. */
  function StrOr(x: Option<string>, d: string): (r: string)
    ensures StrTruthy(x) ==> r == x.value
    ensures !StrTruthy(x) ==> r == d
  {
    if StrTruthy(x) then x.value else d
  }

  /** `x || d` for a number-typed property: missing, 0 (and NaN, modelled as missing) are falsy. */
  function IntOr(x: Option<int>, d: int): (r: int)
    ensures x.Some? && x.value != 0 ==> r == x.value
    ensures x.None? || x.value == 0 ==> r == d
  {
    if x.Some? && x.value != 0 then x.value else d
  }

  // ---------------------------------------------------------------------
  // Arrays
  // ---------------------------------------------------------------------

  /** `s.filter(p)`: the elements satisfying `p`, in their order. */
  function Filter<T>(s: seq<T>, p: T -> bool): (r: seq<T>)
    ensures |r| <= |s|
    ensures forall i :: 0 <= i < |r| ==> r[i] in s && p(r[i])
    ensures forall i :: 0 <= i < |s| && p(s[i]) ==> s[i] in r
    decreases |s|
  {
    if s == [] then []
    else (if p(s[0]) then [s[0]] else []) + Filter(s[1..], p)
  }

  /** Filtering distributes over concatenation, so the kept elements stay in order. */
  lemma {:induction false} FilterConcat<T>(a: seq<T>, b: seq<T>, p: T -> bool)
    ensures Filter(a + b, p) == Filter(a, p) + Filter(b, p)
    decreases |a|
  {
    if a == [] {
      assert a + b == b;
    } else {
      var h := if p(a[0]) then [a[0]] else [];
      FilterConcat(a[1..], b, p);
      calc {
        Filter(a + b, p);
        == { assert (a + b)[0] == a[0]; assert (a + b)[1..] == a[1..] + b; }
        h + Filter(a[1..] + b, p);
        ==
        h + (Filter(a[1..], p) + Filter(b, p));
        ==
        (h + Filter(a[1..], p)) + Filter(b, p);
      }
    }
  }

  /** Filtering keeps a sequence whose every element passes. */
  lemma {:induction false} FilterAll<T>(s: seq<T>, p: T -> bool)
    requires forall i :: 0 <= i < |s| ==> p(s[i])
    ensures Filter(s, p) == s
    decreases |s|
  {
    if s != [] {
      FilterAll(s[1..], p);
      assert [s[0]] + s[1..] == s;
    }
  }

  /** `s.slice(0, end)`: a negative end counts back from the length. */
  function SliceTo<T>(s: seq<T>, end: int): (r: seq<T>)
    ensures end >= 0 ==> |r| == (if end < |s| then end else |s|)
    ensures end < 0 ==> |r| == (if |s| + end > 0 then |s| + end else 0)
    ensures r == s[..|r|]
  {
    if end >= 0 then (if end < |s| then s[..end] else s)
    else (if |s| + end > 0 then s[..|s| + end] else [])
  }

  /** No element appears twice. */
  predicate Distinct<T(==)>(s: seq<T>) {
    forall i, j :: 0 <= i < j < |s| ==> s[i] != s[j]
  }

  /**
   * `Array.from(set)` after `set.add(x)` for every x of `xs` in turn: a Set
   * keeps its elements in first-insertion order.
   */
  function Dedupe<T(==)>(xs: seq<T>): (r: seq<T>)
    ensures Distinct(r)
    ensures forall i :: 0 <= i < |r| ==> r[i] in xs
    ensures forall i :: 0 <= i < |xs| ==> xs[i] in r
    decreases |xs|
  {
    if xs == [] then []
    else
      var d := Dedupe(xs[..|xs| - 1]);
      assert xs == xs[..|xs| - 1] + [xs[|xs| - 1]];
      if xs[|xs| - 1] in d then d else d + [xs[|xs| - 1]]
  }

  /** Index of the first occurrence of `x` in `xs`. */
  function FirstIndex<T(==)>(xs: seq<T>, x: T): (i: nat)
    requires x in xs
    ensures i < |xs| && xs[i] == x
    ensures forall j :: 0 <= j < i ==> xs[j] != x
  {
    if xs[0] == x then 0 else 1 + FirstIndex(xs[1..], x)
  }

  lemma FirstIndexPrefix<T>(xs: seq<T>, n: nat, x: T)
    requires n <= |xs| && x in xs[..n]
    ensures FirstIndex(xs, x) == FirstIndex(xs[..n], x)
  {
    var i := FirstIndex(xs[..n], x);
    assert xs[i] == x;
    var k := FirstIndex(xs, x);
    assert k <= i;
    assert xs[..n][k] == x;
  }

  /** The Set's order is the order in which elements were first seen. */
  lemma {:induction false} DedupeFirstSeenOrder<T>(xs: seq<T>, i: nat, j: nat)
    requires i < j < |Dedupe(xs)|
    ensures FirstIndex(xs, Dedupe(xs)[i]) < FirstIndex(xs, Dedupe(xs)[j])
    decreases |xs|
  {
    var n := |xs| - 1;
    var init, last := xs[..n], xs[n];
    var d := Dedupe(init);
    assert Dedupe(xs) == if last in d then d else d + [last];
    var a, b := Dedupe(xs)[i], Dedupe(xs)[j];
    assert a == d[i];
    assert a in init;
    FirstIndexPrefix(xs, n, a);
    if j < |d| {
      assert b == d[j];
      DedupeFirstSeenOrder(init, i, j);
      FirstIndexPrefix(xs, n, b);
    } else {
      assert b == last && last !in init;
      assert FirstIndex(xs, b) == n;
    }
  }

  // ---------------------------------------------------------------------
  // Numbers and strings
  // ---------------------------------------------------------------------

  function DigitChar(d: nat): char
    requires d < 10
  {
    ('0' as int + d) as char
  }

  /** Decimal digits of a natural number, most significant first. */
  function NatToString(n: nat): (r: string)
    ensures |r| >= 1
    ensures forall i :: 0 <= i < |r| ==> '0' <= r[i] <= '9'
    decreases n
  {
    if n < 10 then [DigitChar(n)] else NatToString(n / 10) + [DigitChar(n % 10)]
  }

  /** `n.toString()` for an integer. */
  function IntToString(n: int): string {
    if n < 0 then "-" + NatToString(-n) else NatToString(n)
  }

  /** The characters `parseInt` skips at the start: white space and line terminators. */
  predicate IsJsWhitespace(c: char) {
    || c == '\t' || c == '\n' || c == '\U{B}' || c == '\U{C}' || c == '\r' || c == ' '
    || c == '\U{A0}' || c == '\U{1680}' || ('\U{2000}' <= c <= '\U{200A}')
    || c == '\U{2028}' || c == '\U{2029}' || c == '\U{202F}' || c == '\U{205F}'
    || c == '\U{3000}' || c == '\U{FEFF}'
  }

  function TrimStart(s: string): (r: string)
    ensures |r| <= |s| && r == s[|s| - |r|..]
    ensures r == [] || !IsJsWhitespace(r[0])
  {
    if s != [] && IsJsWhitespace(s[0]) then TrimStart(s[1..]) else s
  }

  /** The value of `c` as a digit in base `radix` (10 or 16). */
  function DigitValue(c: char, radix: nat): Option<nat> {
    if '0' <= c <= '9' then Some(c as int - '0' as int)
    else if radix == 16 && 'a' <= c <= 'f' then Some(c as int - 'a' as int + 10)
    else if radix == 16 && 'A' <= c <= 'F' then Some(c as int - 'A' as int + 10)
    else None
  }

  /** How many leading characters of `s` are digits in base `radix`. */
  function DigitRun(s: string, radix: nat): (k: nat)
    ensures k <= |s|
    ensures forall i :: 0 <= i < k ==> DigitValue(s[i], radix).Some?
    ensures k < |s| ==> DigitValue(s[k], radix).None?
  {
    if s != [] && DigitValue(s[0], radix).Some? then 1 + DigitRun(s[1..], radix) else 0
  }

  /** The number written by the digits `z`, most significant first. */
  function DigitsValue(z: string, radix: nat): nat
    requires forall i :: 0 <= i < |z| ==> DigitValue(z[i], radix).Some?
  {
    if z == [] then 0
    else DigitsValue(z[..|z| - 1], radix) * radix + DigitValue(z[|z| - 1], radix).value
  }

  /** The digits at the start of `w` in base `radix`, None when there are none. */
  function ParseDigits(w: string, radix: nat): Option<nat> {
    var k := DigitRun(w, radix);
    if k == 0 then None else Some(DigitsValue(w[..k], radix))
  }

  /** After the sign: `0x`/`0X` selects base 16, anything else base 10. */
  function ParseUnsigned(u: string): Option<nat> {
    if |u| >= 2 && u[0] == '0' && (u[1] == 'x' || u[1] == 'X') then ParseDigits(u[2..], 16)
    else ParseDigits(u, 10)
  }

  /** An optional sign, then the unsigned part. */
  function ParseSigned(t: string): Option<int> {
    if |t| > 0 && t[0] == '-' then
      match ParseUnsigned(t[1..])
      case None => None
      case Some(v) => Some(0 - v as int)
    else if |t| > 0 && t[0] == '+' then
      match ParseUnsigned(t[1..])
      case None => None
      case Some(v) => Some(v)
    else
      match ParseUnsigned(t)
      case None => None
      case Some(v) => Some(v)
  }

  /**
   * `parseInt(s)` with no radix: skip leading white space, an optional sign,
   * then `0x`/`0X` selects base 16; the longest run of digits is read and
   * the rest ignored. No digits at all gives NaN, here None.
   */
  function ParseInt(s: string): Option<int> {
    ParseSigned(TrimStart(s))
  }

  lemma {:induction false} DigitsValueOfNat(n: nat)
    ensures DigitsValue(NatToString(n), 10) == n
    decreases n
  {
    var z := NatToString(n);
    if n >= 10 {
      DigitsValueOfNat(n / 10);
      assert z[..|z| - 1] == NatToString(n / 10);
    }
  }

  lemma ParseDigitsOfNat(n: nat)
    ensures ParseUnsigned(NatToString(n)) == Some(n)
  {
    var z := NatToString(n);
    var k := DigitRun(z, 10);
    assert k == |z|;
    assert z[..k] == z;
    DigitsValueOfNat(n);
  }

  lemma ParseSignedNegative(z: string)
    requires |z| >= 1 && '0' <= z[0] <= '9'
    ensures ParseSigned("-" + z) == (match ParseUnsigned(z) case None => None case Some(v) => Some(0 - v as int))
  {
    assert ("-" + z)[0] == '-';
    assert ("-" + z)[1..] == z;
  }

  lemma ParseSignedDigits(z: string)
    requires |z| >= 1 && '0' <= z[0] <= '9'
    ensures ParseSigned(z) == (match ParseUnsigned(z) case None => None case Some(v) => Some(v as int))
  {
  }

  /** `parseInt('1')`, the page number the page falls back to. */
  lemma ParseIntOne()
    ensures ParseInt("1") == Some(1)
  {
    assert IntToString(1) == [DigitChar(1)] == "1";
    ParseIntToString(1);
  }

  /** `parseInt` reads back what integer-to-string conversion writes. */
  lemma ParseIntToString(n: int)
    ensures ParseInt(IntToString(n)) == Some(n)
  {
    var s := IntToString(n);
    if n >= 0 {
      var z := NatToString(n);
      assert !IsJsWhitespace(z[0]);
      assert TrimStart(z) == z;
      ParseDigitsOfNat(n);
      ParseSignedDigits(z);
    } else {
      var z := NatToString(-n);
      assert s == "-" + z;
      assert !IsJsWhitespace(s[0]);
      assert TrimStart(s) == s;
      ParseDigitsOfNat(-n);
      ParseSignedNegative(z);
    }
  }
}
