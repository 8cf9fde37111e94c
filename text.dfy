/**
 * The few Python `str` operations the core relies on, over `string` (= `seq<char>`):
 * `isspace`, `strip`, `split(sep)`, `sep.join`, `replace` of one character,
 * and `int(...)` / `str(...)` between naturals and their decimal digits.
 */
module Text {

  /** Python's `str.isspace()`: the characters `strip()`, `\s` and `\S` treat as white space. */
  predicate IsSpace(c: char) {
    c == ' ' || ('\t' <= c <= '\r') || ('\U{1C}' <= c <= '\U{1F}') || c == '\U{85}' || c == '\U{A0}'
    || c == '\U{1680}' || ('\U{2000}' <= c <= '\U{200A}') || c == '\U{2028}' || c == '\U{2029}'
    || c == '\U{202F}' || c == '\U{205F}' || c == '\U{3000}'
  }

  /** An ASCII decimal digit (`\d` restricted to ASCII). */
  predicate IsDigit(c: char) {
    '0' <= c <= '9'
  }

  predicate AllSpace(s: string) {
    forall i :: 0 <= i < |s| ==> IsSpace(s[i])
  }

  predicate AllDigits(s: string) {
    forall i :: 0 <= i < |s| ==> IsDigit(s[i])
  }

  // ---------------------------------------------------------------- strip

  /** Number of white-space characters at the start of `s`. */
  function LeadingSpaces(s: string): (n: nat)
    ensures n <= |s|
    ensures forall i :: 0 <= i < n ==> IsSpace(s[i])
    ensures n < |s| ==> !IsSpace(s[n])
    decreases |s|
  {
    if s != [] && IsSpace(s[0]) then 1 + LeadingSpaces(s[1..]) else 0
  }

  /** Number of white-space characters at the end of `s`. */
  function TrailingSpaces(s: string): (n: nat)
    ensures n <= |s|
    ensures forall i :: |s| - n <= i < |s| ==> IsSpace(s[i])
    ensures n < |s| ==> !IsSpace(s[|s| - n - 1])
    decreases |s|
  {
    if s != [] && IsSpace(s[|s| - 1]) then 1 + TrailingSpaces(s[..|s| - 1]) else 0
  }

  /** Python's `s.strip()`. */
  function Strip(s: string): (r: string)
    ensures r == [] || (!IsSpace(r[0]) && !IsSpace(r[|r| - 1]))
    ensures r == [] <==> AllSpace(s)
    ensures |r| <= |s|
    ensures forall c :: c in r ==> c in s
    ensures exists a :: 0 <= a <= |s| - |r| && r == s[a..a + |r|] && AllSpace(s[..a]) && AllSpace(s[a + |r|..])
  {
    var a := LeadingSpaces(s);
    var t := s[a..];
    var k := TrailingSpaces(t);
    var r := t[..|t| - k];
    assert r == [] ==> a == |s| by {
      if a < |s| { assert t[0] == s[a]; }
    }
    forall j | |s| - k <= j < |s| ensures IsSpace(s[j]) {
      assert s[j] == t[j - a];
    }
    StripFrame(s, a, k);
    r
  }

  /** Cutting `a` characters of white space from the front and `k` from the back leaves a slice. */
  lemma StripFrame(s: string, a: nat, k: nat)
    requires a + k <= |s|
    requires forall i :: 0 <= i < a ==> IsSpace(s[i])
    requires forall i :: |s| - k <= i < |s| ==> IsSpace(s[i])
    ensures s[a..][..|s| - a - k] == s[a..|s| - k]
    ensures AllSpace(s[..a]) && AllSpace(s[|s| - k..])
  {
  }

  /** A string that neither starts nor ends with white space is its own `strip()`. */
  lemma StripOfTrimmed(s: string)
    requires s == [] || (!IsSpace(s[0]) && !IsSpace(s[|s| - 1]))
    ensures Strip(s) == s
  {
    if s != [] {
      assert LeadingSpaces(s) == 0;
      assert TrailingSpaces(s) == 0;
    }
  }

  /** `strip()` is idempotent. */
  lemma StripIdempotent(s: string)
    ensures Strip(Strip(s)) == Strip(s)
  {
    StripOfTrimmed(Strip(s));
  }

  // ---------------------------------------------------------------- split / join

  /** Index of the first `c` in `s`, or `|s|` when there is none. */
  function IndexOf(s: string, c: char): (i: nat)
    ensures i <= |s|
    ensures i < |s| ==> s[i] == c
    ensures forall j :: 0 <= j < i ==> s[j] != c
    decreases |s|
  {
    if s == [] then 0 else if s[0] == c then 0 else 1 + IndexOf(s[1..], c)
  }

  /** Python's `s.split(sep)` for a one-character separator. */
  function Split(s: string, sep: char): (r: seq<string>)
    ensures |r| >= 1
    decreases |s|
  {
    var i := IndexOf(s, sep);
    if i == |s| then [s] else [s[..i]] + Split(s[i + 1..], sep)
  }

  /** No piece of a split contains the separator. */
  lemma {:induction false} SplitPieces(s: string, sep: char)
    ensures forall k :: 0 <= k < |Split(s, sep)| ==> sep !in Split(s, sep)[k]
    decreases |s|
  {
    var i := IndexOf(s, sep);
    if i < |s| {
      SplitPieces(s[i + 1..], sep);
      SplitAt(s, sep, i);
      assert forall c :: c in s[..i] ==> c != sep;
    }
  }

  /** Python's `sep.join(xs)`. */
  function Join(xs: seq<string>, sep: string): string
    decreases |xs|
  {
    if xs == [] then "" else if |xs| == 1 then xs[0] else xs[0] + sep + Join(xs[1..], sep)
  }

  /** Joining the pieces of a split with the separator gives the string back. */
  lemma {:induction false} JoinSplit(s: string, sep: char)
    ensures Join(Split(s, sep), [sep]) == s
    decreases |s|
  {
    var i := IndexOf(s, sep);
    if i < |s| {
      var a, b := s[..i], s[i + 1..];
      JoinSplit(b, sep);
      SplitAt(s, sep, i);
      JoinCons(a, Split(b, sep), [sep]);
      SplitPoint(s, i);
    }
  }

  lemma SplitPoint(s: string, i: nat)
    requires i < |s|
    ensures s == s[..i] + [s[i]] + s[i + 1..]
  {
  }

  lemma SplitAt(s: string, sep: char, i: nat)
    requires i == IndexOf(s, sep) && i < |s|
    ensures Split(s, sep) == [s[..i]] + Split(s[i + 1..], sep)
  {
  }

  lemma JoinCons(a: string, rest: seq<string>, sep: string)
    requires rest != []
    ensures Join([a] + rest, sep) == a + sep + Join(rest, sep)
  {
    assert ([a] + rest)[1..] == rest;
  }

  /** Splitting a join gives the pieces back when no piece contains the separator. */
  lemma {:induction false} SplitJoin(xs: seq<string>, sep: char)
    requires |xs| >= 1
    requires forall k :: 0 <= k < |xs| ==> sep !in xs[k]
    ensures Split(Join(xs, [sep]), sep) == xs
    decreases |xs|
  {
    if |xs| == 1 {
      IndexOfAbsent(xs[0], sep);
    } else {
      var s := Join(xs, [sep]);
      assert s == xs[0] + [sep] + Join(xs[1..], [sep]);
      IndexOfAfter(xs[0], sep, Join(xs[1..], [sep]));
      assert s[..|xs[0]|] == xs[0];
      assert s[|xs[0]| + 1..] == Join(xs[1..], [sep]);
      SplitJoin(xs[1..], sep);
    }
  }

  lemma IndexOfAbsent(s: string, c: char)
    requires c !in s
    ensures IndexOf(s, c) == |s|
  {
  }

  lemma IndexOfAfter(a: string, c: char, b: string)
    requires c !in a
    ensures IndexOf(a + [c] + b, c) == |a|
  {
    var s := a + [c] + b;
    assert s[|a|] == c;
    assert forall j :: 0 <= j < |a| ==> s[j] == a[j];
  }

  /** Every piece of `Split(s, sep)` is a part of `s`: the pieces are at most as long as `s`. */
  lemma {:induction false} SplitCount(s: string, sep: char)
    ensures |Split(s, sep)| <= |s| + 1
    decreases |s|
  {
    var i := IndexOf(s, sep);
    if i < |s| {
      SplitCount(s[i + 1..], sep);
    }
  }

  // ---------------------------------------------------------------- character replacement

  /** Python's `s.replace(a, b)` for single characters. */
  function ReplaceChar(s: string, a: char, b: char): (r: string)
    ensures |r| == |s|
    ensures forall i :: 0 <= i < |s| ==> r[i] == (if s[i] == a then b else s[i])
  {
    seq(|s|, i requires 0 <= i < |s| => if s[i] == a then b else s[i])
  }

  /** Python's `s.replace(c, '')` for a single character. */
  function RemoveChar(s: string, c: char): (r: string)
    ensures c !in r
    ensures forall x :: x in r <==> x in s && x != c
    ensures multiset(r) == multiset(s)[c := 0]
    decreases |s|
  {
    if s == [] then []
    else
      assert s == [s[0]] + s[1..];
      (if s[0] == c then [] else [s[0]]) + RemoveChar(s[1..], c)
  }

  lemma RemoveCharSingle(u: char, c: char)
    ensures RemoveChar([u], c) == if u == c then [] else [u]
  {
    assert [u][0] == u && [u][1..] == [];
  }

  /** Removing a character works piece by piece, keeping the order of what is left. */
  lemma {:induction false} RemoveCharAppend(x: string, y: string, c: char)
    ensures RemoveChar(x + y, c) == RemoveChar(x, c) + RemoveChar(y, c)
    decreases |x|
  {
    if x == [] {
      assert x + y == y;
    } else {
      assert (x + y)[0] == x[0] && (x + y)[1..] == x[1..] + y;
      RemoveCharAppend(x[1..], y, c);
    }
  }

  // ---------------------------------------------------------------- decimal numbers

  function DigitChar(d: nat): (c: char)
    requires d < 10
    ensures IsDigit(c)
  {
    ['0', '1', '2', '3', '4', '5', '6', '7', '8', '9'][d]
  }

  function DigitValue(c: char): (d: nat)
    requires IsDigit(c)
    ensures d < 10
  {
    (c as int - '0' as int) as nat
  }

  /** Python's `str(n)` for a natural number: its decimal digits, no leading zero. */
  function NatToString(n: nat): (r: string)
    ensures |r| >= 1 && AllDigits(r)
    ensures |r| > 1 ==> r[0] != '0'
  {
    if n < 10 then [DigitChar(n)] else NatToString(n / 10) + [DigitChar(n % 10)]
  }

  /** Python's `str(i)` for any integer. */
  function IntToString(i: int): string {
    if i < 0 then "-" + NatToString(-i) else NatToString(i)
  }

  /** Python's `int(s)` for a string of ASCII digits (leading zeros allowed). */
  function DecimalValue(s: string): nat
    requires AllDigits(s)
  {
    if s == [] then 0 else 10 * DecimalValue(s[..|s| - 1]) + DigitValue(s[|s| - 1])
  }

  /** `int(str(n)) == n`. */
  lemma {:induction false} DecimalOfNatToString(n: nat)
    ensures DecimalValue(NatToString(n)) == n
  {
    var r := NatToString(n);
    if n < 10 {
      assert r == [DigitChar(n)];
      assert r[..0] == [];
    } else {
      assert r[..|r| - 1] == NatToString(n / 10);
      DecimalOfNatToString(n / 10);
    }
  }

  /** `str(int(s)) == s` for a digit string without leading zero. */
  lemma {:induction false} NatToStringOfDecimal(s: string)
    requires |s| >= 1 && AllDigits(s) && (|s| > 1 ==> s[0] != '0')
    ensures NatToString(DecimalValue(s)) == s
    decreases |s|
  {
    var n := DecimalValue(s);
    var p := s[..|s| - 1];
    var d := DigitValue(s[|s| - 1]);
    if |s| == 1 {
      assert p == [];
      assert DigitChar(d) == s[0];
    } else {
      NatToStringOfDecimal(p);
      DecimalPositive(p);
      assert n / 10 == DecimalValue(p) && n % 10 == d;
      assert DigitChar(d) == s[|s| - 1];
      assert s == p + [s[|s| - 1]];
    }
  }

  /** A digit string without leading zero and of length at least one denotes a positive number. */
  lemma {:induction false} DecimalPositive(s: string)
    requires |s| >= 1 && AllDigits(s) && s[0] != '0'
    ensures DecimalValue(s) >= 1
    decreases |s|
  {
    if |s| > 1 {
      assert s[..|s| - 1][0] == s[0];
      DecimalPositive(s[..|s| - 1]);
    }
  }

  function Pow10(n: nat): (r: nat)
    ensures r >= 1
  {
    if n == 0 then 1 else 10 * Pow10(n - 1)
  }

  /** The value of a digit string is its first digit times its place, plus the value of the rest. */
  lemma {:induction false} DecimalLeading(x: string)
    requires |x| >= 1 && AllDigits(x)
    ensures DecimalValue(x) == DigitValue(x[0]) * Pow10(|x| - 1) + DecimalValue(x[1..])
    decreases |x|
  {
    if |x| == 1 {
      assert x[..0] == [] && x[1..] == [];
    } else {
      var n := |x|;
      var init := x[..n - 1];
      DecimalLeading(init);
      assert init[0] == x[0];
      assert init[1..] == x[1..][..n - 2];
      assert x[1..][n - 2] == x[n - 1];
      var d := DigitValue(x[0]);
      assert 10 * (d * Pow10(n - 2)) == d * Pow10(n - 1);
    }
  }

  /** Dropping the leading digit (not a zero) of a number of two or more digits makes it smaller. */
  lemma DecimalDropLeading(x: string)
    requires |x| >= 2 && AllDigits(x) && x[0] != '0'
    ensures DecimalValue(x[1..]) < DecimalValue(x)
  {
    DecimalLeading(x);
    var d := DigitValue(x[0]);
    assert d >= 1;
    ProductAtLeast(d, Pow10(|x| - 1));
  }

  lemma ProductAtLeast(d: nat, p: nat)
    requires d >= 1
    ensures d * p >= p
  {
  }

}
