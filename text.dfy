/**
 * The few pieces of Python string behaviour the model relies on:
 * slicing `s[:n]`, `str.replace` of one character, `str.split` and
 * `str.join` on a one-character separator, `str.lower` on ASCII,
 * `str(n)` and `int(s)` on decimal numbers, and code-point ordering.
 */
module Text {
  import opened Wrappers

  /** Python's `s[:n]`. */
  function Take(s: string, n: nat): (r: string)
    ensures r <= s
    ensures |r| == if |s| < n then |s| else n
  {
    if |s| <= n then s else s[..n]
  }

  /** Python's `s.replace(from, to)` for single characters. */
  function ReplaceChar(s: string, from: char, to: char): (r: string)
    ensures |r| == |s|
    ensures forall i :: 0 <= i < |s| ==> r[i] == (if s[i] == from then to else s[i])
  {
    if s == [] then [] else [if s[0] == from then to else s[0]] + ReplaceChar(s[1..], from, to)
  }

  /** Replacing `from` by `to` is undone by replacing `to` by `from` when `to` did not occur. */
  lemma ReplaceCharInverse(s: string, from: char, to: char)
    requires to !in s
    ensures ReplaceChar(ReplaceChar(s, from, to), to, from) == s
  {
    var r := ReplaceChar(ReplaceChar(s, from, to), to, from);
    forall i | 0 <= i < |s| ensures r[i] == s[i] {
      assert s[i] != to;
    }
  }

  /** Python's `s.split(d)`: the empty string splits into `[""]`. */
  function Split(s: string, d: char): (r: seq<string>)
    ensures |r| >= 1
    ensures forall t :: t in r ==> d !in t
    decreases |s|
  {
    if s == [] then [""]
    else if s[0] == d then [""] + Split(s[1..], d)
    else
      var rest := Split(s[1..], d);
      [[s[0]] + rest[0]] + rest[1..]
  }

  /** Python's `d.join(ts)`. */
  function Join(ts: seq<string>, d: char): string
  {
    if ts == [] then ""
    else if |ts| == 1 then ts[0]
    else ts[0] + [d] + Join(ts[1..], d)
  }

  lemma {:induction false} SplitWithoutSeparator(t: string, d: char)
    requires d !in t
    ensures Split(t, d) == [t]
    decreases |t|
  {
    if t != [] {
      SplitWithoutSeparator(t[1..], d);
      assert [t[0]] + t[1..] == t;
    }
  }

  lemma {:induction false} SplitAtSeparator(t: string, d: char, rest: string)
    requires d !in t
    ensures Split(t + [d] + rest, d) == [t] + Split(rest, d)
    decreases |t|
  {
    var s := t + [d] + rest;
    if t == [] {
      assert s[1..] == rest;
    } else {
      assert s[1..] == t[1..] + [d] + rest;
      SplitAtSeparator(t[1..], d, rest);
      assert [t[0]] + t[1..] == t;
    }
  }

  /** Splitting a join gives back the pieces, provided no piece holds the separator. */
  lemma {:induction false} SplitJoin(ts: seq<string>, d: char)
    requires |ts| >= 1
    requires forall t :: t in ts ==> d !in t
    ensures Split(Join(ts, d), d) == ts
    decreases |ts|
  {
    if |ts| == 1 {
      SplitWithoutSeparator(ts[0], d);
    } else {
      SplitJoin(ts[1..], d);
      SplitAtSeparator(ts[0], d, Join(ts[1..], d));
      assert [ts[0]] + ts[1..] == ts;
    }
  }

  /** The last element of a non-empty sequence (Python's `xs[-1]`). */
  function Last<T>(xs: seq<T>): T
    requires |xs| >= 1
  {
    xs[|xs| - 1]
  }

  /** A prefix one longer is the prefix followed by the next element. */
  lemma PrefixSnoc<T>(xs: seq<T>, i: nat)
    requires i < |xs|
    ensures xs[..i + 1] == xs[..i] + [xs[i]]
  {
  }

  /** Python's `str.lower()` restricted to ASCII letters. */
  function Lower(s: string): (r: string)
    ensures |r| == |s|
    ensures forall i :: 0 <= i < |s| ==>
      r[i] == (if 'A' <= s[i] <= 'Z' then (s[i] as int + 32) as char else s[i])
  {
    if s == [] then []
    else [if 'A' <= s[0] <= 'Z' then (s[0] as int + 32) as char else s[0]] + Lower(s[1..])
  }

  predicate IsDigit(c: char)
  {
    '0' <= c <= '9'
  }

  /** A non-empty run of decimal digits. */
  predicate IsDigits(s: string)
  {
    |s| > 0 && forall i :: 0 <= i < |s| ==> IsDigit(s[i])
  }

  function DigitChar(d: nat): char
    requires d < 10
  {
    (48 + d) as char
  }

  /** The number a string of decimal digits denotes. */
  function DigitsValue(s: string): nat
    requires forall i :: 0 <= i < |s| ==> IsDigit(s[i])
  {
    if s == [] then 0
    else
      assert IsDigit(s[|s| - 1]);
      DigitsValue(s[..|s| - 1]) * 10 + (s[|s| - 1] as int - 48)
  }

  /** Python's `str(n)` for a natural number. */
  function NatToString(n: nat): (r: string)
    ensures IsDigits(r)
    ensures DigitsValue(r) == n
    ensures '-' !in r && ',' !in r
  {
    if n < 10 then [DigitChar(n)]
    else
      var r := NatToString(n / 10) + [DigitChar(n % 10)];
      assert r[..|r| - 1] == NatToString(n / 10);
      r
  }

  /** Python's `str(i)` for an integer. */
  function IntToString(i: int): string
  {
    if i < 0 then "-" + NatToString(-i) else NatToString(i)
  }

  /** Python's `int(s)` on plain decimal digits; anything else is rejected. */
  function ParseNat(s: string): (r: Option<nat>)
    ensures r.Some? <==> IsDigits(s)
  {
    if IsDigits(s) then Some(DigitsValue(s)) else None
  }

  lemma ParseNatToString(n: nat)
    ensures ParseNat(NatToString(n)) == Some(n)
  {
  }

  /** Python's `<` on strings: lexicographic by code point. */
  predicate LexLess(a: string, b: string)
  {
    if a == [] then b != []
    else if b == [] then false
    else if a[0] != b[0] then a[0] < b[0]
    else LexLess(a[1..], b[1..])
  }

  lemma {:induction false} LexLessIrreflexive(a: string)
    ensures !LexLess(a, a)
    decreases |a|
  {
    if a != [] {
      LexLessIrreflexive(a[1..]);
    }
  }

  lemma {:induction false} LexLessTransitive(a: string, b: string, c: string)
    requires LexLess(a, b) && LexLess(b, c)
    ensures LexLess(a, c)
    decreases |a|
  {
    if a != [] && b != [] && c != [] && a[0] == b[0] && b[0] == c[0] {
      LexLessTransitive(a[1..], b[1..], c[1..]);
    }
  }

  lemma {:induction false} LexLessTotal(a: string, b: string)
    ensures a == b || LexLess(a, b) || LexLess(b, a)
    decreases |a|
  {
    if a != [] && b != [] && a[0] == b[0] {
      LexLessTotal(a[1..], b[1..]);
      if a[1..] == b[1..] {
        assert a == [a[0]] + a[1..] && b == [b[0]] + b[1..];
      }
    }
  }

  lemma LexLessAsymmetric(a: string, b: string)
    requires LexLess(a, b)
    ensures !LexLess(b, a)
  {
    if LexLess(b, a) {
      LexLessTransitive(a, b, a);
      LexLessIrreflexive(a);
    }
  }
}
