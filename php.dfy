/** The few PHP language facilities the validator relies on, for string
    values: `empty()`, the `%s` directive of `sprintf`, and the decimal
    rendering of an integer when it is passed to `%s`. */
module Php {
  import opened Wrappers

  /** PHP's `empty()` (and falsiness) on a string: exactly `""` and `"0"`. */
  predicate PhpEmpty(s: string): (b: bool)
    ensures b <==> |s| <= 1 && forall i :: 0 <= i < |s| ==> s[i] == '0'
  {
    s == "" || s == "0"
  }

  // ---------------------------------------------------------------------
  // sprintf restricted to the `%s` directive
  // ---------------------------------------------------------------------

  /** Every `%` in `t` opens a `%s` directive. */
  predicate OnlyStringDirectives(t: string)
    decreases |t|
  {
    if t == [] then true
    else if t[0] == '%' then |t| >= 2 && t[1] == 's' && OnlyStringDirectives(t[2..])
    else OnlyStringDirectives(t[1..])
  }

  /** Number of `%s` directives, read left to right as `sprintf` does. */
  function Holes(t: string): nat
    decreases |t|
  {
    if |t| >= 2 && t[0] == '%' && t[1] == 's' then 1 + Holes(t[2..])
    else if t == [] then 0
    else Holes(t[1..])
  }

  /** `sprintf` accepts `t` with `arity` arguments: it only has `%s`
      directives and no more of them than there are arguments (PHP 8
      raises ArgumentCountError otherwise). */
  predicate Fits(t: string, arity: nat) {
    OnlyStringDirectives(t) && Holes(t) <= arity
  }

  /** `sprintf(t, args...)` for a template whose directives are all `%s`:
      the k-th `%s` becomes the k-th argument, everything else is copied. */
  function Format(t: string, args: seq<string>): (r: string)
    ensures '%' !in t ==> r == t
    decreases |t|
  {
    if |t| >= 2 && t[0] == '%' && t[1] == 's' then
      (if args == [] then "" else args[0]) + Format(t[2..], if args == [] then [] else args[1..])
    else if t == [] then ""
    else [t[0]] + Format(t[1..], args)
  }

  /** A prefix without `%` is copied verbatim and adds no directive. */
  lemma {:induction false} PlainPrefix(p: string, q: string, args: seq<string>)
    requires '%' !in p
    ensures Format(p + q, args) == p + Format(q, args)
    ensures Holes(p + q) == Holes(q)
    ensures OnlyStringDirectives(p + q) == OnlyStringDirectives(q)
    decreases |p|
  {
    if p != [] {
      assert p[0] in p && (p + q)[0] == p[0];
      assert (p + q)[1..] == p[1..] + q;
      PlainPrefix(p[1..], q, args);
      assert p == [p[0]] + p[1..];
    } else {
      assert p + q == q;
    }
  }

  /** A template without `%` is its own rendering, whatever the arguments. */
  lemma PlainTemplate(p: string, args: seq<string>)
    requires '%' !in p
    ensures Format(p, args) == p && Fits(p, 0)
  {
    PlainPrefix(p, "", args);
    assert p + "" == p;
  }

  /** A leading `%s` consumes exactly the first argument. */
  lemma LeadingHole(q: string, a: string, rest: seq<string>)
    ensures Format("%s" + q, [a] + rest) == a + Format(q, rest)
    ensures Holes("%s" + q) == 1 + Holes(q)
    ensures OnlyStringDirectives("%s" + q) == OnlyStringDirectives(q)
  {
    assert ("%s" + q)[2..] == q;
    assert ([a] + rest)[1..] == rest;
  }

  /** The two template shapes of the validator's message table, rendered:
      `%s<tail>` with one argument and `%s<mid>%s<tail>` with two. */
  lemma {:induction false} OneHoleTemplate(tail: string, a: string)
    requires '%' !in tail
    ensures Fits("%s" + tail, 1) && Holes("%s" + tail) == 1
    ensures Format("%s" + tail, [a]) == a + tail
  {
    assert [a] == [a] + [];
    LeadingHole(tail, a, []);
    PlainTemplate(tail, []);
  }

  lemma {:induction false} TwoHoleTemplate(mid: string, tail: string, a: string, b: string)
    requires '%' !in mid && '%' !in tail
    ensures Fits("%s" + mid + "%s" + tail, 2) && Holes("%s" + mid + "%s" + tail) == 2
    ensures Format("%s" + mid + "%s" + tail, [a, b]) == a + mid + b + tail
  {
    var afterFirst := mid + ("%s" + tail);
    assert "%s" + mid + "%s" + tail == "%s" + afterFirst;
    assert [a, b] == [a] + [b];
    LeadingHole(afterFirst, a, [b]);
    SecondHole(mid, tail, b);
  }

  /** What follows the first `%s` of a two-hole template. */
  lemma SecondHole(mid: string, tail: string, b: string)
    requires '%' !in mid && '%' !in tail
    ensures OnlyStringDirectives(mid + ("%s" + tail)) && Holes(mid + ("%s" + tail)) == 1
    ensures Format(mid + ("%s" + tail), [b]) == mid + b + tail
  {
    PlainPrefix(mid, "%s" + tail, [b]);
    OneHoleTemplate(tail, b);
  }

  // ---------------------------------------------------------------------
  // integers passed to %s
  // ---------------------------------------------------------------------

  predicate IsDigit(c: char) {
    '0' <= c <= '9'
  }

  function DigitChar(d: nat): char
    requires d < 10
  {
    ('0' as int + d) as char
  }

  function DigitValue(c: char): nat
    requires IsDigit(c)
  {
    c as int - '0' as int
  }

  /** Decimal digits of `n`, most significant first, without leading zeros. */
  function NatToString(n: nat): (r: string)
    ensures |r| >= 1 && forall i :: 0 <= i < |r| ==> IsDigit(r[i])
    ensures |r| > 1 ==> r[0] != '0'
    decreases n
  {
    if n < 10 then [DigitChar(n)] else NatToString(n / 10) + [DigitChar(n % 10)]
  }

  /** What `%s` prints for an integer argument. */
  function IntToString(n: int): (r: string)
    ensures |r| >= 1 && (r[0] == '-' <==> n < 0)
    ensures forall i :: (if n < 0 then 1 else 0) <= i < |r| ==> IsDigit(r[i])
  {
    if n < 0 then "-" + NatToString(-n) else NatToString(n)
  }

  /** The value of a string of decimal digits. */
  function DigitsValue(s: string): nat
    requires forall i :: 0 <= i < |s| ==> IsDigit(s[i])
  {
    if s == [] then 0 else 10 * DigitsValue(s[..|s| - 1]) + DigitValue(s[|s| - 1])
  }

  /** The value of an optionally negative decimal numeral. */
  function ParseInt(s: string): Option<int> {
    if |s| > 1 && s[0] == '-' && forall i :: 1 <= i < |s| ==> IsDigit(s[i]) then
      Some(-(DigitsValue(s[1..]) as int))
    else if |s| > 0 && forall i :: 0 <= i < |s| ==> IsDigit(s[i]) then
      Some(DigitsValue(s))
    else None
  }

  lemma {:induction false} NatToStringRoundTrip(n: nat)
    ensures DigitsValue(NatToString(n)) == n
    decreases n
  {
    var r := NatToString(n);
    if n >= 10 {
      NatToStringRoundTrip(n / 10);
      assert r[..|r| - 1] == NatToString(n / 10);
    }
  }

  /** The number printed into a `min`/`max` message reads back as the bound. */
  lemma IntToStringRoundTrip(n: int)
    ensures ParseInt(IntToString(n)) == Some(n)
  {
    NatToStringRoundTrip(if n < 0 then -n else n);
    if n < 0 {
      assert IntToString(n)[1..] == NatToString(-n);
    }
  }
}
