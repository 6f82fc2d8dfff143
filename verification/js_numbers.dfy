/**
  JavaScript's string-to-number conversions as the services use them:
  `Number(s)` for query parameters and `parseInt(s, 10)` for the top-game
  limit. Both skip JavaScript white space (`Number` on both sides,
  `parseInt` in front) and read integer notation: an optional sign and
  decimal digits. `NaN` is a value of its own so that comparisons with it
  can be modelled: every ordering comparison with `NaN` is false.
 */
module JsNumbers {
  import opened Common

  datatype Num = NaN | Val(v: int)

  predicate IsDigit(c: char) {
    '0' <= c <= '9'
  }

  predicate AllDigits(s: string) {
    forall i :: 0 <= i < |s| ==> IsDigit(s[i])
  }

  function DigitValue(c: char): nat
    requires IsDigit(c)
  {
    (c as int - '0' as int) as nat
  }

  function DigitChar(d: nat): (c: char)
    requires d < 10
    ensures IsDigit(c) && DigitValue(c) == d
  {
    ('0' as int + d) as char
  }

  /** The value of a run of decimal digits, most significant first. */
  function DigitsValue(s: string): nat
    requires AllDigits(s)
  {
    if s == [] then 0 else DigitsValue(s[..|s| - 1]) * 10 + DigitValue(s[|s| - 1])
  }

  /** The longest prefix of `s` made of digits. */
  function LeadingDigits(s: string): (r: string)
    ensures |r| <= |s| && r == s[..|r|]
    ensures AllDigits(r)
    ensures |r| < |s| ==> !IsDigit(s[|r|])
  {
    if s == [] || !IsDigit(s[0]) then [] else [s[0]] + LeadingDigits(s[1..])
  }

  /** `s` without its leading white space (see `TrimStartDrops`). */
  function TrimStart(s: string): string {
    if s != [] && IsWhiteSpace(s[0] as int) then TrimStart(s[1..]) else s
  }

  /** `s` without its trailing white space (see `TrimEndDrops`). */
  function TrimEnd(s: string): string {
    if s != [] && IsWhiteSpace(s[|s| - 1] as int) then TrimEnd(s[..|s| - 1]) else s
  }

  /** Trimming the front keeps a suffix that does not start with white
      space and drops only white space. */
  lemma {:induction false} TrimStartDrops(s: string)
    ensures var r := TrimStart(s);
            && |r| <= |s| && r == s[|s| - |r|..]
            && (r == [] || !IsWhiteSpace(r[0] as int))
            && forall i :: 0 <= i < |s| - |r| ==> IsWhiteSpace(s[i] as int)
  {
    if s != [] && IsWhiteSpace(s[0] as int) {
      TrimStartDrops(s[1..]);
      var r := TrimStart(s);
      assert r == TrimStart(s[1..]);
      forall i | 0 <= i < |s| - |r| ensures IsWhiteSpace(s[i] as int) {
        if i > 0 { assert s[i] == s[1..][i - 1]; }
      }
    }
  }

  /** Trimming the back keeps a prefix that does not end with white space
      and drops only white space. */
  lemma {:induction false} TrimEndDrops(s: string)
    ensures var r := TrimEnd(s);
            && |r| <= |s| && r == s[..|r|]
            && (r == [] || !IsWhiteSpace(r[|r| - 1] as int))
            && forall i :: |r| <= i < |s| ==> IsWhiteSpace(s[i] as int)
  {
    if s != [] && IsWhiteSpace(s[|s| - 1] as int) {
      var s' := s[..|s| - 1];
      TrimEndDrops(s');
      var r := TrimEnd(s);
      assert r == TrimEnd(s');
      forall i | |r| <= i < |s| ensures IsWhiteSpace(s[i] as int) {
        if i < |s| - 1 { assert s[i] == s'[i]; }
      }
    }
  }

  /** A numeric literal after trimming: the empty string is 0, a signed
      digit run is its value, anything else is `NaN`. */
  function NumericLiteral(s: string): Num {
    if s == [] then Val(0)
    else if s[0] == '-' || s[0] == '+' then
      var d := s[1..];
      if d != [] && AllDigits(d) then Val(if s[0] == '-' then -(DigitsValue(d) as int) else DigitsValue(d) as int) else NaN
    else if AllDigits(s) then Val(DigitsValue(s))
    else NaN
  }

  /** `Number(s)`: the literal between the surrounding white space. */
  function ToNumber(s: string): Num {
    NumericLiteral(TrimEnd(TrimStart(s)))
  }

  /** `parseInt(s, 10)`: leading white space, then `ParseDigits`. */
  function ParseInt(s: string): Num {
    ParseDigits(TrimStart(s))
  }

  /** An optional sign and the longest digit prefix; `NaN` when no digit
      follows the sign. */
  function ParseDigits(t: string): Num {
    var signed := t != [] && (t[0] == '-' || t[0] == '+');
    var body := if signed then t[1..] else t;
    var d := LeadingDigits(body);
    if d == [] then NaN
    else Val(if signed && t[0] == '-' then -(DigitsValue(d) as int) else DigitsValue(d) as int)
  }

  /** Every character of `s` is white space. */
  predicate AllWhiteSpace(s: string) {
    forall i :: 0 <= i < |s| ==> IsWhiteSpace(s[i] as int)
  }

  /** Leading white space is skipped up to the first other character. */
  lemma {:induction false} TrimStartSkips(pre: string, x: string)
    requires AllWhiteSpace(pre)
    requires x == [] || !IsWhiteSpace(x[0] as int)
    ensures TrimStart(pre + x) == x
  {
    if pre != [] {
      assert (pre + x)[1..] == pre[1..] + x;
      TrimStartSkips(pre[1..], x);
    } else {
      assert pre + x == x;
    }
  }

  /** Trailing white space is skipped back to the last other character. */
  lemma {:induction false} TrimEndSkips(x: string, post: string)
    requires AllWhiteSpace(post)
    requires x == [] || !IsWhiteSpace(x[|x| - 1] as int)
    ensures TrimEnd(x + post) == x
  {
    if post != [] {
      var s := x + post;
      assert s[..|s| - 1] == x + post[..|post| - 1];
      assert s[|s| - 1] == post[|post| - 1];
      TrimEndSkips(x, post[..|post| - 1]);
    } else {
      assert x + post == x;
    }
  }

  /** JavaScript truthiness of a number: non-zero and not `NaN`. */
  predicate NumTruthy(n: Num) {
    n.Val? && n.v != 0
  }

  /** Decimal notation of a natural number, no leading zeros. */
  function Decimal(n: nat): (r: string)
    ensures |r| >= 1 && AllDigits(r)
  {
    if n < 10 then [DigitChar(n)] else Decimal(n / 10) + [DigitChar(n % 10)]
  }

  /** Decimal notation of an integer, with a leading `-` when negative. */
  function Render(i: int): string {
    if i < 0 then "-" + Decimal(-i) else Decimal(i)
  }

  lemma {:induction false} DecimalValue(n: nat)
    ensures DigitsValue(Decimal(n)) == n
  {
    if n >= 10 {
      var r := Decimal(n);
      var a := Decimal(n / 10);
      assert r == a + [DigitChar(n % 10)];
      assert r[..|r| - 1] == a;
      DecimalValue(n / 10);
    }
  }

  /** A decimal rendering starts and ends with a character that is not
      white space. */
  lemma RenderEnds(i: int)
    ensures |Render(i)| >= 1
    ensures !IsWhiteSpace(Render(i)[0] as int)
    ensures IsDigit(Render(i)[|Render(i)| - 1])
  {
    if i < 0 {
      var d := Decimal(-i);
      assert Render(i)[|Render(i)| - 1] == d[|d| - 1];
    }
  }

  /** Trimming removes exactly the white space around a text that starts
      and ends with other characters. */
  lemma TrimAround(pre: string, x: string, post: string)
    requires AllWhiteSpace(pre) && AllWhiteSpace(post)
    requires x != [] && !IsWhiteSpace(x[0] as int) && !IsWhiteSpace(x[|x| - 1] as int)
    ensures TrimEnd(TrimStart(pre + x + post)) == x
  {
    assert pre + x + post == pre + (x + post);
    assert (x + post)[0] == x[0];
    TrimStartSkips(pre, x + post);
    TrimEndSkips(x, post);
  }

  /** The literal of a decimal rendering is the rendered integer. */
  lemma NumericLiteralOfRender(i: int)
    ensures NumericLiteral(Render(i)) == Val(i)
  {
    var r := Render(i);
    if i < 0 {
      DecimalValue(-i);
      assert r[1..] == Decimal(-i);
    } else {
      DecimalValue(i);
      assert r[0] != '-' && r[0] != '+' by { assert IsDigit(r[0]); }
    }
  }

  /** `Number` reads back every integer it is given in decimal notation,
      with any white space around it. */
  lemma ToNumberOfRender(i: int, pre: string, post: string)
    requires AllWhiteSpace(pre) && AllWhiteSpace(post)
    ensures ToNumber(pre + Render(i) + post) == Val(i)
  {
    RenderEnds(i);
    TrimAround(pre, Render(i), post);
    NumericLiteralOfRender(i);
  }

  /** `parseInt` reads back every integer it is given in decimal notation,
      skips the white space before it and ignores whatever non-digit text
      follows it. */
  lemma ParseIntOfRender(i: int, pre: string, suffix: string)
    requires AllWhiteSpace(pre)
    requires suffix == [] || !IsDigit(suffix[0])
    ensures ParseInt(pre + Render(i) + suffix) == Val(i)
  {
    var x := Render(i) + suffix;
    RenderEnds(i);
    assert x[0] == Render(i)[0];
    TrimStartSkips(pre, x);
    assert pre + Render(i) + suffix == pre + x;
    ParseDigitsOfRender(i, suffix);
  }

  /** Without leading white space, the digits of a rendering followed by a
      non-digit read back as the rendered integer. */
  lemma ParseDigitsOfRender(i: int, suffix: string)
    requires suffix == [] || !IsDigit(suffix[0])
    ensures ParseDigits(Render(i) + suffix) == Val(i)
  {
    if i < 0 {
      DecimalValue(-i);
      ParseDigitsNegativeRun(Decimal(-i), suffix);
      assert Render(i) + suffix == "-" + Decimal(-i) + suffix;
    } else {
      DecimalValue(i);
      ParseDigitsRun(Decimal(i), suffix);
    }
  }

  /** A digit run followed by a non-digit reads as the run's value. */
  lemma ParseDigitsRun(d: string, suffix: string)
    requires d != [] && AllDigits(d)
    requires suffix == [] || !IsDigit(suffix[0])
    ensures ParseDigits(d + suffix) == Val(DigitsValue(d))
  {
    var s := d + suffix;
    assert IsDigit(s[0]) by { assert s[0] == d[0]; }
    LeadingDigitsOfRun(d, suffix);
  }

  /** `-` and a digit run followed by a non-digit reads as the negated
      value of the run. */
  lemma ParseDigitsNegativeRun(d: string, suffix: string)
    requires d != [] && AllDigits(d)
    requires suffix == [] || !IsDigit(suffix[0])
    ensures ParseDigits("-" + d + suffix) == Val(-(DigitsValue(d) as int))
  {
    var s := "-" + d + suffix;
    assert s[0] == '-';
    assert s[1..] == d + suffix;
    LeadingDigitsOfRun(d, suffix);
  }

  lemma {:induction false} LeadingDigitsOfRun(d: string, suffix: string)
    requires AllDigits(d)
    requires suffix == [] || !IsDigit(suffix[0])
    ensures LeadingDigits(d + suffix) == d
  {
    if d != [] {
      assert (d + suffix)[1..] == d[1..] + suffix;
      LeadingDigitsOfRun(d[1..], suffix);
    } else {
      assert d + suffix == suffix;
    }
  }
}
