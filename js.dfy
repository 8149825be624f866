/** The few JavaScript built-ins the site's logic depends on, written out so
    that the rest of the model can use them: integer-valued numbers with NaN
    and their strict comparisons, `String(n)`, `parseInt(s, 10)`, `Number(s)`,
    `String.prototype.trim`, `split(',')` / `join(',')`, and the array
    filters the filter panel uses. */
module Js {

  datatype Option<T> = None | Some(value: T)

  /** A JavaScript number that is either an integer or NaN. Every number the
      filter state can hold comes from an integer literal, a slider, a year
      select or `parseInt`, so no fractional value ever occurs. The integer is
      unbounded: JavaScript holds it exactly only below 2^53 in magnitude. */
  datatype Num = Int(v: int) | NaN

  /** `a === b`: NaN is equal to nothing, not even to itself. */
  predicate StrictEq(a: Num, b: Num)
  {
    a.Int? && b.Int? && a.v == b.v
  }

  /** `a <= b`; every comparison with NaN is false. */
  predicate Le(a: Num, b: Num)
  {
    a.Int? && b.Int? && a.v <= b.v
  }

  /** `a > b`; every comparison with NaN is false. */
  predicate Gt(a: Num, b: Num)
  {
    a.Int? && b.Int? && a.v > b.v
  }

  /** `a + k` for an integer constant `k`. */
  function Plus(a: Num, k: int): (r: Num)
    ensures r.Int? <==> a.Int?
    ensures a.Int? ==> r.v - a.v == k
  {
    if a.Int? then Int(a.v + k) else NaN
  }

  /** `Math.max(a, b)`: NaN if either argument is NaN. */
  function MathMax(a: Num, b: Num): (r: Num)
    ensures r.Int? <==> a.Int? && b.Int?
    ensures r.Int? ==> r.v >= a.v && r.v >= b.v && (r.v == a.v || r.v == b.v)
  {
    if a.Int? && b.Int? then Int(if a.v >= b.v then a.v else b.v) else NaN
  }

  /** `Math.min(a, b)`: NaN if either argument is NaN. */
  function MathMin(a: Num, b: Num): (r: Num)
    ensures r.Int? <==> a.Int? && b.Int?
    ensures r.Int? ==> r.v <= a.v && r.v <= b.v && (r.v == a.v || r.v == b.v)
  {
    if a.Int? && b.Int? then Int(if a.v <= b.v then a.v else b.v) else NaN
  }

  // ---------------------------------------------------------------- characters

  /** ECMAScript WhiteSpace and LineTerminator code points (TAB, VT, FF,
      ZWNBSP, the Unicode space separators, LF, CR, LS and PS): the set that
      `trim`, `parseInt` and `Number` strip. */
  predicate IsWhiteSpace(c: char)
  {
    c == '\t' || c == '\U{000B}' || c == '\U{000C}' || c == ' ' || c == '\U{00A0}' ||
    c == '\U{FEFF}' || c == '\U{1680}' || ('\U{2000}' <= c <= '\U{200A}') ||
    c == '\U{202F}' || c == '\U{205F}' || c == '\U{3000}' ||
    c == '\n' || c == '\r' || c == '\U{2028}' || c == '\U{2029}'
  }

  /** The value of `c` as a digit of base 16 or less, or -1. */
  function DigitOf(c: char): (d: int)
    ensures -1 <= d < 16
  {
    if '0' <= c <= '9' then (c as int) - ('0' as int)
    else if 'a' <= c <= 'f' then (c as int) - ('a' as int) + 10
    else if 'A' <= c <= 'F' then (c as int) - ('A' as int) + 10
    else -1
  }

  /** `c` is a digit of the given radix. */
  predicate IsDigitOf(c: char, radix: nat)
  {
    0 <= DigitOf(c) < radix
  }

  predicate AllDigits(s: string, radix: nat)
  {
    forall i :: 0 <= i < |s| ==> IsDigitOf(s[i], radix)
  }

  /** The value of a string of digits in the given radix, most significant first. */
  function DigitsValue(s: string, radix: nat): (n: nat)
    requires AllDigits(s, radix)
  {
    if |s| == 0 then 0
    else DigitsValue(s[..|s| - 1], radix) * radix + DigitOf(s[|s| - 1])
  }

  /** Number of leading characters of `s` that are digits of `radix`: the
      longest digit prefix. */
  function DigitPrefix(s: string, radix: nat): (n: nat)
    ensures n <= |s|
    ensures AllDigits(s[..n], radix)
    ensures n == |s| || !IsDigitOf(s[n], radix)
  {
    if |s| == 0 || !IsDigitOf(s[0], radix) then 0
    else
      var m := DigitPrefix(s[1..], radix);
      assert s[1..][..m] == s[1..m + 1];
      1 + m
  }

  // ------------------------------------------------------------------ trimming

  /** `s` with its leading white space removed. */
  function TrimStart(s: string): (r: string)
    ensures |r| <= |s|
  {
    if |s| > 0 && IsWhiteSpace(s[0]) then TrimStart(s[1..]) else s
  }

  /** `trimStart` removes a white-space prefix, and only that: what is left
      is a suffix of `s` that does not start with white space. */
  lemma {:induction false} TrimStartStrips(s: string)
    ensures var r := TrimStart(s);
      && r == s[|s| - |r|..]
      && (forall i :: 0 <= i < |s| - |r| ==> IsWhiteSpace(s[i]))
      && (r == [] || !IsWhiteSpace(r[0]))
  {
    if |s| > 0 && IsWhiteSpace(s[0]) {
      TrimStartStrips(s[1..]);
    }
  }

  /** `s` with its trailing white space removed. */
  function TrimEnd(s: string): (r: string)
    ensures |r| <= |s|
  {
    if |s| > 0 && IsWhiteSpace(s[|s| - 1]) then TrimEnd(s[..|s| - 1]) else s
  }

  /** `trimEnd` removes a white-space suffix, and only that. */
  lemma {:induction false} TrimEndStrips(s: string)
    ensures var r := TrimEnd(s);
      && r == s[..|r|]
      && (forall i :: |r| <= i < |s| ==> IsWhiteSpace(s[i]))
      && (r == [] || !IsWhiteSpace(r[|r| - 1]))
  {
    if |s| > 0 && IsWhiteSpace(s[|s| - 1]) {
      TrimEndStrips(s[..|s| - 1]);
    }
  }

  /** `s.trim()`. */
  function Trim(s: string): (r: string)
    ensures |r| <= |s|
  {
    TrimEnd(TrimStart(s))
  }

  /** `trim` leaves nothing exactly when `s` is all white space, and what it
      leaves neither starts nor ends with white space. */
  lemma TrimStrips(s: string)
    ensures Trim(s) == [] <==> forall i :: 0 <= i < |s| ==> IsWhiteSpace(s[i])
    ensures Trim(s) != [] ==> !IsWhiteSpace(Trim(s)[0]) && !IsWhiteSpace(Trim(s)[|Trim(s)| - 1])
  {
    TrimStartStrips(s);
    var t := TrimStart(s);
    TrimEndStrips(t);
    var r := TrimEnd(t);
    if r == [] {
      assert t == [];
    }
  }

  /** Nothing but white space: the strings for which `!s.trim()` holds in
      JavaScript (lemma `BlankIffTrimEmpty`). */
  predicate IsBlank(s: string)
  {
    forall i :: 0 <= i < |s| ==> IsWhiteSpace(s[i])
  }

  lemma BlankIffTrimEmpty(s: string)
    ensures IsBlank(s) <==> Trim(s) == []
  {
    TrimStrips(s);
  }

  // ------------------------------------------------- String(n) and parseInt

  /** Decimal digits of `n`, most significant first, without leading zeros. */
  function NatToString(n: nat): (s: string)
    ensures |s| > 0 && AllDigits(s, 10)
    ensures s[0] != '0' || n == 0
    decreases n
  {
    if n < 10 then [('0' as int + n) as char]
    else NatToString(n / 10) + [('0' as int + n % 10) as char]
  }

  lemma {:induction false} NatToStringValue(n: nat)
    ensures DigitsValue(NatToString(n), 10) == n
    decreases n
  {
    var s := NatToString(n);
    if n >= 10 {
      NatToStringValue(n / 10);
      assert s[..|s| - 1] == NatToString(n / 10);
    }
  }

  /** `String(n)` for an integer `n` written out in full; JavaScript switches
      to exponent form from 10^21 on, which is not modelled. */
  function IntToString(n: int): string
  {
    if n < 0 then "-" + NatToString(-n) else NatToString(n)
  }

  /** `String(x)` for a number `x`. */
  function NumToString(x: Num): string
  {
    if x.Int? then IntToString(x.v) else "NaN"
  }

  /** `parseInt(s, 10)`: leading white space is skipped, one optional sign is
      read, then the longest run of decimal digits; anything after it is
      ignored, and no digits at all gives NaN. */
  function ParseInt(s: string): (r: Num)
  {
    ParseSigned(TrimStart(s))
  }

  /** An optional `-` or `+`, then the digits. */
  function ParseSigned(t: string): (r: Num)
  {
    if |t| > 0 && t[0] == '-' then Negate(ParseDigits(t[1..]))
    else if |t| > 0 && t[0] == '+' then ParseDigits(t[1..])
    else ParseDigits(t)
  }

  /** The value of the longest decimal digit prefix, NaN when it is empty. */
  function ParseDigits(u: string): (r: Num)
    ensures r.NaN? <==> u == [] || !IsDigitOf(u[0], 10)
    ensures r.Int? ==> r.v >= 0
  {
    var n := DigitPrefix(u, 10);
    if n == 0 then NaN else Int(DigitsValue(u[..n], 10))
  }

  function Negate(x: Num): Num
  {
    if x.Int? then Int(-x.v) else NaN
  }

  /** `parseInt` gives NaN exactly when, after the white space and an
      optional sign, no decimal digit follows. */
  lemma ParseIntNaN(s: string)
    ensures ParseInt(s).NaN? <==>
      var t := TrimStart(s);
      var u := if |t| > 0 && (t[0] == '-' || t[0] == '+') then t[1..] else t;
      u == [] || !IsDigitOf(u[0], 10)
  {
  }

  /** `parseInt(String(n), 10) === n` on unbounded integers: the URL codec's
      numbers survive a trip through the query string. In JavaScript this
      holds below 2^53 in magnitude; from 10^21 on `String` writes exponent
      form. */
  lemma ParseIntOfIntToString(n: int)
    ensures ParseInt(IntToString(n)) == Int(n)
  {
    var k: nat := if n < 0 then -n else n;
    var digits := NatToString(k);
    ParseDigitsOfDigits(digits);
    NatToStringValue(k);
    var s := IntToString(n);
    NoLeadingSpace(s);
    if n < 0 {
      assert s[1..] == digits;
    }
  }

  /** A string that starts with no white space is its own `trimStart`. */
  lemma NoLeadingSpace(s: string)
    requires s != [] && !IsWhiteSpace(s[0])
    ensures TrimStart(s) == s
  {
  }

  /** A non-empty run of decimal digits is read whole. */
  lemma ParseDigitsOfDigits(u: string)
    requires |u| > 0 && AllDigits(u, 10)
    ensures ParseDigits(u) == Int(DigitsValue(u, 10))
  {
    DigitPrefixOfDigits(u);
    assert u[..|u|] == u;
  }

  lemma {:induction false} DigitPrefixOfDigits(u: string)
    requires AllDigits(u, 10)
    ensures DigitPrefix(u, 10) == |u|
  {
    if |u| > 0 { DigitPrefixOfDigits(u[1..]); }
  }

  /** A non-empty run of decimal digits parses to its value. */
  lemma ParseIntOfDigits(s: string)
    requires |s| > 0 && AllDigits(s, 10)
    ensures ParseInt(s) == Int(DigitsValue(s, 10))
  {
    ParseDigitsOfDigits(s);
    assert IsDigitOf(s[0], 10);
    NoLeadingSpace(s);
  }

  /** NaN prints as "NaN", which parses back to NaN. */
  lemma ParseIntOfNaN()
    ensures ParseInt(NumToString(NaN)) == NaN
  {
    var s := NumToString(NaN);
    assert s == "NaN";
    NoLeadingSpace(s);
    assert ParseDigits(s).NaN?;
  }

  lemma ParseIntOfNumToString(x: Num)
    ensures ParseInt(NumToString(x)) == x
  {
    if x.Int? { ParseIntOfIntToString(x.v); } else { ParseIntOfNaN(); }
  }

  // ------------------------------------------------------------- Number(s)

  /** A JavaScript number as `Number(s)` can produce it; reals stand for the
      exact mathematical value before rounding to binary64. */
  datatype NumberValue = Finite(r: real) | PosInfinity | NegInfinity | NotANumber

  function Pow10(k: nat): (p: nat)
    ensures p >= 1
  {
    if k == 0 then 1 else 10 * Pow10(k - 1)
  }

  /** The exponent part of a decimal literal: `e` or `E`, an optional sign
      and at least one digit, and nothing else. */
  function ParseExponent(s: string): Option<int>
  {
    if |s| == 0 || (s[0] != 'e' && s[0] != 'E') then None
    else
      var t := s[1..];
      var negative := |t| > 0 && t[0] == '-';
      var ds := if |t| > 0 && (t[0] == '-' || t[0] == '+') then t[1..] else t;
      if ds == [] || !AllDigits(ds, 10) then None
      else
        var e: int := DigitsValue(ds, 10);
        Some(if negative then -e else e)
  }

  /** The value of `intPart.fracPart`. */
  function Mantissa(intPart: string, fracPart: string): real
    requires AllDigits(intPart, 10) && AllDigits(fracPart, 10)
  {
    DigitsValue(intPart, 10) as real + (DigitsValue(fracPart, 10) as real) / (Pow10(|fracPart|) as real)
  }

  /** `m` times ten to the power `e`. */
  function Scale(m: real, e: int): real
  {
    if e >= 0 then m * (Pow10(e) as real) else m / (Pow10(-e) as real)
  }

  /** StrUnsignedDecimalLiteral without `Infinity`: digits, an optional
      fraction and an optional exponent, covering the whole string. */
  function ParseUnsignedDecimal(s: string): Option<real>
  {
    var n1 := DigitPrefix(s, 10);
    var intPart := s[..n1];
    var rest := s[n1..];
    var hasDot := |rest| > 0 && rest[0] == '.';
    var afterDot := if hasDot then rest[1..] else rest;
    var n2 := if hasDot then DigitPrefix(afterDot, 10) else 0;
    var fracPart := afterDot[..n2];
    var tail := afterDot[n2..];
    if n1 + n2 == 0 then None
    else if tail == [] then Some(Mantissa(intPart, fracPart))
    else match ParseExponent(tail)
      case None => None
      case Some(e) => Some(Scale(Mantissa(intPart, fracPart), e))
  }

  /** `Number(s)` on a string (ECMAScript StringToNumber): white space around
      the literal is ignored, the empty string is 0, and a literal is a signed
      decimal (with fraction and exponent), a signed `Infinity`, or an
      unsigned `0x`/`0o`/`0b` integer. Anything else is NaN. */
  function StringToNumber(s: string): NumberValue
  {
    var t := Trim(s);
    if t == [] then Finite(0.0)
    else if |t| > 2 && t[0] == '0' && (t[1] in "xXoObB") then
      var radix := if t[1] in "xX" then 16 else if t[1] in "oO" then 8 else 2;
      var ds := t[2..];
      if AllDigits(ds, radix) then Finite(DigitsValue(ds, radix) as real) else NotANumber
    else
      var negative := t[0] == '-';
      var u := if t[0] == '-' || t[0] == '+' then t[1..] else t;
      if u == "Infinity" then (if negative then NegInfinity else PosInfinity)
      else match ParseUnsignedDecimal(u)
        case None => NotANumber
        case Some(m) => Finite(if negative then -m else m)
  }

  /** A string without surrounding white space is its own `trim`. */
  lemma TrimNoSpace(s: string)
    requires s != [] && !IsWhiteSpace(s[0]) && !IsWhiteSpace(s[|s| - 1])
    ensures Trim(s) == s
  {
    NoLeadingSpace(s);
  }

  /** A plain run of decimal digits is a decimal literal with that value. */
  lemma DecimalOfDigits(s: string)
    requires |s| > 0 && AllDigits(s, 10)
    ensures ParseUnsignedDecimal(s) == Some(DigitsValue(s, 10) as real)
  {
    DigitPrefixOfDigits(s);
    MantissaWhole(s);
    var n1 := DigitPrefix(s, 10);
    assert n1 == |s|;
    assert s[..n1] == s;
    var rest := s[n1..];
    assert rest == [];
  }

  lemma MantissaWhole(s: string)
    requires AllDigits(s, 10)
    ensures Mantissa(s, []) == DigitsValue(s, 10) as real
  {
  }

  /** `Number(s)` of decimal digits without a leading zero is their value. */
  lemma NumberOfDigits(s: string)
    requires |s| > 0 && AllDigits(s, 10) && (s[0] != '0' || |s| == 1)
    ensures StringToNumber(s) == Finite(DigitsValue(s, 10) as real)
  {
    assert IsDigitOf(s[0], 10) && IsDigitOf(s[|s| - 1], 10);
    TrimNoSpace(s);
    assert s != "Infinity" by {
      assert s[0] != 'I';
    }
    DecimalOfDigits(s);
  }

  /** `Number(String(n))` is `n` for a natural number `n`. */
  lemma NumberOfNatToString(n: nat)
    ensures StringToNumber(NatToString(n)) == Finite(n as real)
  {
    NatToStringValue(n);
    NumberOfDigits(NatToString(n));
  }

  /** `Number(s)` of a word, text that starts with a lower-case letter, is
      NaN: whatever follows, it is neither a decimal literal, nor `Infinity`,
      nor a `0x`/`0o`/`0b` integer. */
  lemma NumberOfWord(s: string)
    requires |s| > 0 && 'a' <= s[0] <= 'z'
    ensures StringToNumber(s) == NotANumber
  {
    NoLeadingSpace(s);
    TrimEndStrips(s);
    var t := Trim(s);
    assert !IsWhiteSpace(s[0]);
    assert t != [] && t[0] == s[0];
    assert t != "Infinity" by {
      assert t[0] != 'I';
    }
    assert !IsDigitOf(t[0], 10);
    assert DigitPrefix(t, 10) == 0;
    assert ParseUnsignedDecimal(t) == None;
  }

  // ------------------------------------------------------- split and join

  /** `xs.join(sep)`. */
  function Join(xs: seq<string>, sep: char): string
  {
    if |xs| == 0 then ""
    else if |xs| == 1 then xs[0]
    else xs[0] + [sep] + Join(xs[1..], sep)
  }

  /** `s.split(sep)` for a one-character separator: always at least one
      piece, and the pieces contain no separator. */
  function Split(s: string, sep: char): (r: seq<string>)
    ensures |r| >= 1
    ensures forall i :: 0 <= i < |r| ==> sep !in r[i]
  {
    if |s| == 0 then [""]
    else
      var rest := Split(s[1..], sep);
      if s[0] == sep then [""] + rest
      else [[s[0]] + rest[0]] + rest[1..]
  }

  /** `xs.filter(Boolean)` on strings: the non-empty ones, in order. */
  function NonEmpty(xs: seq<string>): (r: seq<string>)
    ensures forall i :: 0 <= i < |r| ==> r[i] != "" && r[i] in xs
    ensures |r| <= |xs|
  {
    if |xs| == 0 then []
    else (if xs[0] != "" then [xs[0]] else []) + NonEmpty(xs[1..])
  }

  lemma {:induction false} NonEmptyIdentity(xs: seq<string>)
    requires forall i :: 0 <= i < |xs| ==> xs[i] != ""
    ensures NonEmpty(xs) == xs
  {
    if |xs| > 0 { NonEmptyIdentity(xs[1..]); }
  }

  /** Splitting a piece without separators followed by `tail`. */
  lemma {:induction false} SplitPrefix(x: string, tail: string, sep: char)
    requires sep !in x
    ensures var r := Split(x + tail, sep);
      var q := Split(tail, sep);
      r == [x + q[0]] + q[1..]
  {
    if |x| > 0 {
      SplitPrefix(x[1..], tail, sep);
      assert (x + tail)[1..] == x[1..] + tail;
      assert [x[0]] + (x[1..] + Split(tail, sep)[0]) == x + Split(tail, sep)[0];
    } else {
      assert x + tail == tail;
      var q := Split(tail, sep);
      assert x + q[0] == q[0];
      assert q == [q[0]] + q[1..];
    }
  }

  /** `join` then `split` gives back the pieces, provided none contains the
      separator and there is at least one. */
  lemma {:induction false} SplitJoin(xs: seq<string>, sep: char)
    requires |xs| >= 1
    requires forall i :: 0 <= i < |xs| ==> sep !in xs[i]
    ensures Split(Join(xs, sep), sep) == xs
  {
    if |xs| == 1 {
      SplitPrefix(xs[0], "", sep);
      assert xs[0] + "" == xs[0];
    } else {
      var rest := Join(xs[1..], sep);
      SplitJoin(xs[1..], sep);
      assert xs[0] + [sep] + rest == xs[0] + ([sep] + rest);
      SplitPrefix(xs[0], [sep] + rest, sep);
      assert ([sep] + rest)[1..] == rest;
      assert xs[0] + "" == xs[0];
    }
  }

  // ------------------------------------------------------- array helpers

  /** `xs.filter(t => t !== x)`. */
  function Without(xs: seq<string>, x: string): (r: seq<string>)
    ensures x !in r
    ensures forall y :: y != x ==> (y in r <==> y in xs)
    ensures multiset(r)[x] == 0 && forall y :: y != x ==> multiset(r)[y] == multiset(xs)[y]
  {
    if |xs| == 0 then []
    else
      assert xs == [xs[0]] + xs[1..];
      (if xs[0] != x then [xs[0]] else []) + Without(xs[1..], x)
  }

  /** Filtering works element by element and keeps order: filtering a
      concatenation is concatenating the filtered parts. */
  lemma {:induction false} WithoutSplits(a: seq<string>, b: seq<string>, x: string)
    ensures Without(a + b, x) == Without(a, x) + Without(b, x)
  {
    if a == [] {
      assert [] + b == b;
    } else {
      var h: seq<string> := if a[0] != x then [a[0]] else [];
      assert (a + b)[0] == a[0];
      assert (a + b)[1..] == a[1..] + b;
      assert Without(a + b, x) == h + Without(a[1..] + b, x);
      assert Without(a, x) == h + Without(a[1..], x);
      WithoutSplits(a[1..], b, x);
      ConcatAssociates(h, Without(a[1..], x), Without(b, x));
    }
  }

  lemma ConcatAssociates<T>(p: seq<T>, q: seq<T>, r: seq<T>)
    ensures p + (q + r) == (p + q) + r
  {
  }

  /** No element occurs twice. */
  predicate NoDuplicates(xs: seq<string>)
  {
    forall i, j :: 0 <= i < j < |xs| ==> xs[i] != xs[j]
  }

  lemma {:induction false} WithoutAbsent(xs: seq<string>, x: string)
    requires x !in xs
    ensures Without(xs, x) == xs
  {
    if |xs| > 0 { WithoutAbsent(xs[1..], x); }
  }

  lemma {:induction false} WithoutKeepsNoDuplicates(xs: seq<string>, x: string)
    requires NoDuplicates(xs)
    ensures NoDuplicates(Without(xs, x))
  {
    if |xs| > 0 {
      WithoutKeepsNoDuplicates(xs[1..], x);
      var r := Without(xs[1..], x);
      assert xs[0] !in xs[1..];
      assert xs[0] !in r;
    }
  }
}
