/** The parts of the JavaScript runtime that the application's logic relies on:
    JSON-like values and their truthiness, `Number`, `parseInt`, `parseFloat`,
    `String`, ASCII case mapping, `trim`, `includes` and `split`. */
module Js {

  datatype Option<+T> = None | Some(value: T)

  datatype Result<+T, +E> = Ok(value: T) | Err(error: E)

  /** A JSON value as the server receives it in a request body or filter object.
      Numbers are exact reals: rounding and NaN are not part of the model. */
  datatype JsVal =
    | Undefined
    | Null
    | Bool(b: bool)
    | Num(r: real)
    | Str(s: string)
    | Arr(items: seq<JsVal>)

  /** A plain object: its own enumerable keys and their values. */
  type Object = map<string, JsVal>

  /** `!!v` */
  predicate Truthy(v: JsVal) {
    match v
    case Undefined => false
    case Null => false
    case Bool(b) => b
    case Num(r) => r != 0.0
    case Str(s) => s != ""
    case Arr(_) => true
  }

  /** `o[key]`: a missing key reads as undefined. */
  function Get(o: Object, key: string): JsVal {
    if key in o then o[key] else Undefined
  }

  // ---------------------------------------------------------------- characters

  predicate IsDigit(c: char) { '0' <= c <= '9' }

  function DigitValue(c: char): nat
    requires IsDigit(c)
  {
    c as int - '0' as int
  }

  /** The ECMAScript WhiteSpace and LineTerminator characters: the ones that
      `trim` removes and that the regular-expression class `\s` matches. */
  predicate IsWhite(c: char) {
    c == ' ' || c == '\t' || c == '\n' || c == '\r' || c == '\U{0B}' || c == '\U{0C}'
    || c == '\U{A0}' || c == '\U{1680}' || '\U{2000}' <= c <= '\U{200A}'
    || c == '\U{2028}' || c == '\U{2029}' || c == '\U{202F}' || c == '\U{205F}'
    || c == '\U{3000}' || c == '\U{FEFF}'
  }

  function LowerChar(c: char): char {
    if 'A' <= c <= 'Z' then (c as int + 32) as char else c
  }

  function UpperChar(c: char): char {
    if 'a' <= c <= 'z' then (c as int - 32) as char else c
  }

  /** `s.toLowerCase()` on the ASCII letters. */
  function Lower(s: string): (r: string)
    ensures |r| == |s|
    ensures forall i :: 0 <= i < |s| ==> r[i] == LowerChar(s[i])
  {
    seq(|s|, i requires 0 <= i < |s| => LowerChar(s[i]))
  }

  /** `s.toUpperCase()` on the ASCII letters. */
  function Upper(s: string): (r: string)
    ensures |r| == |s|
    ensures forall i :: 0 <= i < |s| ==> r[i] == UpperChar(s[i])
  {
    seq(|s|, i requires 0 <= i < |s| => UpperChar(s[i]))
  }

  lemma LowerIdempotent(s: string)
    ensures Lower(Lower(s)) == Lower(s)
  {
    assert forall i :: 0 <= i < |s| ==> LowerChar(LowerChar(s[i])) == LowerChar(s[i]);
  }

  // ---------------------------------------------------------------- trimming

  function TrimStart(s: string): (r: string)
    ensures |r| <= |s| && r == s[|s| - |r|..]
    ensures r == "" || !IsWhite(r[0])
  {
    if |s| > 0 && IsWhite(s[0]) then TrimStart(s[1..]) else s
  }

  function TrimEnd(s: string): (r: string)
    ensures |r| <= |s| && r == s[..|r|]
    ensures r == "" || !IsWhite(r[|r| - 1])
  {
    if |s| > 0 && IsWhite(s[|s| - 1]) then TrimEnd(s[..|s| - 1]) else s
  }

  /** `s.trim()` */
  function Trim(s: string): string {
    TrimEnd(TrimStart(s))
  }

  lemma {:induction false} TrimStartOfTrimmedEnd(s: string)
    requires s == "" || !IsWhite(s[0])
    ensures TrimStart(TrimEnd(s)) == TrimEnd(s)
  {
    var e := TrimEnd(s);
    if e != "" {
      assert e[0] == s[0];
    }
  }

  /** Trimming twice trims nothing more. */
  lemma TrimIdempotent(s: string)
    ensures Trim(Trim(s)) == Trim(s)
  {
    var b := TrimStart(s);
    TrimStartOfTrimmedEnd(b);
  }

  // ---------------------------------------------------------------- substrings

  predicate IsPrefix(t: string, s: string) {
    |t| <= |s| && s[..|t|] == t
  }

  /** `s.includes(t)` */
  predicate Contains(s: string, t: string)
    decreases |s|
  {
    IsPrefix(t, s) || (|s| > 0 && Contains(s[1..], t))
  }

  lemma {:induction false} ContainsSuffix(a: string, b: string)
    ensures Contains(a + b, b)
  {
    if a == [] {
      assert a + b == b;
    } else {
      assert (a + b)[1..] == a[1..] + b;
      ContainsSuffix(a[1..], b);
    }
  }

  lemma {:induction false} ContainsInfix(a: string, b: string, c: string)
    ensures Contains(a + b + c, b)
  {
    if a == [] {
      assert a + b + c == b + c;
      assert (b + c)[..|b|] == b;
    } else {
      assert (a + b + c)[1..] == a[1..] + b + c;
      ContainsInfix(a[1..], b, c);
    }
  }

  /** Anything found in a suffix of `s` is found in `s`. */
  lemma {:induction false} ContainsFromSuffix(s: string, k: nat, t: string)
    requires k <= |s| && Contains(s[k..], t)
    ensures Contains(s, t)
    decreases k
  {
    if k > 0 {
      assert s[1..][k - 1..] == s[k..];
      ContainsFromSuffix(s[1..], k - 1, t);
    }
  }

  // ---------------------------------------------------------------- digits

  predicate AllDigits(s: string) {
    forall i :: 0 <= i < |s| ==> IsDigit(s[i])
  }

  /** `s.replace(/[^0-9]/g, '')` */
  function KeepDigits(s: string): (r: string)
    ensures AllDigits(r) && |r| <= |s|
  {
    if s == [] then []
    else if IsDigit(s[0]) then [s[0]] + KeepDigits(s[1..])
    else KeepDigits(s[1..])
  }

  lemma {:induction false} KeepDigitsAppend(a: string, b: string)
    ensures KeepDigits(a + b) == KeepDigits(a) + KeepDigits(b)
  {
    if a == [] {
      assert a + b == b;
    } else {
      assert (a + b)[1..] == a[1..] + b;
      KeepDigitsAppend(a[1..], b);
    }
  }

  lemma {:induction false} KeepDigitsOfDigits(d: string)
    requires AllDigits(d)
    ensures KeepDigits(d) == d
  {
    if d != [] {
      KeepDigitsOfDigits(d[1..]);
      assert [d[0]] + d[1..] == d;
    }
  }

  /** The value of a decimal numeral. */
  function DigitsValue(d: string): nat
    requires AllDigits(d)
  {
    if d == [] then 0 else DigitsValue(d[..|d| - 1]) * 10 + DigitValue(d[|d| - 1])
  }

  function Pow10(n: nat): (r: nat)
    ensures r >= 1
  {
    if n == 0 then 1 else 10 * Pow10(n - 1)
  }

  /** The longest prefix of `s` made of digits. */
  function LeadingDigits(s: string): (r: string)
    ensures AllDigits(r) && IsPrefix(r, s)
    ensures |r| < |s| ==> !IsDigit(s[|r|])
  {
    if |s| > 0 && IsDigit(s[0]) then [s[0]] + LeadingDigits(s[1..]) else []
  }

  lemma {:induction false} LeadingDigitsOfDigits(d: string)
    requires AllDigits(d)
    ensures LeadingDigits(d) == d
  {
    if d != "" {
      LeadingDigitsOfDigits(d[1..]);
      assert [d[0]] + d[1..] == d;
    }
  }

  /** `parseInt` of a non-empty digit string is its decimal value. */
  lemma ParseIntDigits(d: string)
    requires AllDigits(d) && d != ""
    ensures ParseIntString(d) == Some(DigitsValue(d) as int)
  {
    assert !IsWhite(d[0]);
    assert TrimStart(d) == d;
    LeadingDigitsOfDigits(d);
  }

  /** The value of `i.f` for digit strings `i` and `f`. */
  function Decimal(i: string, f: string): (r: real)
    requires AllDigits(i) && AllDigits(f)
    ensures r >= 0.0
  {
    DigitsValue(i) as real + DigitsValue(f) as real / Pow10(|f|) as real
  }

  /** An unsigned decimal numeral filling all of `b`: `d+`, `d+.d*` or `.d+`. */
  function UnsignedDecimal(b: string): Option<real> {
    var i := LeadingDigits(b);
    var rest := b[|i|..];
    if rest == "" then (if i == "" then None else Some(DigitsValue(i) as real))
    else if rest[0] != '.' then None
    else
      var f := LeadingDigits(rest[1..]);
      if |f| == |rest| - 1 && (i != "" || f != "") then Some(Decimal(i, f)) else None
  }

  /** `Number(s)` for a string: white space around it is ignored, the empty
      string is 0, otherwise a signed decimal numeral (exponents, hexadecimal
      and `Infinity` are not modelled). None stands for NaN. */
  function StringToNumber(s: string): Option<real> {
    var t := Trim(s);
    if t == "" then Some(0.0) else SignedNumeral(t)
  }

  /** An optionally signed decimal numeral filling all of `t`. */
  function SignedNumeral(t: string): Option<real>
    requires t != ""
  {
    var negative := t[0] == '-';
    var body := if t[0] == '-' || t[0] == '+' then t[1..] else t;
    match UnsignedDecimal(body)
    case None => None
    case Some(v) => Some(if negative then -v else v)
  }

  /** `Number(v)`; an array is read through its `String`. None stands for NaN. */
  function ToNumber(v: JsVal): (r: Option<real>)
    ensures v.Str? && AllDigits(v.s) && v.s != "" ==> r == Some(DigitsValue(v.s) as real)
    ensures v.Str? && Trim(v.s) == "" ==> r == Some(0.0)
    ensures v.Arr? && v.items == [] ==> r == Some(0.0)
  {
    if v.Str? && AllDigits(v.s) && v.s != "" then NumberOfDigits(v.s); StringToNumber(v.s) else
    match v
    case Undefined => None
    case Null => Some(0.0)
    case Bool(b) => Some(if b then 1.0 else 0.0)
    case Num(r) => Some(r)
    case Str(s) => StringToNumber(s)
    case Arr(_) => StringToNumber(ToText(v))
  }

  /** The global `isNaN(v)`. */
  predicate IsNaN(v: JsVal) {
    ToNumber(v).None?
  }

  /** The mathematical integer a real truncates to, as `parseInt(String(r))` does. */
  function Truncate(r: real): int {
    if r >= 0.0 then r.Floor else -((-r).Floor)
  }

  /** Splits an optional leading sign off `s`. */
  function SignAndRest(s: string): (bool, string) {
    if |s| > 0 && (s[0] == '-' || s[0] == '+') then (s[0] == '-', s[1..]) else (false, s)
  }

  /** `parseInt(s)`: leading white space, an optional sign, then the leading digits. */
  function ParseIntString(s: string): Option<int> {
    var (negative, rest) := SignAndRest(TrimStart(s));
    var d := LeadingDigits(rest);
    if d == "" then None
    else Some(if negative then -(DigitsValue(d) as int) else DigitsValue(d) as int)
  }

  /** `parseInt(v)`: a number is truncated (numbers print without exponent
      here); any other value is read through its `String`, so an array is
      read through its joined elements. */
  function ParseInt(v: JsVal): (r: Option<int>)
    ensures v.Num? ==> r == Some(Truncate(v.r))
    ensures v.Str? && AllDigits(v.s) && v.s != "" ==> r == Some(DigitsValue(v.s) as int)
    ensures v.Arr? && |v.items| == 1 && v.items[0].Str? ==> r == ParseIntString(v.items[0].s)
    ensures v.Undefined? || v.Null? || v.Bool? ==> r.None?
  {
    match v
    case Num(r) => Some(Truncate(r))
    case Str(s) =>
      if AllDigits(s) && s != "" then ParseIntDigits(s); ParseIntString(s) else ParseIntString(s)
    case Arr(items) =>
      assert |items| == 1 && items[0].Str? ==> ToText(v) == items[0].s;
      ParseIntString(ToText(v))
    case Undefined => LetterFirst("undefined"); ParseIntString(ToText(v))
    case Null => LetterFirst("null"); ParseIntString(ToText(v))
    case Bool(b) => LetterFirst("true"); LetterFirst("false"); ParseIntString(ToText(v))
  }

  /** A string that starts with a letter has no integer prefix. */
  lemma LetterFirst(s: string)
    requires s != "" && 'a' <= s[0] <= 'z'
    ensures ParseIntString(s) == None
  {
    assert !IsWhite(s[0]) && !IsDigit(s[0]);
    assert TrimStart(s) == s;
    assert SignAndRest(s) == (false, s);
    assert LeadingDigits(s) == "";
  }

  /** `parseFloat(s)`: leading white space, an optional sign, then the longest
      decimal numeral at the start (`Infinity` and exponents are not modelled). */
  function ParseFloat(s: string): (r: Option<real>)
    ensures s != "" && IsDigit(s[0]) ==> r.Some? && r.value >= 0.0
    ensures TrimStart(s) == "" ==> r.None?
  {
    assert s != "" && IsDigit(s[0]) ==> !IsWhite(s[0]) && TrimStart(s) == s;
    SignedPrefix(TrimStart(s))
  }

  /** An optional sign, then the longest decimal numeral at the start of `b`. */
  function SignedPrefix(b: string): (r: Option<real>)
    ensures b != "" && IsDigit(b[0]) ==> r.Some? && r.value >= 0.0
    ensures b == "" ==> r.None?
  {
    var (negative, rest) := SignAndRest(b);
    assert b != "" && IsDigit(b[0]) ==> b[0] != '-' && b[0] != '+' && !negative && rest == b;
    match DecimalPrefix(rest)
    case None => None
    case Some(v) => Some(if negative then -v else v)
  }

  /** The value of the longest decimal numeral at the start of `s`. */
  function DecimalPrefix(s: string): (r: Option<real>)
    ensures s != "" && IsDigit(s[0]) ==> r.Some? && r.value >= 0.0
    ensures r.Some? ==> r.value >= 0.0
  {
    var i := LeadingDigits(s);
    var after := s[|i|..];
    var f := if |after| > 0 && after[0] == '.' then LeadingDigits(after[1..]) else "";
    if i == "" && f == "" then None else Some(Decimal(i, f))
  }

  /** What `TrimEnd` removes starts with white space. */
  lemma {:induction false} TrimEndDropsWhite(s: string)
    ensures |TrimEnd(s)| < |s| ==> IsWhite(s[|TrimEnd(s)|])
  {
    if |s| > 0 && IsWhite(s[|s| - 1]) {
      var p := s[..|s| - 1];
      TrimEndDropsWhite(p);
      assert TrimEnd(s) == TrimEnd(p);
      if |TrimEnd(p)| < |p| {
        assert p[|TrimEnd(p)|] == s[|TrimEnd(p)|];
      }
    }
  }

  /** `TrimEnd` keeps a string that does not start with white space non-empty. */
  lemma {:induction false} TrimEndKeepsHead(s: string)
    requires s != "" && !IsWhite(s[0])
    ensures TrimEnd(s) != ""
  {
    if |s| > 1 && IsWhite(s[|s| - 1]) {
      TrimEndKeepsHead(s[..|s| - 1]);
    }
  }

  /** Digits followed by neither a digit nor a point are read as a whole number. */
  lemma DecimalPrefixWhole(i: string, w: string)
    requires AllDigits(i) && i != ""
    requires w == "" || (!IsDigit(w[0]) && w[0] != '.')
    ensures DecimalPrefix(i + w) == Some(DigitsValue(i) as real)
  {
    LeadingDigitsStop(i, w);
    assert (i + w)[|i|..] == w;
    assert DigitsValue("") == 0 && Pow10(0) == 1;
    assert Decimal(i, "") == DigitsValue(i) as real;
  }

  /** `parseFloat` of digits followed by neither a digit nor a point. */
  lemma ParseFloatWhole(d: string, rest: string)
    requires AllDigits(d) && d != ""
    requires rest == "" || (!IsDigit(rest[0]) && rest[0] != '.')
    ensures ParseFloat(d + rest) == Some(DigitsValue(d) as real)
  {
    var s := d + rest;
    assert s[0] == d[0] && !IsWhite(s[0]) && s[0] != '-' && s[0] != '+';
    assert TrimStart(s) == s;
    assert SignAndRest(s) == (false, s);
    DecimalPrefixWhole(d, rest);
  }

  /** `Number` of digits followed by text that is neither a fraction nor
      white space is NaN. */
  lemma NumberRejectsTrailing(d: string, rest: string)
    requires AllDigits(d) && d != ""
    requires rest != "" && !IsDigit(rest[0]) && rest[0] != '.' && !IsWhite(rest[|rest| - 1])
    ensures StringToNumber(d + rest) == None
  {
    var s := d + rest;
    assert s[0] == d[0] && !IsWhite(s[0]) && s[0] != '-' && s[0] != '+';
    assert s[|s| - 1] == rest[|rest| - 1];
    assert TrimStart(s) == s && TrimEnd(s) == s;
    LeadingDigitsStop(d, rest);
    assert s[|d|..] == rest;
  }

  /** `i.f` followed by a non-digit is read as the decimal i.f. */
  lemma DecimalPrefixFraction(i: string, f: string, w: string)
    requires AllDigits(i) && AllDigits(f) && (i != "" || f != "")
    requires w == "" || !IsDigit(w[0])
    ensures DecimalPrefix(i + "." + f + w) == Some(Decimal(i, f))
  {
    var x := i + "." + f + w;
    var after := "." + f + w;
    assert x == i + after;
    LeadingDigitsStop(i, after);
    assert x[|i|..] == after;
    assert |after| > 0 && after[0] == '.';
    assert after[1..] == f + w;
    LeadingDigitsStop(f, w);
  }

  /** A whole unsigned numeral followed by anything that cannot continue it
      is read as a prefix to the same value. */
  lemma DecimalPrefixOfNumeral(body: string, w: string)
    requires UnsignedDecimal(body).Some?
    requires w == "" || (!IsDigit(w[0]) && w[0] != '.')
    ensures DecimalPrefix(body + w) == UnsignedDecimal(body)
  {
    var i := LeadingDigits(body);
    var r := body[|i|..];
    assert body == i + r;
    if r == "" {
      assert body == i;
      DecimalPrefixWhole(i, w);
    } else {
      var f := LeadingDigits(r[1..]);
      assert r[1..] == f;
      assert body == i + "." + f;
      DecimalPrefixFraction(i, f, w);
    }
  }

  /** `parseFloat` reads every string that `Number` reads as a number to the
      same value, except a blank one (0 for `Number`, NaN for `parseFloat`). */
  lemma ParseFloatAgreesWithNumber(s: string)
    requires StringToNumber(s).Some?
    ensures Trim(s) != "" ==> ParseFloat(s) == StringToNumber(s)
    ensures Trim(s) == "" ==> ParseFloat(s).None?
  {
    var b := TrimStart(s);
    var t := TrimEnd(b);
    assert Trim(s) == t;
    assert ParseFloat(s) == SignedPrefix(b);
    if t == "" {
      if b != "" {
        TrimEndKeepsHead(b);
      }
    } else {
      assert StringToNumber(s) == SignedNumeral(t);
      SignedPrefixOfTrimmed(b);
    }
  }

  /** Trailing white space does not change the reading of a numeral. */
  lemma SignedPrefixOfTrimmed(b: string)
    requires TrimEnd(b) != "" && SignedNumeral(TrimEnd(b)).Some?
    ensures SignedPrefix(b) == SignedNumeral(TrimEnd(b))
  {
    var t := TrimEnd(b);
    TrimEndDropsWhite(b);
    var w := b[|t|..];
    assert b == t + w;
    assert w == "" || IsWhite(w[0]);
    SignedPrefixOfNumeral(t, w);
  }

  lemma SignedPrefixOfNumeral(t: string, w: string)
    requires t != "" && SignedNumeral(t).Some?
    requires w == "" || IsWhite(w[0])
    ensures SignedPrefix(t + w) == SignedNumeral(t)
  {
    var body := if t[0] == '-' || t[0] == '+' then t[1..] else t;
    assert (t + w)[0] == t[0];
    assert (t + w)[1..] == t[1..] + w;
    assert SignAndRest(t + w) == (t[0] == '-', body + w);
    DecimalPrefixOfNumeral(body, w);
  }

  lemma {:induction false} LeadingDigitsStop(i: string, rest: string)
    requires AllDigits(i)
    requires rest == "" || !IsDigit(rest[0])
    ensures LeadingDigits(i + rest) == i
  {
    if i != "" {
      assert (i + rest)[1..] == i[1..] + rest;
      LeadingDigitsStop(i[1..], rest);
      assert [i[0]] + i[1..] == i;
    } else {
      assert i + rest == rest;
    }
  }

  /** `parseFloat` of `i.f` followed by anything that is not a digit. */
  lemma ParseFloatDecimal(i: string, f: string, rest: string)
    requires AllDigits(i) && AllDigits(f) && i != ""
    requires rest == "" || !IsDigit(rest[0])
    ensures ParseFloat(i + "." + f + rest) == Some(Decimal(i, f))
  {
    var s := i + "." + f + rest;
    assert s[0] == i[0] && IsDigit(s[0]);
    assert !IsWhite(s[0]);
    assert TrimStart(s) == s;
    assert SignAndRest(s) == (false, s);
    DecimalPrefixFraction(i, f, rest);
  }

  // ---------------------------------------------------------------- printing numbers

  /** The decimal numeral of a natural number. */
  function NatText(n: nat): (r: string)
    ensures |r| > 0 && AllDigits(r)
  {
    if n < 10 then [('0' as int + n) as char]
    else NatText(n / 10) + [('0' as int + n % 10) as char]
  }

  /** The most decimals a number is printed with here. */
  const MaxDecimals: nat := 20

  /** `a` written with `k` decimals is exact. */
  predicate WholeAt(a: real, k: nat) {
    var x := a * Pow10(k) as real;
    x.Floor as real == x
  }

  /** The fewest decimals, from `k` on, that write `a` exactly; MaxDecimals
      when none up to it do. */
  function Decimals(a: real, k: nat): (d: nat)
    requires k <= MaxDecimals
    ensures k <= d <= MaxDecimals
    ensures d < MaxDecimals ==> WholeAt(a, d)
    ensures forall j :: k <= j < d ==> !WholeAt(a, j)
    decreases MaxDecimals - k
  {
    if k == MaxDecimals || WholeAt(a, k) then k
    else
      Decimals(a, k + 1)
  }

  /** `s` with leading zeros up to length `n`. */
  function PadZeros(s: string, n: nat): (r: string)
    ensures |r| == if |s| < n then n else |s|
    ensures r == seq(|r| - |s|, _ => '0') + s
  {
    if |s| < n then seq(n - |s|, _ => '0') + s else s
  }

  function Abs(r: real): real {
    if r < 0.0 then -r else r
  }

  /** The decimals `String(r)` prints. */
  function DecimalsOf(r: real): nat {
    Decimals(Abs(r), 0)
  }

  /** |r| scaled by its decimals, the fraction beyond MaxDecimals dropped. */
  function Scaled(r: real): nat {
    var p := Pow10(DecimalsOf(r)) as real;
    assert Abs(r) * p >= 0.0 by {
      assert Abs(r) >= 0.0 && p >= 1.0;
    }
    (Abs(r) * p).Floor
  }

  /** `String(r)` without its sign and its point: the digits of `Scaled(r)`
      with at least one before the decimals. */
  function ScaledDigits(r: real): (d: string)
    ensures AllDigits(d) && |d| > DecimalsOf(r)
  {
    var t := NatText(Scaled(r));
    var d := PadZeros(t, DecimalsOf(r) + 1);
    assert forall i :: 0 <= i < |d| - |t| ==> d[i] == '0';
    assert forall i :: |d| - |t| <= i < |d| ==> d[i] == t[i - (|d| - |t|)];
    d
  }

  /** `String(r)` for a number: its sign, its integer part and, when it is
      not whole, a point and the fewest decimals that write it (exponent
      notation is not modelled). */
  function NumberText(r: real): (t: string)
    ensures t != "" && (t[0] == '-' <==> r < 0.0)
    ensures '.' in t <==> DecimalsOf(r) > 0
  {
    var k := DecimalsOf(r);
    var d := ScaledDigits(r);
    (if r < 0.0 then "-" else "") + d[..|d| - k] + (if k == 0 then "" else "." + d[|d| - k..])
  }

  lemma ShiftArith(a: int, b: int, c: int, q: int)
    ensures (a * q + b) * 10 + c == a * (10 * q) + (b * 10 + c)
  {
  }

  lemma {:induction false} DigitsValueAppend(x: string, y: string)
    requires AllDigits(x) && AllDigits(y)
    ensures AllDigits(x + y) && DigitsValue(x + y) == DigitsValue(x) * Pow10(|y|) + DigitsValue(y)
    decreases |y|
  {
    var z := x + y;
    assert AllDigits(z) by {
      forall i | 0 <= i < |z|
        ensures IsDigit(z[i])
      {
        if i < |x| { assert z[i] == x[i]; } else { assert z[i] == y[i - |x|]; }
      }
    }
    if y == [] {
      assert z == x;
    } else {
      var y' := y[..|y| - 1];
      assert z[..|z| - 1] == x + y';
      assert z[|z| - 1] == y[|y| - 1];
      DigitsValueAppend(x, y');
      ShiftArith(DigitsValue(x), DigitsValue(y'), DigitValue(y[|y| - 1]), Pow10(|y'|));
    }
  }

  lemma {:induction false} ZerosValue(n: nat)
    ensures AllDigits(seq(n, _ => '0')) && DigitsValue(seq(n, _ => '0')) == 0
  {
    if n > 0 {
      var z := seq(n, _ => '0');
      assert z[..n - 1] == seq(n - 1, _ => '0');
      ZerosValue(n - 1);
    }
  }

  /** Dropping the sign and the point of a signed decimal numeral leaves its digits. */
  lemma KeepDigitsOfNumeral(sign: string, head: string, tail: string)
    requires sign == "" || sign == "-"
    requires AllDigits(head) && AllDigits(tail)
    ensures KeepDigits(sign + head + (if tail == "" then "" else "." + tail)) == head + tail
  {
    assert KeepDigits(sign) == "" && KeepDigits(".") == "";
    KeepDigitsOfDigits(head);
    KeepDigitsOfDigits(tail);
    if tail == "" {
      assert sign + head + "" == sign + head && head + tail == head;
      KeepDigitsAppend(sign, head);
    } else {
      assert sign + head + ("." + tail) == sign + (head + ("." + tail));
      KeepDigitsAppend(".", tail);
      KeepDigitsAppend(head, "." + tail);
      KeepDigitsAppend(sign, head + ("." + tail));
    }
  }

  lemma ScaledDigitsValue(r: real)
    ensures DigitsValue(ScaledDigits(r)) == Scaled(r)
  {
    var d := ScaledDigits(r);
    var t := NatText(Scaled(r));
    var zeros := seq(|d| - |t|, _ => '0');
    assert d == zeros + t;
    ZerosValue(|d| - |t|);
    DigitsValueAppend(zeros, t);
    NatTextValue(Scaled(r));
  }

  /** `String(r)` without its sign and point reads as `Scaled(r)`. */
  lemma NumberTextDigits(r: real)
    ensures KeepDigits(NumberText(r)) == ScaledDigits(r)
    ensures DigitsValue(ScaledDigits(r)) == Scaled(r)
  {
    var k := DecimalsOf(r);
    var d := ScaledDigits(r);
    var head, tail := d[..|d| - k], d[|d| - k..];
    assert tail == "" <==> k == 0;
    assert head + tail == d;
    var sign := if r < 0.0 then "-" else "";
    assert NumberText(r) == sign + head + (if tail == "" then "" else "." + tail);
    KeepDigitsOfNumeral(sign, head, tail);
    ScaledDigitsValue(r);
  }

  /** A whole number prints as its numeral. */
  lemma WholeNumberText(n: nat)
    ensures DecimalsOf(n as real) == 0 && Scaled(n as real) == n
    ensures NumberText(n as real) == NatText(n)
  {
    var x := n as real;
    assert DecimalsOf(x) == 0 by {
      assert Pow10(0) == 1;
      assert WholeAt(x, 0);
    }
    assert Scaled(x) == n by {
      assert Pow10(0) as real == 1.0;
      assert Abs(x) * 1.0 == x;
    }
    var t := NatText(n);
    var d := ScaledDigits(x);
    assert d == t by {
      assert PadZeros(t, 1) == t;
    }
    assert NumberText(x) == "" + d[..|d|] + "";
  }

  /** A number of tenths that is not whole prints with one decimal, so its
      digits read as the count of tenths. */
  lemma Tenths(n: nat)
    requires n % 10 != 0
    ensures DecimalsOf(n as real / 10.0) == 1 && Scaled(n as real / 10.0) == n
  {
    var x := n as real / 10.0;
    assert !WholeAt(x, 0);
    assert Pow10(1) == 10;
    assert x * 10.0 == n as real;
    assert WholeAt(x, 1);
  }

  /** A whole number of thousands, divided by 1000, prints as the quotient. */
  lemma ThousandsWholeText(n: nat)
    requires n % 1000 == 0
    ensures NumberText(n as real / 1000.0) == NatText(n / 1000)
  {
    assert n as real / 1000.0 == (n / 1000) as real;
    WholeNumberText(n / 1000);
  }

  /** A number with one decimal prints its integer part, a point and that decimal. */
  lemma TenthsText(n: nat)
    requires n % 10 != 0 && n >= 10
    ensures NumberText(n as real / 10.0) == NatText(n / 10) + "." + NatText(n % 10)
  {
    var x := n as real / 10.0;
    Tenths(n);
    var t := NatText(n);
    assert t == NatText(n / 10) + [('0' as int + n % 10) as char];
    assert |t| >= 2;
    assert ScaledDigits(x) == PadZeros(t, 2) == t;
    assert t[..|t| - 1] == NatText(n / 10);
    assert t[|t| - 1..] == NatText(n % 10);
  }

  /** A whole number of hundreds, divided by 1000, prints with one decimal. */
  lemma HundredsText(n: nat)
    requires n >= 1000 && n % 100 == 0 && n % 1000 != 0
    ensures NumberText(n as real / 1000.0) == NatText(n / 1000) + "." + NatText(n / 100 % 10)
  {
    var m := n / 100;
    assert n == m * 100;
    assert n as real / 1000.0 == m as real / 10.0;
    assert m / 10 == n / 1000 && m % 10 == n / 100 % 10;
    assert m % 10 != 0 && m >= 10;
    TenthsText(m);
  }

  /** `String(v)`. An array prints its elements joined with ",", a null or
      undefined element as "". */
  function ToText(v: JsVal): string
    decreases v
  {
    match v
    case Undefined => "undefined"
    case Null => "null"
    case Bool(b) => if b then "true" else "false"
    case Num(r) => NumberText(r)
    case Str(s) => s
    case Arr(items) =>
      Join(seq(|items|, i requires 0 <= i < |items| =>
             if items[i].Null? || items[i].Undefined? then "" else ToText(items[i])), ",")
  }

  /** `Number([])` is 0 and `Number([n])` is n: an array reads through its text. */
  lemma ArrayNumber(n: nat)
    ensures ToNumber(Arr([])) == Some(0.0)
    ensures ToNumber(Arr([Num(n as real)])) == Some(n as real)
  {
    assert ToText(Arr([])) == Join([], ",") == "";
    WholeNumberText(n);
    assert ToText(Arr([Num(n as real)])) == Join([NumberText(n as real)], ",") == NatText(n);
    NumberOfDigits(NatText(n));
    NatTextValue(n);
  }

  /** `parts.join(sep)` */
  function Join(parts: seq<string>, sep: string): string {
    if parts == [] then "" else if |parts| == 1 then parts[0] else parts[0] + sep + Join(parts[1..], sep)
  }

  lemma {:induction false} NatTextValue(n: nat)
    ensures DigitsValue(NatText(n)) == n
  {
    if n >= 10 {
      var t := NatText(n);
      assert t[..|t| - 1] == NatText(n / 10);
      NatTextValue(n / 10);
    }
  }

  // ---------------------------------------------------------------- splitting

  /** `s.split(sep)` for a one-character separator. */
  function Split(s: string, sep: char): (r: seq<string>)
    ensures |r| >= 1
  {
    if s == [] then [""]
    else
      var rest := Split(s[1..], sep);
      if s[0] == sep then [""] + rest else [[s[0]] + rest[0]] + rest[1..]
  }

  /** The first piece of `s.split(sep)`: everything before the first separator. */
  lemma {:induction false} SplitHead(s: string, sep: char, k: nat)
    requires k <= |s| && sep !in s[..k] && (k == |s| || s[k] == sep)
    ensures Split(s, sep)[0] == s[..k]
  {
    if k > 0 {
      assert s[1..][..k - 1] == s[1..k];
      SplitHead(s[1..], sep, k - 1);
      assert s[..k] == [s[0]] + s[1..k];
    }
  }

  lemma {:induction false} SplitNoSeparator(s: string, sep: char)
    requires sep !in s
    ensures Split(s, sep) == [s]
  {
    if s != [] {
      SplitNoSeparator(s[1..], sep);
      assert [s[0]] + s[1..] == s;
    }
  }

  /** The first piece of a split: the whole string when it has no separator,
      and one starting with the string's first character otherwise, unless
      that character is the separator. */
  lemma SplitFirstPiece(s: string, sep: char)
    ensures sep !in s ==> Split(s, sep) == [s]
    ensures s != "" && s[0] != sep ==> Split(s, sep)[0] != "" && Split(s, sep)[0][0] == s[0]
  {
    if sep !in s {
      SplitNoSeparator(s, sep);
    }
  }

  /** Splitting `a` + sep + `b` at the one separator. */
  lemma {:induction false} SplitPair(a: string, b: string, sep: char)
    requires sep !in a && sep !in b
    ensures Split(a + [sep] + b, sep) == [a, b]
  {
    if a == [] {
      assert a + [sep] + b == [sep] + b;
      assert ([sep] + b)[1..] == b;
      SplitNoSeparator(b, sep);
    } else {
      assert (a + [sep] + b)[1..] == a[1..] + [sep] + b;
      SplitPair(a[1..], b, sep);
      assert [a[0]] + a[1..] == a;
    }
  }

  /** Splitting at the first separator: the piece before it, then the split
      of the rest. */
  lemma {:induction false} SplitAtFirst(a: string, b: string, sep: char)
    requires sep !in a
    ensures Split(a + [sep] + b, sep) == [a] + Split(b, sep)
  {
    if a == [] {
      assert a + [sep] + b == [sep] + b;
      assert ([sep] + b)[1..] == b;
    } else {
      assert (a + [sep] + b)[1..] == a[1..] + [sep] + b;
      SplitAtFirst(a[1..], b, sep);
      assert [a[0]] + a[1..] == a;
    }
  }

  /** `Number` of a non-empty digit string is its decimal value. */
  lemma NumberOfDigits(d: string)
    requires AllDigits(d) && d != ""
    ensures StringToNumber(d) == Some(DigitsValue(d) as real)
  {
    assert !IsWhite(d[0]) && !IsWhite(d[|d| - 1]);
    assert TrimStart(d) == d;
    assert TrimEnd(d) == d;
    LeadingDigitsOfDigits(d);
    assert d[|d|..] == "";
  }

  // ---------------------------------------------------------------- arrays

  /** `s.filter(p)`: the elements satisfying `p`, in their original order. */
  function Filter<T(!new)>(s: seq<T>, p: T -> bool): (r: seq<T>)
    ensures |r| <= |s|
    ensures forall x :: x in r <==> x in s && p(x)
    ensures forall x :: multiset(r)[x] == if p(x) then multiset(s)[x] else 0
    ensures multiset(r) <= multiset(s)
  {
    if s == [] then []
    else
      assert s == [s[0]] + s[1..];
      (if p(s[0]) then [s[0]] else []) + Filter(s[1..], p)
  }

  /** `a` is `b` with some elements left out, the rest in their order. */
  predicate IsSubsequence<T(==)>(a: seq<T>, b: seq<T>)
    decreases |b|
  {
    a == [] || (b != [] && ((a[0] == b[0] && IsSubsequence(a[1..], b[1..])) || IsSubsequence(a, b[1..])))
  }

  lemma {:induction false} FilterSubsequence<T(!new)>(s: seq<T>, p: T -> bool)
    ensures IsSubsequence(Filter(s, p), s)
  {
    if s != [] {
      FilterSubsequence(s[1..], p);
      var r := Filter(s, p);
      if p(s[0]) {
        assert r == [s[0]] + Filter(s[1..], p);
        assert r[0] == s[0] && r[1..] == Filter(s[1..], p);
      } else {
        assert r == [] + Filter(s[1..], p);
        assert r == Filter(s[1..], p);
      }
    }
  }

  lemma {:induction false} SubsequenceRefl<T>(s: seq<T>)
    ensures IsSubsequence(s, s)
  {
    if s != [] {
      SubsequenceRefl(s[1..]);
    }
  }

  lemma {:induction false} SubsequenceTrans<T>(a: seq<T>, b: seq<T>, c: seq<T>)
    requires IsSubsequence(a, b) && IsSubsequence(b, c)
    ensures IsSubsequence(a, c)
    decreases |c|
  {
    if a != [] {
      if b[0] == c[0] && IsSubsequence(b[1..], c[1..]) {
        if a[0] == b[0] && IsSubsequence(a[1..], b[1..]) {
          SubsequenceTrans(a[1..], b[1..], c[1..]);
        } else {
          SubsequenceTrans(a, b[1..], c[1..]);
        }
      } else {
        SubsequenceTrans(a, b, c[1..]);
      }
    }
  }

  /** No value occurs twice in `s`. */
  predicate Distinct<T(==)>(s: seq<T>) {
    forall i, j :: 0 <= i < j < |s| ==> s[i] != s[j]
  }

  // ---------------------------------------------------------------- sorting

  /** `x` placed before the first element it does not compare greater than. */
  function InsertBy<T(!new)>(x: T, s: seq<T>, cmp: (T, T) -> real): (r: seq<T>)
    ensures |r| == |s| + 1
    ensures multiset(r) == multiset(s) + multiset{x}
    ensures forall y :: y in r <==> y == x || y in s
  {
    if s == [] then [x]
    else if cmp(x, s[0]) <= 0.0 then [x] + s
    else
      assert s == [s[0]] + s[1..];
      [s[0]] + InsertBy(x, s[1..], cmp)
  }

  /** `[...s].sort(cmp)`: a stable sort (ECMAScript 2019 requires one), a
      comparator result of NaN having been read as 0 by the caller. */
  function SortBy<T(!new)>(s: seq<T>, cmp: (T, T) -> real): (r: seq<T>)
    ensures |r| == |s|
    ensures multiset(r) == multiset(s)
    ensures forall y :: y in r <==> y in s
  {
    if s == [] then []
    else
      assert s == [s[0]] + s[1..];
      InsertBy(s[0], SortBy(s[1..], cmp), cmp)
  }

  /** No element of `s` compares greater than a later one. */
  ghost predicate SortedBy<T>(s: seq<T>, cmp: (T, T) -> real) {
    forall i, j :: 0 <= i < j < |s| ==> cmp(s[i], s[j]) <= 0.0
  }

  /** `cmp` is a consistent comparator on the values in `s`: any two compare
      one way or the other, and "not greater" is transitive. */
  ghost predicate ConsistentOn<T>(s: seq<T>, cmp: (T, T) -> real) {
    (forall a, b :: a in s && b in s ==> cmp(a, b) <= 0.0 || cmp(b, a) <= 0.0)
    && (forall a, b, c :: a in s && b in s && c in s && cmp(a, b) <= 0.0 && cmp(b, c) <= 0.0 ==> cmp(a, c) <= 0.0)
  }

  lemma ConsistentOnSubset<T>(s: seq<T>, t: seq<T>, cmp: (T, T) -> real)
    requires ConsistentOn(s, cmp)
    requires forall x :: x in t ==> x in s
    ensures ConsistentOn(t, cmp)
  {
  }

  lemma SortedTail<T>(s: seq<T>, cmp: (T, T) -> real)
    requires SortedBy(s, cmp) && s != []
    ensures SortedBy(s[1..], cmp)
    ensures forall y :: y in s[1..] ==> cmp(s[0], y) <= 0.0
  {
    forall i, j | 0 <= i < j < |s[1..]|
      ensures cmp(s[1..][i], s[1..][j]) <= 0.0
    {
      assert s[1..][i] == s[i + 1] && s[1..][j] == s[j + 1];
    }
    forall y | y in s[1..]
      ensures cmp(s[0], y) <= 0.0
    {
      var m :| 0 <= m < |s[1..]| && s[1..][m] == y;
      assert s[m + 1] == y;
    }
  }

  /** Prepending an element that compares not greater than every element of a sorted sequence. */
  lemma PrependSorted<T>(x: T, s: seq<T>, cmp: (T, T) -> real)
    requires SortedBy(s, cmp)
    requires forall y :: y in s ==> cmp(x, y) <= 0.0
    ensures SortedBy([x] + s, cmp)
  {
    var r := [x] + s;
    forall i, j | 0 <= i < j < |r|
      ensures cmp(r[i], r[j]) <= 0.0
    {
      if i == 0 {
        assert r[j] == s[j - 1];
        assert s[j - 1] in s;
      } else {
        assert r[i] == s[i - 1] && r[j] == s[j - 1];
      }
    }
  }

  lemma {:induction false} InsertBySorted<T(!new)>(x: T, s: seq<T>, cmp: (T, T) -> real)
    requires SortedBy(s, cmp)
    requires ConsistentOn(s + [x], cmp)
    ensures SortedBy(InsertBy(x, s, cmp), cmp)
  {
    if s == [] {
    } else {
      SortedTail(s, cmp);
      assert s[0] in s + [x] && x in s + [x];
      if cmp(x, s[0]) <= 0.0 {
        forall y | y in s
          ensures cmp(x, y) <= 0.0
        {
          if y != s[0] {
            assert y in s + [x];
          }
        }
        PrependSorted(x, s, cmp);
      } else {
        assert cmp(s[0], x) <= 0.0;
        ConsistentOnSubset(s + [x], s[1..] + [x], cmp);
        InsertBySorted(x, s[1..], cmp);
        PrependSorted(s[0], InsertBy(x, s[1..], cmp), cmp);
      }
    }
  }

  /** With a consistent comparator the result is sorted. */
  lemma {:induction false} SortBySorted<T(!new)>(s: seq<T>, cmp: (T, T) -> real)
    requires ConsistentOn(s, cmp)
    ensures SortedBy(SortBy(s, cmp), cmp)
  {
    if s != [] {
      ConsistentOnSubset(s, s[1..], cmp);
      SortBySorted(s[1..], cmp);
      var t := SortBy(s[1..], cmp);
      ConsistentOnSubset(s, t + [s[0]], cmp);
      InsertBySorted(s[0], t, cmp);
    }
  }

  /** When no element compares greater than a later one (in particular when
      every comparison answers 0), the sort keeps the order it was given. */
  lemma {:induction false} SortByKeepsSorted<T(!new)>(s: seq<T>, cmp: (T, T) -> real)
    requires SortedBy(s, cmp)
    ensures SortBy(s, cmp) == s
  {
    if s != [] {
      SortedTail(s, cmp);
      SortByKeepsSorted(s[1..], cmp);
      if |s| > 1 {
        assert s[1..][0] in s[1..];
      }
      assert [s[0]] + s[1..] == s;
    }
  }
}
