/**
 * Small shared vocabulary: an Option type, PHP's implode, the handful of PHP
 * scalar values the library receives from its callers, PHP's notion of an
 * "empty" value and the decimal integer conversions PHP performs.
 */
module Common {

  datatype Option<T> = None | Some(value: T) {
    function GetOr(default: T): T {
      if Some? then value else default
    }
  }

  /** PHP's implode(glue, parts). */
  function Join(glue: string, parts: seq<string>): string
  {
    if |parts| == 0 then ""
    else if |parts| == 1 then parts[0]
    else parts[0] + glue + Join(glue, parts[1..])
  }

  lemma {:induction false} JoinAppend(glue: string, parts: seq<string>, last: string)
    requires |parts| > 0
    ensures Join(glue, parts + [last]) == Join(glue, parts) + glue + last
  {
    if |parts| == 1 {
      assert parts + [last] == [parts[0], last];
    } else {
      assert (parts + [last])[1..] == parts[1..] + [last];
      JoinAppend(glue, parts[1..], last);
    }
  }

  /** Bounds of a PHP integer on a 64-bit build. */
  const IntMin: int := -0x8000_0000_0000_0000
  const IntMax: int := 0x7FFF_FFFF_FFFF_FFFF
  type PhpInt = i: int | IntMin <= i <= IntMax

  /** The dynamically typed values a caller may hand to the library's setters and casts. */
  datatype PhpValue = Null | Bool(b: bool) | Int(i: PhpInt) | Str(s: string) | Arr(items: seq<string>)

  /** PHP's empty() on a string: "" and "0" are empty. */
  predicate EmptyString(s: string) {
    s == "" || s == "0"
  }

  /** PHP's empty() on a value; a value is falsy exactly when it is empty. */
  predicate Empty(v: PhpValue) {
    match v
    case Null => true
    case Bool(b) => !b
    case Int(i) => i == 0
    case Str(s) => EmptyString(s)
    case Arr(a) => |a| == 0
  }

  /** An optional text node or attribute that is present and not empty() ("" and "0" are empty). */
  predicate Given(o: Option<string>) {
    o.Some? && !EmptyString(o.value)
  }

  /** The text PHP interpolates for a value ("{$v}"). */
  function ValueText(v: PhpValue): string {
    match v
    case Null => ""
    case Bool(b) => if b then "1" else ""
    case Int(i) => IntToString(i)
    case Str(s) => s
    case Arr(_) => "Array"
  }

  predicate IsDigit(c: char) {
    '0' <= c <= '9'
  }

  predicate IsSpace(c: char) {
    c == ' ' || c == '\t' || c == '\n' || c == '\r' || c == 11 as char || c == 12 as char
  }

  function DigitChar(d: int): char
    requires 0 <= d < 10
  {
    "0123456789"[d]
  }

  function DigitValue(c: char): (d: nat)
    requires IsDigit(c)
    ensures d < 10
  {
    (c as int) - ('0' as int)
  }

  /** Decimal text of a natural number, without leading zeros. */
  function NatToString(n: nat): (r: string)
    ensures |r| > 0
    ensures forall i :: 0 <= i < |r| ==> IsDigit(r[i])
    ensures r[0] != '0' || n == 0
  {
    if n < 10 then [DigitChar(n)] else NatToString(n / 10) + [DigitChar(n % 10)]
  }

  /** The text PHP produces when an integer is interpolated into a string. */
  function IntToString(n: int): (r: string)
    ensures |r| > 0
  {
    if n < 0 then "-" + NatToString(-n) else NatToString(n)
  }

  /** Value of a run of decimal digits. */
  function DecimalValue(d: string): (v: nat)
    requires forall i :: 0 <= i < |d| ==> IsDigit(d[i])
  {
    if |d| == 0 then 0 else DecimalValue(d[..|d| - 1]) * 10 + DigitValue(d[|d| - 1])
  }

  /** The longest prefix of s made of decimal digits. */
  function LeadingDigits(s: string): (r: string)
    ensures |r| <= |s| && r == s[..|r|]
    ensures forall i :: 0 <= i < |r| ==> IsDigit(r[i])
    ensures |r| < |s| ==> !IsDigit(s[|r|])
  {
    if |s| > 0 && IsDigit(s[0]) then [s[0]] + LeadingDigits(s[1..]) else ""
  }

  /** s without its leading white space. */
  function SkipSpace(s: string): (r: string)
    ensures |r| <= |s| && r == s[|s| - |r|..]
    ensures |r| > 0 ==> !IsSpace(r[0])
  {
    if |s| > 0 && IsSpace(s[0]) then SkipSpace(s[1..]) else s
  }

  function Clamp(n: int): PhpInt {
    if n < IntMin then IntMin else if n > IntMax then IntMax else n
  }

  /**
   * intval() of a string on a 64-bit PHP 7 build: leading white space, an
   * optional sign and the longest run of digits (strtol), saturating at the
   * integer bounds; text with no leading number converts to 0.
   */
  function StrToInt(s: string): PhpInt
  {
    var t := SkipSpace(s);
    if |t| > 0 && t[0] == '-' then Clamp(0 - (DecimalValue(LeadingDigits(t[1..])) as int))
    else if |t| > 0 && t[0] == '+' then Clamp(DecimalValue(LeadingDigits(t[1..])))
    else Clamp(DecimalValue(LeadingDigits(t)))
  }

  /** intval() of any value. */
  function IntVal(v: PhpValue): PhpInt
  {
    match v
    case Null => 0
    case Bool(b) => if b then 1 else 0
    case Int(i) => i
    case Str(s) => StrToInt(s)
    case Arr(a) => if |a| == 0 then 0 else 1
  }

  lemma {:induction false} DecimalValueOfNat(n: nat)
    ensures DecimalValue(NatToString(n)) == n
  {
    var r := NatToString(n);
    if n >= 10 {
      DecimalValueOfNat(n / 10);
      assert r[..|r| - 1] == NatToString(n / 10);
    }
  }

  /** The digits of a number end where the text after them does not continue with a digit. */
  lemma {:induction false} LeadingDigitsOf(d: string, rest: string)
    requires forall i :: 0 <= i < |d| ==> IsDigit(d[i])
    requires |rest| == 0 || !IsDigit(rest[0])
    ensures LeadingDigits(d + rest) == d
  {
    if |d| > 0 {
      assert (d + rest)[1..] == d[1..] + rest;
      LeadingDigitsOf(d[1..], rest);
    } else {
      assert d + rest == rest;
    }
  }

  lemma SkipSpaceNoSpace(s: string)
    requires |s| > 0 && !IsSpace(s[0])
    ensures SkipSpace(s) == s
  {
  }

  lemma ClampId(n: int)
    requires IntMin <= n <= IntMax
    ensures Clamp(n) == n
  {
  }

  lemma StrToIntOfDigits(m: string, rest: string)
    requires |m| > 0 && forall i :: 0 <= i < |m| ==> IsDigit(m[i])
    requires |rest| == 0 || !IsDigit(rest[0])
    ensures StrToInt(m + rest) == Clamp(DecimalValue(m))
  {
    var t := m + rest;
    assert t[0] == m[0];
    assert !IsSpace(t[0]) && t[0] != '-' && t[0] != '+';
    calc {
      StrToInt(t);
      { SkipSpaceNoSpace(t); }
      Clamp(DecimalValue(LeadingDigits(t)));
      { LeadingDigitsOf(m, rest); }
      Clamp(DecimalValue(m));
    }
  }

  lemma StrToIntOfSigned(r: string, m: string)
    requires |r| > 0 && r[0] == '-' && SkipSpace(r) == r && LeadingDigits(r[1..]) == m
    requires forall i :: 0 <= i < |m| ==> IsDigit(m[i])
    ensures StrToInt(r) == Clamp(0 - (DecimalValue(m) as int))
  {
  }

  lemma StrToIntOfNegDigits(r: string, m: string, rest: string)
    requires |r| > 0 && r[0] == '-' && r[1..] == m + rest
    requires forall i :: 0 <= i < |m| ==> IsDigit(m[i])
    requires |rest| == 0 || !IsDigit(rest[0])
    ensures StrToInt(r) == Clamp(0 - (DecimalValue(m) as int))
  {
    assert !IsSpace(r[0]);
    SkipSpaceNoSpace(r);
    LeadingDigitsOf(m, rest);
    StrToIntOfSigned(r, m);
  }

  lemma StrToIntOfNegative(n: PhpInt, rest: string)
    requires n < 0
    requires |rest| == 0 || !IsDigit(rest[0])
    ensures StrToInt(IntToString(n) + rest) == n
  {
    var k: nat := -(n as int);
    var m := NatToString(k);
    var r := "-" + m + rest;
    calc {
      StrToInt(IntToString(n) + rest);
      { assert IntToString(n) + rest == r; }
      StrToInt(r);
      { assert r[1..] == m + rest; StrToIntOfNegDigits(r, m, rest); }
      Clamp(0 - (DecimalValue(m) as int));
      { DecimalValueOfNat(k); }
      Clamp(0 - k);
      { ClampId(n); }
      n;
    }
  }

  lemma StrToIntOfNonNegative(n: PhpInt, rest: string)
    requires n >= 0
    requires |rest| == 0 || !IsDigit(rest[0])
    ensures StrToInt(IntToString(n) + rest) == n
  {
    StrToIntOfDigits(IntToString(n), rest);
    DecimalValueOfNat(n as int);
    ClampId(n);
  }

  /**
   * intval() reads back the integer PHP printed, also when other text that
   * does not start with a digit follows it.
   */
  lemma StrToIntOfPrinted(n: PhpInt, rest: string)
    requires |rest| == 0 || !IsDigit(rest[0])
    ensures StrToInt(IntToString(n) + rest) == n
  {
    if n < 0 {
      StrToIntOfNegative(n, rest);
    } else {
      StrToIntOfNonNegative(n, rest);
    }
  }

  /** Printing a PHP integer and converting the text back yields the integer. */
  lemma StrToIntOfIntToString(n: PhpInt)
    ensures StrToInt(IntToString(n)) == n
  {
    StrToIntOfPrinted(n, "");
    assert IntToString(n) + "" == IntToString(n);
  }
}
