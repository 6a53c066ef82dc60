/** Decimal text for integers as the C++ standard library writes and reads it:
    `std::to_string(int)` and `std::stoi(s)` (base 10), plus the narrowing of
    an unsigned count to a 32-bit `int`. */
module Decimal {
  import opened Results

  const IntMin: int := -0x8000_0000
  const IntMax: int := 0x7fff_ffff

  /** The range of a 32-bit C++ `int`. */
  predicate InInt(n: int) {
    IntMin <= n <= IntMax
  }

  /** Conversion of a count (`size_t`) to `int`: wraps modulo 2^32. */
  function ToInt(n: nat): (r: int)
    ensures InInt(r)
    ensures (n - r) % 0x1_0000_0000 == 0
    ensures n <= IntMax ==> r == n
  {
    var w := n % 0x1_0000_0000;
    if w <= IntMax then w else w - 0x1_0000_0000
  }

  predicate IsDigit(c: char) {
    '0' <= c <= '9'
  }

  predicate AllDigits(s: string) {
    forall i :: 0 <= i < |s| ==> IsDigit(s[i])
  }

  /** The white space `std::stoi` skips before the number (`isspace` in the C locale). */
  predicate IsSpace(c: char) {
    c == ' ' || c == '\t' || c == '\n' || c == '\r' || c == '\U{C}' || c == '\U{B}'
  }

  function DigitChar(d: nat): (c: char)
    requires d < 10
    ensures IsDigit(c)
  {
    (('0' as int) + d) as char
  }

  function DigitValue(c: char): (d: nat)
    requires IsDigit(c)
    ensures d < 10
  {
    (c as int) - ('0' as int)
  }

  lemma DigitRoundTrip(d: nat)
    requires d < 10
    ensures DigitValue(DigitChar(d)) == d
  {
  }

  /** Decimal digits of a natural number, most significant first, no leading zeros. */
  function NatToString(n: nat): (s: string)
    decreases n
  {
    if n < 10 then [DigitChar(n)] else NatToString(n / 10) + [DigitChar(n % 10)]
  }

  /** `std::to_string`: a minus sign for negative numbers, then the digits. */
  function IntToString(n: int): (s: string) {
    if n < 0 then "-" + NatToString(-n) else NatToString(n)
  }

  /** The text of a natural number is a non-empty run of digits without a
      leading zero. */
  lemma {:induction false} NatToStringDigits(n: nat)
    ensures |NatToString(n)| > 0 && AllDigits(NatToString(n))
    ensures |NatToString(n)| > 1 ==> NatToString(n)[0] != '0'
    decreases n
  {
    if n >= 10 {
      NatToStringDigits(n / 10);
      var head := NatToString(n / 10);
      assert NatToString(n) == head + [DigitChar(n % 10)];
      assert NatToString(n)[0] == head[0];
    }
  }

  /** The text of an integer starts with a minus sign exactly when the integer
      is negative, and never with white space. */
  lemma IntToStringShape(n: int)
    ensures |IntToString(n)| > 0 && !IsSpace(IntToString(n)[0])
    ensures n < 0 <==> IntToString(n)[0] == '-'
  {
    NatToStringDigits(if n < 0 then -n else n);
  }

  /** The number a string of decimal digits denotes. */
  function DigitsValue(ds: string): (v: nat)
    requires AllDigits(ds)
    decreases |ds|
  {
    if |ds| == 0 then 0 else DigitsValue(ds[..|ds| - 1]) * 10 + DigitValue(ds[|ds| - 1])
  }

  function SkipSpaces(s: string): (t: string)
    decreases |s|
  {
    if |s| > 0 && IsSpace(s[0]) then SkipSpaces(s[1..]) else s
  }

  /** Skipping spaces leaves a suffix that does not start with a space. */
  lemma {:induction false} SkipSpacesSuffix(s: string)
    ensures var t := SkipSpaces(s); |t| <= |s| && t == s[|s| - |t|..]
    ensures var t := SkipSpaces(s); |t| > 0 ==> !IsSpace(t[0])
    decreases |s|
  {
    if |s| > 0 && IsSpace(s[0]) {
      SkipSpacesSuffix(s[1..]);
    }
  }

  /** The longest prefix of `s` made of digits. */
  function LeadingDigits(s: string): (ds: string)
    decreases |s|
  {
    if |s| > 0 && IsDigit(s[0]) then [s[0]] + LeadingDigits(s[1..]) else []
  }

  /** The leading digits are a prefix of digits that cannot be extended. */
  lemma {:induction false} LeadingDigitsPrefix(s: string)
    ensures var ds := LeadingDigits(s); AllDigits(ds) && ds <= s
    ensures var ds := LeadingDigits(s); |ds| < |s| ==> !IsDigit(s[|ds|])
    decreases |s|
  {
    if |s| > 0 && IsDigit(s[0]) {
      LeadingDigitsPrefix(s[1..]);
    }
  }

  /** What `strtol(s, _, 10)` reads before range checking: skip spaces, an
      optional sign, then the longest run of digits; None when there is no digit. */
  function ReadInt(s: string): (r: Option<int>)
    ensures r.Some? ==> exists i :: 0 <= i < |s| && IsDigit(s[i])
  {
    var t := SkipSpaces(s);
    SkipSpacesSuffix(s);
    var signed := |t| > 0 && (t[0] == '-' || t[0] == '+');
    var body := if signed then t[1..] else t;
    var ds := LeadingDigits(body);
    LeadingDigitsPrefix(body);
    if |ds| == 0 then None
    else
      assert IsDigit(s[|s| - |body|]);
      var v: int := DigitsValue(ds);
      Some(if signed && t[0] == '-' then -v else v)
  }

  /** `std::stoi(s)`: the number at the head of `s`, `std::invalid_argument` when
      there is none, `std::out_of_range` when it does not fit an `int`. */
  function Stoi(s: string): (r: Result<int>)
    ensures r.Ok? ==> InInt(r.value)
    ensures (forall i :: 0 <= i < |s| ==> !IsDigit(s[i])) ==> r == Err(InvalidArgument)
  {
    match ReadInt(s)
    case None => Err(InvalidArgument)
    case Some(v) => if InInt(v) then Ok(v) else Err(OutOfRange)
  }

  lemma {:induction false} DigitsValueOfNatToString(n: nat)
    ensures AllDigits(NatToString(n)) && DigitsValue(NatToString(n)) == n
    decreases n
  {
    NatToStringDigits(n);
    var s := NatToString(n);
    if n >= 10 {
      DigitsValueOfNatToString(n / 10);
      assert s[..|s| - 1] == NatToString(n / 10);
      DigitRoundTrip(n % 10);
    } else {
      DigitRoundTrip(n);
    }
  }

  lemma {:induction false} LeadingDigitsOfDigits(s: string)
    requires AllDigits(s)
    ensures LeadingDigits(s) == s
    decreases |s|
  {
    if |s| > 0 {
      LeadingDigitsOfDigits(s[1..]);
    }
  }

  /** Reading back what `std::to_string` wrote gives the number, for every integer. */
  lemma ReadIntToString(n: int)
    ensures ReadInt(IntToString(n)) == Some(n)
  {
    if n < 0 {
      ReadNegative(n);
    } else {
      ReadNonNegative(n);
    }
  }

  lemma ReadNonNegative(n: nat)
    ensures ReadInt(IntToString(n)) == Some(n)
  {
    var s := IntToString(n);
    IntToStringShape(n);
    assert SkipSpaces(s) == s;
    DigitsValueOfNatToString(n);
    LeadingDigitsOfDigits(s);
  }

  lemma ReadNegative(n: int)
    requires n < 0
    ensures ReadInt(IntToString(n)) == Some(n)
  {
    var s := IntToString(n);
    var digits := NatToString(-n);
    assert s == "-" + digits;
    NatToStringDigits(-n);
    DigitsValueOfNatToString(-n);
    ReadMinusDigits(digits);
  }

  /** A minus sign followed by digits only reads as the negated digits. */
  lemma ReadMinusDigits(digits: string)
    requires |digits| > 0 && AllDigits(digits)
    ensures ReadInt("-" + digits) == Some(-(DigitsValue(digits) as int))
  {
    MinusPrefix(digits);
    LeadingDigitsOfDigits(digits);
  }

  lemma MinusPrefix(digits: string)
    ensures SkipSpaces("-" + digits) == "-" + digits
    ensures ("-" + digits)[1..] == digits
  {
    var s := "-" + digits;
    assert s[0] == '-';
  }

  /** `std::stoi` inverts `std::to_string` on every `int`. */
  lemma StoiRoundTrip(n: int)
    requires InInt(n)
    ensures Stoi(IntToString(n)) == Ok(n)
  {
    ReadIntToString(n);
  }

  /** Distinct integers have distinct decimal texts. */
  lemma IntToStringInjective(a: int, b: int)
    ensures IntToString(a) == IntToString(b) ==> a == b
  {
    ReadIntToString(a);
    ReadIntToString(b);
  }
}
