/** The standard library's `FromStr` for unsigned integers (`u8`, `u16`,
    `usize`), which `str::parse::<u16>()` and its siblings call: an optional
    `+`, then one or more ASCII digits, accumulated with overflow checks. */
module UnsignedParse {
  import opened Results

  const U8_MAX: nat := 0xFF
  const U16_MAX: nat := 0xFFFF
  /** `usize` on the 64-bit targets the tool is built for. */
  const USIZE_MAX: nat := 0xFFFF_FFFF_FFFF_FFFF

  type uint8 = x: int | 0 <= x <= 0xFF
  type uint16 = x: int | 0 <= x <= 0xFFFF
  type uint64 = x: int | 0 <= x <= 0xFFFF_FFFF_FFFF_FFFF

  predicate IsDigit(c: char) {
    '0' <= c <= '9'
  }

  predicate AllDigits(s: string) {
    forall i :: 0 <= i < |s| ==> IsDigit(s[i])
  }

  function DigitValue(c: char): nat
    requires IsDigit(c)
  {
    c as int - '0' as int
  }

  function DigitChar(d: nat): (c: char)
    requires d < 10
    ensures IsDigit(c) && DigitValue(c) == d
  {
    ('0' as int + d) as char
  }

  // ---------------------------------------------------------------------
  // What the parser accepts, stated as a grammar and a value

  /** The text after the one optional leading `+`. */
  function Unsigned(s: string): string {
    if |s| > 0 && s[0] == '+' then s[1..] else s
  }

  /** An optional `+` followed by at least one ASCII digit: no sign `-`,
      no whitespace, no other character. */
  predicate WellFormed(s: string) {
    |Unsigned(s)| > 0 && AllDigits(Unsigned(s))
  }

  /** The decimal value of the digits `ds`, read left to right after `acc`. */
  function ValueFrom(acc: nat, ds: string): nat
    requires AllDigits(ds)
    decreases |ds|
  {
    if ds == [] then acc else ValueFrom(acc * 10 + DigitValue(ds[0]), ds[1..])
  }

  function Value(s: string): nat
    requires WellFormed(s)
  {
    ValueFrom(0, Unsigned(s))
  }

  // ---------------------------------------------------------------------
  // The parser as the standard library runs it

  /** One digit at a time: multiply by ten, then add the digit, failing as
      soon as either step would exceed `max` or a character is not a digit. */
  function Accumulate(ds: string, acc: nat, max: nat): (r: Option<nat>)
    requires acc <= max
    ensures r.Some? <==> AllDigits(ds) && ValueFrom(acc, ds) <= max
    ensures r.Some? ==> r.value == ValueFrom(acc, ds)
    decreases |ds|
  {
    if ds == [] then Some(acc)
    else if acc * 10 > max then
      assert AllDigits(ds) ==> ValueFrom(acc, ds) > max by {
        if AllDigits(ds) { ValueFromAtLeast(acc * 10 + DigitValue(ds[0]), ds[1..]); }
      }
      None
    else if !IsDigit(ds[0]) then None
    else if acc * 10 + DigitValue(ds[0]) > max then
      assert AllDigits(ds) ==> ValueFrom(acc, ds) > max by {
        if AllDigits(ds) { ValueFromAtLeast(acc * 10 + DigitValue(ds[0]), ds[1..]); }
      }
      None
    else Accumulate(ds[1..], acc * 10 + DigitValue(ds[0]), max)
  }

  /** Parses `s` as an unsigned integer no larger than `max`; `None` is the
      standard library's `ParseIntError` (empty, invalid digit or overflow). */
  function ParseUnsigned(s: string, max: nat): (r: Option<nat>)
    ensures r.Some? <==> WellFormed(s) && Value(s) <= max
    ensures r.Some? ==> r.value == Value(s) && r.value <= max
  {
    if |s| == 0 then None
    else if (s[0] == '+' || s[0] == '-') && |s| == 1 then None
    else if s[0] == '+' then Accumulate(s[1..], 0, max)
    else Accumulate(s, 0, max)
  }

  function ParseU8(s: string): (r: Option<uint8>)
    ensures r.Some? <==> WellFormed(s) && Value(s) <= U8_MAX
    ensures r.Some? ==> r.value == Value(s)
  {
    match ParseUnsigned(s, U8_MAX)
    case None => None
    case Some(n) => Some(n)
  }

  function ParseU16(s: string): (r: Option<uint16>)
    ensures r.Some? <==> WellFormed(s) && Value(s) <= U16_MAX
    ensures r.Some? ==> r.value == Value(s)
  {
    match ParseUnsigned(s, U16_MAX)
    case None => None
    case Some(n) => Some(n)
  }

  function ParseUsize(s: string): (r: Option<uint64>)
    ensures r.Some? <==> WellFormed(s) && Value(s) <= USIZE_MAX
    ensures r.Some? ==> r.value == Value(s)
  {
    match ParseUnsigned(s, USIZE_MAX)
    case None => None
    case Some(n) => Some(n)
  }

  // ---------------------------------------------------------------------
  // Decimal rendering, the parser's inverse

  /** The shortest decimal rendering of `n`, as `n.to_string()` prints it. */
  function ToDecimal(n: nat): (s: string)
    ensures |s| > 0 && AllDigits(s)
  {
    if n < 10 then [DigitChar(n)] else ToDecimal(n / 10) + [DigitChar(n % 10)]
  }

  lemma ValueFromAtLeast(acc: nat, ds: string)
    requires AllDigits(ds)
    ensures ValueFrom(acc, ds) >= acc
    decreases |ds|
  {
    if ds != [] {
      ValueFromAtLeast(acc * 10 + DigitValue(ds[0]), ds[1..]);
    }
  }

  /** Appending a digit multiplies the value read so far by ten and adds it. */
  lemma {:induction false} ValueFromAppend(acc: nat, ds: string, c: char)
    requires AllDigits(ds) && IsDigit(c)
    ensures AllDigits(ds + [c])
    ensures ValueFrom(acc, ds + [c]) == ValueFrom(acc, ds) * 10 + DigitValue(c)
    decreases |ds|
  {
    if ds == [] {
      assert ds + [c] == [c];
    } else {
      assert (ds + [c])[1..] == ds[1..] + [c];
      ValueFromAppend(acc * 10 + DigitValue(ds[0]), ds[1..], c);
    }
  }

  lemma {:induction false} ToDecimalValue(n: nat)
    ensures ValueFrom(0, ToDecimal(n)) == n
  {
    if n >= 10 {
      ToDecimalValue(n / 10);
      ValueFromAppend(0, ToDecimal(n / 10), DigitChar(n % 10));
    }
  }

  /** Parsing a decimal rendering, with or without a leading `+`, gives the
      number back exactly when it fits the target width. */
  lemma ParseDecimalRoundTrip(n: nat, max: nat)
    ensures ParseUnsigned(ToDecimal(n), max) == if n <= max then Some(n) else None
    ensures ParseUnsigned("+" + ToDecimal(n), max) == if n <= max then Some(n) else None
  {
    var s := ToDecimal(n);
    ToDecimalValue(n);
    assert Unsigned(s) == s;
    assert Unsigned("+" + s) == s;
  }

  /** Text holding any character other than a digit, except a `+` in
      front (a `-` sign, whitespace, a letter, a second or misplaced `+`),
      never parses. */
  lemma RejectsForeignCharacter(s: string, max: nat, i: nat)
    requires i < |s| && !IsDigit(s[i]) && !(i == 0 && s[i] == '+')
    ensures ParseUnsigned(s, max) == None
  {
  }

  lemma RejectsEmptyAndBareSign(max: nat)
    ensures ParseUnsigned("", max) == None
    ensures ParseUnsigned("+", max) == None
    ensures ParseUnsigned("-", max) == None
  {
  }
}
