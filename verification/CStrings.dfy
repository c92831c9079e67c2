/** Numbers in text, as printf writes them and the strto functions of C read them. */
module CStrings {

  predicate IsDigit(c: char) {
    '0' <= c <= '9'
  }

  function DigitValue(c: char): nat
    requires IsDigit(c)
  {
    c as nat - '0' as nat
  }

  function DigitChar(d: nat): (c: char)
    requires d < 10
    ensures IsDigit(c) && DigitValue(c) == d
  {
    ('0' as nat + d) as char
  }

  /** Decimal notation. */
  function Decimal(n: nat): (s: string)
    ensures s != "" && forall i :: 0 <= i < |s| ==> IsDigit(s[i])
  {
    if n < 10 then [DigitChar(n)] else Decimal(n / 10) + [DigitChar(n % 10)]
  }

  function Value(digits: string): nat
    requires forall i :: 0 <= i < |digits| ==> IsDigit(digits[i])
  {
    if digits == "" then 0 else Value(digits[..|digits| - 1]) * 10 + DigitValue(digits[|digits| - 1])
  }

  lemma {:induction false} DecimalValue(n: nat)
    ensures Value(Decimal(n)) == n
  {
    if n < 10 {
      assert Decimal(n)[..0] == "";
    } else {
      DecimalValue(n / 10);
      var s := Decimal(n);
      assert s[..|s| - 1] == Decimal(n / 10);
    }
  }

  predicate IsSpace(c: char) {
    c == ' ' || '\t' as nat <= c as nat <= '\r' as nat
  }

  function SkipSpaces(s: string): string {
    if s != "" && IsSpace(s[0]) then SkipSpaces(s[1..]) else s
  }

  /** How many digits s starts with. */
  function DigitRun(s: string): (n: nat)
    ensures n <= |s| && forall i :: 0 <= i < n ==> IsDigit(s[i])
    ensures n < |s| ==> !IsDigit(s[n])
  {
    if s != "" && IsDigit(s[0]) then
      var rest := DigitRun(s[1..]);
      assert forall i :: 1 <= i < rest + 1 ==> s[i] == s[1..][i - 1];
      1 + rest
    else 0
  }

  /** The text before the terminating NUL of a C string. */
  function CString(s: string): string {
    if s == "" || s[0] == '\0' then "" else [s[0]] + CString(s[1..])
  }

  /** A conversion: the number, whether it was in range, and what follows it. */
  datatype Conversion = Conversion(number: int, inRange: bool, rest: string)

  /** Without any digits nothing is converted, and everything follows. */
  function Signed(s: string, low: int, high: int): Conversion {
    var t := SkipSpaces(s);
    var negative := t != "" && t[0] == '-';
    var u := if t != "" && (t[0] == '-' || t[0] == '+') then t[1..] else t;
    var n := DigitRun(u);
    if n == 0 then Conversion(0, true, s)
    else
      var magnitude: int := Value(u[..n]);
      var v := if negative then -magnitude else magnitude;
      if v < low then Conversion(low, false, u[n..])
      else if v > high then Conversion(high, false, u[n..])
      else Conversion(v, true, u[n..])
  }

  const INT_MAX := 0x7fff_ffff
  const UNSIGNED_LONG_LONG_MAX := 0xffff_ffff_ffff_ffff

  /** A long holds at least an int; how much more depends on the platform. */
  function StrToL(s: string, longMax: int): Conversion {
    Signed(CString(s), -longMax - 1, longMax)
  }

  /** Conversion to a 32-bit int. */
  function ToInt(n: int): (i: int)
    ensures -INT_MAX - 1 <= i <= INT_MAX
    ensures -INT_MAX - 1 <= n <= INT_MAX ==> i == n
  {
    var low := n % 0x1_0000_0000;
    if low > INT_MAX then low - 0x1_0000_0000 else low
  }

  /** Conversion to a 32-bit unsigned int. */
  function ToUnsigned(n: int): (u: nat)
    ensures u < 0x1_0000_0000
    ensures 0 <= n < 0x1_0000_0000 ==> u == n
  {
    n % 0x1_0000_0000
  }

  /** An unsigned int survives being stored as an int. */
  lemma UnsignedThroughInt(u: nat)
    requires u < 0x1_0000_0000
    ensures ToUnsigned(ToInt(u)) == u
  {
  }

  /** A minus sign wraps around. */
  function StrToULL(s: string): Conversion {
    var c := Signed(CString(s), -UNSIGNED_LONG_LONG_MAX, UNSIGNED_LONG_LONG_MAX);
    if !c.inRange then c.(number := UNSIGNED_LONG_LONG_MAX)
    else if c.number < 0 then c.(number := c.number + UNSIGNED_LONG_LONG_MAX + 1)
    else c
  }

  lemma {:induction false} AllDigits(s: string)
    requires forall i :: 0 <= i < |s| ==> IsDigit(s[i])
    ensures DigitRun(s) == |s| && CString(s) == s && SkipSpaces(s) == s
  {
    if s != "" {
      AllDigits(s[1..]);
      assert s == [s[0]] + s[1..];
    }
  }

  /** Reading back a printed number. */
  lemma PrintedNumber(n: nat, longMax: int)
    ensures n <= longMax ==> StrToL(Decimal(n), longMax) == Conversion(n, true, "")
    ensures n <= UNSIGNED_LONG_LONG_MAX ==> StrToULL(Decimal(n)) == Conversion(n, true, "")
  {
    hide Decimal, DigitRun, CString, SkipSpaces, Value;
    var s := Decimal(n);
    AllDigits(s);
    DecimalValue(n);
    assert s[..|s|] == s;
  }
}
