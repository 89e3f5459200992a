/**
 * The two `fmt` verbs the controller relies on: printing an int32 with `%02d` and scanning one back
 * with `%d`. A char stands for one rune.
 */
module GoFmt {
  import opened Wrappers

  const MAX_INT32: int := 0x7fff_ffff
  const MIN_INT32: int := -0x8000_0000

  newtype int32 = x: int | -0x8000_0000 <= x < 0x8000_0000

  /** An int32 field, read as an integer. */
  type Int32 = x: int | -0x8000_0000 <= x < 0x8000_0000

  predicate InInt32(n: int) {
    MIN_INT32 <= n <= MAX_INT32
  }

  /** Two's complement truncation, the meaning of every int32 operation and conversion. */
  function Wrap32(n: int): (r: Int32)
    ensures InInt32(n) ==> r == n
    ensures (r - n) % 0x1_0000_0000 == 0
  {
    var m := n % 0x1_0000_0000;
    if m < 0x8000_0000 then m else m - 0x1_0000_0000
  }

  /* ---------- printing ---------- */

  function Digit(d: nat): char
    requires d < 10
  {
    '0' + (d as char)
  }

  function Decimal(n: nat): string {
    if n < 10 then [Digit(n)] else Decimal(n / 10) + [Digit(n % 10)]
  }

  /** `%02d`: at least two characters wide, padded with zeros. A minus sign takes one of the two. */
  function Pad2(n: int): string {
    if n < 0 then "-" + Decimal(-n) else if n < 10 then "0" + Decimal(n) else Decimal(n)
  }

  /* ---------- scanning ---------- */

  predicate IsDigit(c: char) {
    '0' <= c <= '9'
  }

  /** The white space that the scanner skips (the runes fmt treats as spaces). */
  predicate IsSpace(c: char) {
    var r := c as int;
    || 0x9 <= r <= 0xd || r == 0x20 || r == 0x85 || r == 0xa0 || r == 0x1680
    || 0x2000 <= r <= 0x200a || r == 0x2028 || r == 0x2029 || r == 0x202f || r == 0x205f || r == 0x3000
  }

  /** A verb first skips white space; a newline is an error. */
  function SkipSpace(s: string): Option<string> {
    if s == [] || !IsSpace(s[0]) then Some(s)
    else if s[0] == '\n' then None
    else SkipSpace(s[1..])
  }

  /** The length of the longest run of digits at the front. */
  function DigitRun(s: string): (k: nat)
    ensures k <= |s|
    ensures forall i :: 0 <= i < k ==> IsDigit(s[i])
    ensures k < |s| ==> !IsDigit(s[k])
  {
    if s == [] || !IsDigit(s[0]) then 0 else 1 + DigitRun(s[1..])
  }

  function DigitValue(c: char): nat
    requires IsDigit(c)
  {
    c as int - '0' as int
  }

  predicate AllDigits(s: string) {
    forall i :: 0 <= i < |s| ==> IsDigit(s[i])
  }

  function Value(s: string): nat
    requires AllDigits(s)
  {
    if s == [] then 0 else 10 * Value(s[..|s| - 1]) + DigitValue(s[|s| - 1])
  }

  /** Digits, an optional sign before them, and a value that an int32 can hold. What follows is ignored. */
  function ScanDigits(s: string, sign: int): Option<int> {
    var k := DigitRun(s);
    if k == 0 then None
    else
      var v := sign * Value(s[..k]);
      if InInt32(v) then Some(v) else None
  }

  function ScanInt(s: string): Option<int> {
    match SkipSpace(s)
    case None => None
    case Some(t) =>
      if t != [] && t[0] == '-' then ScanDigits(t[1..], -1)
      else if t != [] && t[0] == '+' then ScanDigits(t[1..], 1)
      else ScanDigits(t, 1)
  }

  /* ---------- the round trip ---------- */

  lemma {:induction false} DecimalValue(n: nat)
    ensures |Decimal(n)| > 0 && AllDigits(Decimal(n)) && Value(Decimal(n)) == n
  {
    if n < 10 {
      assert Decimal(n)[..0] == [];
    } else {
      DecimalValue(n / 10);
      var s := Decimal(n);
      assert s[..|s| - 1] == Decimal(n / 10);
    }
  }

  lemma {:induction false} LeadingZero(s: string)
    requires AllDigits(s)
    ensures AllDigits("0" + s) && Value("0" + s) == Value(s)
  {
    var z := "0" + s;
    assert AllDigits(z);
    if s == [] {
      assert z[..0] == [];
    } else {
      LeadingZero(s[..|s| - 1]);
      assert z[..|z| - 1] == "0" + s[..|s| - 1];
    }
  }

  /** Two characters at least; a zero in front only where it fills the width. */
  lemma PaddedWidth(n: nat)
    ensures |Pad2(n)| >= 2 && AllDigits(Pad2(n)) && Value(Pad2(n)) == n
    ensures |Pad2(n)| > 2 ==> Pad2(n)[0] != '0'
  {
    DecimalValue(n);
    LeadingZero(Decimal(n));
    if n >= 10 {
      DecimalValue(n / 10);
      NoLeadingZero(n);
    }
  }

  lemma {:induction false} NoLeadingZero(n: nat)
    requires n > 0
    ensures Decimal(n) != [] && Decimal(n)[0] != '0'
  {
    if n >= 10 {
      NoLeadingZero(n / 10);
      assert Decimal(n)[0] == Decimal(n / 10)[0];
    }
  }

  /** A run of digits ends where the digits end. */
  lemma {:induction false} DigitRunOf(d: string, rest: string)
    requires AllDigits(d)
    requires rest == [] || !IsDigit(rest[0])
    ensures DigitRun(d + rest) == |d|
  {
    if d != [] {
      assert (d + rest)[1..] == d[1..] + rest;
      DigitRunOf(d[1..], rest);
    }
  }

  lemma ScanDigitsOf(d: string, rest: string, sign: int)
    requires AllDigits(d) && d != []
    requires rest == [] || !IsDigit(rest[0])
    ensures ScanDigits(d + rest, sign) == if InInt32(sign * Value(d)) then Some(sign * Value(d)) else None
  {
    DigitRunOf(d, rest);
    assert (d + rest)[..|d|] == d;
  }

  /** Scanning what was printed gives the number back, whatever non-digit text follows it. */
  lemma ScanPrinted(n: int, rest: string)
    requires InInt32(n)
    requires rest == [] || !IsDigit(rest[0])
    ensures ScanInt(Pad2(n) + rest) == Some(n)
  {
    var p := Pad2(n);
    if n < 0 {
      DecimalValue(-n);
      ScanDigitsOf(Decimal(-n), rest, -1);
      assert (p + rest)[1..] == Decimal(-n) + rest;
      assert !IsSpace((p + rest)[0]);
    } else {
      DecimalValue(n);
      LeadingZero(Decimal(n));
      ScanDigitsOf(p, rest, 1);
      assert IsDigit((p + rest)[0]);
    }
  }

  /** The scanner also takes an explicit plus sign. */
  lemma ScanSigned(n: nat, rest: string)
    requires InInt32(n)
    requires rest == [] || !IsDigit(rest[0])
    ensures ScanInt("+" + Pad2(n) + rest) == Some(n)
  {
    DecimalValue(n);
    LeadingZero(Decimal(n));
    ScanDigitsOf(Pad2(n), rest, 1);
    assert ("+" + Pad2(n) + rest)[1..] == Pad2(n) + rest;
  }

  /** White space in front of a number is skipped, a newline is not, and a number too big for an int32 is refused. */
  lemma ScanEdges(s: string, n: nat, rest: string)
    requires rest == [] || !IsDigit(rest[0])
    ensures ScanInt([' '] + s) == ScanInt(s) && ScanInt(['\t'] + s) == ScanInt(s) && ScanInt(['\n'] + s) == None
    ensures ScanInt(Decimal(n) + rest) == if n <= MAX_INT32 then Some(n) else None
    ensures s == [] || (s[0] != '+' && s[0] != '-' && !IsDigit(s[0]) && !IsSpace(s[0])) ==> ScanInt(s) == None
  {
    assert ([' '] + s)[1..] == s && (['\t'] + s)[1..] == s;
    DecimalValue(n);
    ScanDigitsOf(Decimal(n), rest, 1);
    assert IsDigit((Decimal(n) + rest)[0]);
    hide Decimal, Value;
  }
}
