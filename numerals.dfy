/** Rendering of integers as digit strings, the way Python's `str(n)`
    (decimal) and `"{:02x}".format(n)` (lower-case hexadecimal, zero-padded
    to two places) write them, together with reference readers that recover
    the number from the text. */
module Numerals {

  datatype Option<T> = None | Some(value: T)

  /** Every digit in `ds` is below `base`. */
  predicate AllBelow(ds: seq<nat>, base: nat)
  {
    forall i :: 0 <= i < |ds| ==> ds[i] < base
  }

  lemma DivMod(n: nat, base: nat)
    requires 2 <= base <= n
    ensures 1 <= n / base < n && n % base < base
    ensures n / base * base + n % base == n
  {
  }

  /** Digit values of `n` in `base`, most significant first. Zero is the
      single digit 0; no other number gets a leading zero. */
  function Digits(n: nat, base: nat): (ds: seq<nat>)
    requires 2 <= base <= 16
    ensures 1 <= |ds|
    ensures AllBelow(ds, base)
    ensures ds[0] == 0 ==> n == 0
    ensures Value(ds, base) == n
    decreases n
  {
    if n < base then [n]
    else
      DivMod(n, base);
      var front := Digits(n / base, base);
      var ds := front + [n % base];
      assert ds[..|front|] == front;
      ds
  }

  /** The number a most-significant-first digit sequence denotes. */
  function Value(ds: seq<nat>, base: nat): nat
  {
    if ds == [] then 0 else Value(ds[..|ds| - 1], base) * base + ds[|ds| - 1]
  }

  /** A number below `base` has one digit; one below `base * base` has two. */
  lemma {:induction false} DigitsLength(n: nat, base: nat)
    requires 2 <= base <= 16
    ensures n < base ==> Digits(n, base) == [n]
    ensures base <= n < base * base ==> Digits(n, base) == [n / base, n % base]
  {
    if base <= n < base * base {
      assert n / base < base;
    }
  }

  /** The character Python writes for a digit value: '0'..'9', then 'a'..'f'. */
  function DigitChar(d: nat): (c: char)
    requires d < 16
    ensures IsLowerHexDigit(c)
    ensures CharValue(c) == Some(d)
  {
    if d < 10 then ('0' as int + d) as char else ('a' as int + d - 10) as char
  }

  predicate IsLowerHexDigit(c: char)
  {
    '0' <= c <= '9' || 'a' <= c <= 'f'
  }

  /** Reference reader for one hexadecimal digit, either case. */
  function CharValue(c: char): (r: Option<nat>)
    ensures r.Some? ==> r.value < 16
    ensures r.Some? && r.value < 10 <==> '0' <= c <= '9'
  {
    if '0' <= c <= '9' then Some(c as int - '0' as int)
    else if 'a' <= c <= 'f' then Some(c as int - 'a' as int + 10)
    else if 'A' <= c <= 'F' then Some(c as int - 'A' as int + 10)
    else None
  }

  /** The text of a digit sequence. */
  function Render(ds: seq<nat>): (s: string)
    requires AllBelow(ds, 16)
    ensures |s| == |ds|
  {
    if ds == [] then [] else [DigitChar(ds[0])] + Render(ds[1..])
  }

  /** Reference reader for a run of decimal digits: their values, or None
      if some character is not a decimal digit. */
  function DecimalValues(s: string): (r: Option<seq<nat>>)
    ensures r.Some? ==> |r.value| == |s|
  {
    if s == [] then Some([])
    else
      match (CharValue(s[0]), DecimalValues(s[1..]))
      case (Some(d), Some(rest)) => if d < 10 then Some([d] + rest) else None
      case _ => None
  }

  /** Reading rendered decimal digits gives the digits back. */
  lemma {:induction false} DecimalValuesRender(ds: seq<nat>)
    requires AllBelow(ds, 10)
    ensures DecimalValues(Render(ds)) == Some(ds)
  {
    if ds != [] {
      DecimalValuesRender(ds[1..]);
      assert Render(ds)[1..] == Render(ds[1..]);
      assert [ds[0]] + ds[1..] == ds;
    }
  }

  /** Reference reader for an unsigned decimal numeral. */
  function ParseNat(s: string): Option<nat>
  {
    if s == [] then None
    else
      match DecimalValues(s)
      case Some(ds) => Some(Value(ds, 10))
      case None => None
  }

  /** Reference reader for the text `PyStr` writes: an optional '-' and digits. */
  function ParseInt(s: string): Option<int>
  {
    if |s| >= 1 && s[0] == '-' then
      match ParseNat(s[1..])
      case Some(m) => Some(-(m as int))
      case None => None
    else
      match ParseNat(s)
      case Some(m) => Some(m)
      case None => None
  }

  /** Python's `str(n)` for an integer `n`. */
  function PyStr(n: int): (s: string)
    ensures 1 <= |s|
    ensures s[0] == '-' <==> n < 0
  {
    if n < 0 then "-" + Render(Digits(-n, 10)) else Render(Digits(n, 10))
  }

  /** A number below ten is written as its one digit. */
  lemma PyStrOneDigit(n: int)
    requires 0 <= n < 10
    ensures PyStr(n) == [DigitChar(n)]
  {
    DigitsLength(n, 10);
  }

  lemma ParseNatRender(n: nat)
    ensures ParseNat(Render(Digits(n, 10))) == Some(n)
  {
    DecimalValuesRender(Digits(n, 10));
  }

  /** Reading back what `str` wrote gives the number: `int(str(n)) == n`. */
  lemma PyStrRoundTrip(n: int)
    ensures ParseInt(PyStr(n)) == Some(n)
  {
    var s := PyStr(n);
    if n < 0 {
      assert s[1..] == Render(Digits(-n, 10));
      ParseNatRender(-n);
    } else {
      ParseNatRender(n);
    }
  }

  /** `str` is injective: different integers are written differently. */
  lemma PyStrInjective(a: int, b: int)
    ensures PyStr(a) == PyStr(b) <==> a == b
  {
    PyStrRoundTrip(a);
    PyStrRoundTrip(b);
  }

  /** Python's `"{:02x}".format(n)` for a non-negative `n`: lower-case
      hexadecimal, padded with '0' on the left to at least two characters. */
  function Hex02(n: nat): (s: string)
    ensures 2 <= |s|
  {
    var h := Render(Digits(n, 16));
    if |h| < 2 then "0" + h else h
  }

  /** A byte is written as exactly two digits, high nibble first. */
  lemma Hex02Byte(n: nat)
    requires n < 256
    ensures Hex02(n) == [DigitChar(n / 16), DigitChar(n % 16)]
  {
    DigitsLength(n, 16);
    var ds := Digits(n, 16);
    if n < 16 {
      assert Render(ds) == [DigitChar(n)] + Render([]);
      assert DigitChar(n / 16) == '0';
    } else {
      assert Render(ds[1..]) == [DigitChar(n % 16)] + Render([]);
      assert Render(ds) == [DigitChar(n / 16)] + Render(ds[1..]);
    }
  }
}
