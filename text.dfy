/**
 * Go strings and byte slices as byte sequences, and the few pieces of the Go
 * standard library the handler relies on whose behaviour is fixed and small:
 * base-10 integer formatting (strconv.FormatInt / FormatUint), boolean
 * formatting (strconv.FormatBool) and the file part of filepath.Split.
 */
module Text {
  import opened Wrappers

  newtype byte = b: int | 0 <= b < 256

  /** A Go string or a []byte. */
  type Bytes = seq<byte>

  predicate IsAscii(s: string) {
    forall i :: 0 <= i < |s| ==> s[i] as int < 128
  }

  /** The bytes of an ASCII string literal. */
  function Ascii(s: string): (r: Bytes)
    requires IsAscii(s)
    ensures |r| == |s|
  {
    seq(|s|, i requires 0 <= i < |s| => s[i] as int as byte)
  }

  /** Taking the bytes of a literal commutes with concatenation. */
  lemma AsciiAppend(s: string, t: string)
    requires IsAscii(s) && IsAscii(t)
    ensures IsAscii(s + t) && Ascii(s + t) == Ascii(s) + Ascii(t)
  {
    assert forall i :: 0 <= i < |s + t| ==> (s + t)[i] == if i < |s| then s[i] else t[i - |s|];
  }

  const DOT: Bytes := Ascii(".")
  const SPACE: Bytes := Ascii(" ")
  const EQUALS: Bytes := Ascii("=")
  const NEWLINE: Bytes := Ascii("\n")
  const MINUS: Bytes := Ascii("-")
  const SLASH: byte := 47

  // ---------------------------------------------------------------------
  // Decimal integers

  predicate IsDigit(b: byte) { 48 <= b <= 57 }

  predicate AllDigits(s: Bytes) { forall i :: 0 <= i < |s| ==> IsDigit(s[i]) }

  function DigitByte(d: nat): (b: byte)
    requires d < 10
    ensures IsDigit(b)
  {
    (48 + d) as byte
  }

  /** The base-10 digits of n, most significant first, without leading zeros. */
  function Digits(n: nat): (r: Bytes)
    ensures |r| >= 1 && AllDigits(r)
    ensures r[0] == 48 <==> n == 0
    ensures |r| > 1 ==> n >= 10
    decreases n
  {
    if n < 10 then [DigitByte(n)] else Digits(n / 10) + [DigitByte(n % 10)]
  }

  /** The number a sequence of decimal digits denotes. */
  function DigitsValue(s: Bytes): nat
    requires AllDigits(s)
  {
    if s == [] then 0 else DigitsValue(s[..|s| - 1]) * 10 + (s[|s| - 1] as int - 48)
  }

  lemma {:induction false} DigitsValueOfDigits(n: nat)
    ensures DigitsValue(Digits(n)) == n
    decreases n
  {
    if n >= 10 {
      var d := Digits(n / 10) + [DigitByte(n % 10)];
      assert d[..|d| - 1] == Digits(n / 10);
      DigitsValueOfDigits(n / 10);
    }
  }

  /** strconv.FormatInt(i, 10) and strconv.FormatUint(u, 10). */
  function FormatInt(i: int): (r: Bytes)
    ensures |r| >= 1
    ensures r[0] == 45 <==> i < 0
    ensures AllDigits(if i < 0 then r[1..] else r)
  {
    if i < 0 then MINUS + Digits(-i) else Digits(i)
  }

  /**
   * Reads back a canonical base-10 integer: an optional '-' and digits
   * without leading zeros ("-0" is not canonical).
   */
  function ParseInt(s: Bytes): Option<int> {
    if |s| >= 2 && s[0] == 45 && AllDigits(s[1..]) && s[1] != 48 then
      Some(0 - DigitsValue(s[1..]))
    else if |s| >= 1 && AllDigits(s) && (|s| == 1 || s[0] != 48) then
      Some(DigitsValue(s))
    else
      None
  }

  /** Base-10 formatting loses nothing: ParseInt is its inverse. */
  lemma FormatIntRoundTrip(i: int)
    ensures ParseInt(FormatInt(i)) == Some(i)
  {
    var n: nat := if i < 0 then -i else i;
    var d := Digits(n);
    DigitsValueOfDigits(n);
    assert MINUS[0] == 45;
    if i < 0 {
      var s := MINUS + d;
      assert s[0] == 45 && s[1..] == d && s[1] != 48;
      assert ParseInt(s) == Some(0 - DigitsValue(d));
    } else {
      assert IsDigit(d[0]);
      assert ParseInt(d) == Some(DigitsValue(d));
    }
  }

  lemma FormatIntInjective(i: int, j: int)
    requires FormatInt(i) == FormatInt(j)
    ensures i == j
  {
    FormatIntRoundTrip(i);
    FormatIntRoundTrip(j);
  }

  /** strconv.FormatBool. */
  function FormatBool(b: bool): (r: Bytes)
    ensures r == Ascii("true") || r == Ascii("false")
    ensures (r == Ascii("true")) == b
  {
    if b then Ascii("true") else Ascii("false")
  }

  // ---------------------------------------------------------------------
  // Paths

  /**
   * The file part of filepath.Split for '/'-separated paths: everything after
   * the last '/', the whole path when there is none.
   */
  function SplitFile(path: Bytes): (r: Bytes)
    ensures |r| <= |path| && SLASH !in r
  {
    if path == [] || path[|path| - 1] == SLASH then []
    else SplitFile(path[..|path| - 1]) + [path[|path| - 1]]
  }

  /**
   * SplitFile cuts path right after its last '/': the file part is a suffix
   * of the path, holds no '/', and what precedes it is empty or ends in '/'.
   */
  lemma {:induction false} SplitFileSpec(path: Bytes)
    ensures var file := SplitFile(path);
      && |file| <= |path| && file == path[|path| - |file|..]
      && (forall i :: 0 <= i < |file| ==> file[i] != SLASH)
      && (|file| < |path| ==> path[|path| - |file| - 1] == SLASH)
  {
    if path != [] && path[|path| - 1] != SLASH {
      var init := path[..|path| - 1];
      SplitFileSpec(init);
      var f := SplitFile(init);
      assert path[|path| - |f| - 1..] == init[|init| - |f|..] + [path[|path| - 1]];
    }
  }
}
