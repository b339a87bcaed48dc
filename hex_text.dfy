/**
  The conversions between numbers, bytes and hexadecimal text that the GATT
  helpers and work-item handlers rely on, with Python 2 semantics:
  int(s, 16), '{:x}'.format(n), zero fill to a width, binascii.hexlify and
  str.upper on byte strings.
*/
module HexText {

  newtype byte = x: int | 0 <= x < 256

  predicate IsHexDigit(c: char) {
    '0' <= c <= '9' || 'a' <= c <= 'f' || 'A' <= c <= 'F'
  }

  predicate IsLowerHexDigit(c: char) {
    '0' <= c <= '9' || 'a' <= c <= 'f'
  }

  predicate IsUpperHexDigit(c: char) {
    '0' <= c <= '9' || 'A' <= c <= 'F'
  }

  predicate IsHex(s: string) {
    forall i :: 0 <= i < |s| ==> IsHexDigit(s[i])
  }

  predicate IsLowerHex(s: string) {
    forall i :: 0 <= i < |s| ==> IsLowerHexDigit(s[i])
  }

  predicate IsUpperHex(s: string) {
    forall i :: 0 <= i < |s| ==> IsUpperHexDigit(s[i])
  }

  function DigitValue(c: char): (d: nat)
    requires IsHexDigit(c)
    ensures d < 16
  {
    if '0' <= c <= '9' then c as int - '0' as int
    else if 'a' <= c <= 'f' then c as int - 'a' as int + 10
    else c as int - 'A' as int + 10
  }

  /** The digit Python writes for `d` in lower-case hexadecimal output. */
  function LowerDigit(d: nat): (c: char)
    requires d < 16
    ensures IsLowerHexDigit(c) && DigitValue(c) == d
  {
    if d < 10 then ('0' as int + d) as char else ('a' as int + d - 10) as char
  }

  function Pow16(k: nat): (p: nat)
    ensures p >= 1
  {
    if k == 0 then 1 else 16 * Pow16(k - 1)
  }

  lemma {:induction false} Pow16Monotone(a: nat, b: nat)
    requires a <= b
    ensures Pow16(a) <= Pow16(b)
    decreases b - a
  {
    if a < b {
      Pow16Monotone(a, b - 1);
    }
  }

  /** int(s, 16): the digits of `s`, most significant first, read in base 16. */
  function HexValue(s: string): (n: nat)
    requires IsHex(s)
    ensures n < Pow16(|s|)
  {
    if s == [] then 0 else HexValue(s[..|s| - 1]) * 16 + DigitValue(s[|s| - 1])
  }

  /**
    '{:x}'.format(n), also hex(n) without its "0x" prefix: the shortest
    lower-case hexadecimal text whose value is `n`.
  */
  function LowerHex(n: nat): (s: string)
    ensures 1 <= |s| && IsLowerHex(s) && IsHex(s) && HexValue(s) == n
    ensures |s| == 1 || s[0] != '0'
    ensures |s| == 1 || Pow16(|s| - 1) <= n
    decreases n
  {
    if n < 16 then [LowerDigit(n)]
    else
      var s := LowerHex(n / 16) + [LowerDigit(n % 16)];
      assert s[..|s| - 1] == LowerHex(n / 16);
      s
  }

  lemma LowerHexDigits(n: nat, k: nat)
    ensures |LowerHex(n)| <= k <==> (k >= 1 && n < Pow16(k))
  {
    var s := LowerHex(n);
    if |s| <= k && k >= 1 {
      Pow16Monotone(|s|, k);
    }
    if k >= 1 && n < Pow16(k) && |s| > k {
      Pow16Monotone(k, |s| - 1);
    }
  }

  function Zeros(k: nat): (z: string)
    ensures |z| == k && forall i :: 0 <= i < k ==> z[i] == '0'
  {
    if k == 0 then [] else Zeros(k - 1) + ['0']
  }

  /** The '0' fill of a format spec such as '04x' applied to the digits `s`. */
  function ZeroPad(s: string, width: nat): (r: string)
    ensures |s| <= |r| && width <= |r| && (|r| == |s| || |r| == width)
    ensures r[|r| - |s|..] == s
    ensures forall i :: 0 <= i < |r| - |s| ==> r[i] == '0'
  {
    if |s| < width then Zeros(width - |s|) + s else s
  }

  lemma {:induction false} ZerosValue(k: nat)
    ensures IsHex(Zeros(k)) && HexValue(Zeros(k)) == 0
  {
    if k > 0 {
      ZerosValue(k - 1);
      assert Zeros(k)[..k - 1] == Zeros(k - 1);
    }
  }

  /** Leading zero digits do not change what int(s, 16) reads. */
  lemma {:induction false} LeadingZerosIgnored(z: string, s: string)
    requires IsHex(s) && forall i :: 0 <= i < |z| ==> z[i] == '0'
    ensures IsHex(z + s) && HexValue(z + s) == HexValue(s)
    decreases |s|
  {
    if s == [] {
      assert z == Zeros(|z|);
      ZerosValue(|z|);
      assert z + s == z;
    } else {
      var t := z + s;
      assert t[..|t| - 1] == z + s[..|s| - 1];
      LeadingZerosIgnored(z, s[..|s| - 1]);
    }
  }

  lemma ZeroPadValue(s: string, width: nat)
    requires IsLowerHex(s)
    ensures IsLowerHex(ZeroPad(s, width)) && IsHex(ZeroPad(s, width))
    ensures HexValue(ZeroPad(s, width)) == HexValue(s)
  {
    if |s| < width {
      LeadingZerosIgnored(Zeros(width - |s|), s);
    }
  }

  lemma LowerDigitOfValue(c: char)
    requires IsLowerHexDigit(c)
    ensures LowerDigit(DigitValue(c)) == c
  {
  }

  lemma SplitBase16(x: nat, d: nat, y: nat, e: nat)
    requires d < 16 && e < 16 && x * 16 + d == y * 16 + e
    ensures x == y && d == e
  {
  }

  /** Two lower-case hexadecimal texts of one length and one value are the same text. */
  lemma {:induction false} LowerHexCanonical(a: string, b: string)
    requires IsLowerHex(a) && IsLowerHex(b) && |a| == |b|
    requires HexValue(a) == HexValue(b)
    ensures a == b
  {
    if a != [] {
      var n := |a|;
      var a', b' := a[..n - 1], b[..n - 1];
      assert IsLowerHex(a') && IsLowerHex(b');
      assert HexValue(a) == HexValue(a') * 16 + DigitValue(a[n - 1]);
      assert HexValue(b) == HexValue(b') * 16 + DigitValue(b[n - 1]);
      SplitBase16(HexValue(a'), DigitValue(a[n - 1]), HexValue(b'), DigitValue(b[n - 1]));
      LowerHexCanonical(a', b');
      LowerDigitOfValue(a[n - 1]);
      LowerDigitOfValue(b[n - 1]);
      assert a == a' + [a[n - 1]];
      assert b == b' + [b[n - 1]];
    }
  }

  /** Python's str.upper on one character of a byte string. */
  function UpperChar(c: char): char {
    if 'a' <= c <= 'z' then (c as int - 32) as char else c
  }

  /** Python's str.lower on one character of a byte string. */
  function LowerChar(c: char): char {
    if 'A' <= c <= 'Z' then (c as int + 32) as char else c
  }

  function Upper(s: string): (r: string)
    ensures |r| == |s| && forall i :: 0 <= i < |s| ==> r[i] == UpperChar(s[i])
  {
    seq(|s|, i requires 0 <= i < |s| => UpperChar(s[i]))
  }

  function Lower(s: string): (r: string)
    ensures |r| == |s| && forall i :: 0 <= i < |s| ==> r[i] == LowerChar(s[i])
  {
    seq(|s|, i requires 0 <= i < |s| => LowerChar(s[i]))
  }

  /** Upper-casing hexadecimal text keeps its value. */
  lemma {:induction false} UpperKeepsValue(s: string)
    requires IsHex(s)
    ensures IsHex(Upper(s)) && IsUpperHex(Upper(s)) && HexValue(Upper(s)) == HexValue(s)
  {
    if s != [] {
      var p := s[..|s| - 1];
      UpperKeepsValue(p);
      assert Upper(s)[..|s| - 1] == Upper(p);
    }
  }

  /** Lower-casing hexadecimal text keeps its value. */
  lemma {:induction false} LowerKeepsValue(s: string)
    requires IsHex(s)
    ensures IsHex(Lower(s)) && IsLowerHex(Lower(s)) && HexValue(Lower(s)) == HexValue(s)
  {
    if s != [] {
      var p := s[..|s| - 1];
      LowerKeepsValue(p);
      assert Lower(s)[..|s| - 1] == Lower(p);
    }
  }

  /** binascii.hexlify: two lower-case digits per byte, high nibble first. */
  function Hexlify(b: seq<byte>): (s: string)
    ensures |s| == 2 * |b| && IsLowerHex(s) && IsHex(s)
  {
    if b == [] then []
    else
      var last := b[|b| - 1] as nat;
      Hexlify(b[..|b| - 1]) + [LowerDigit(last / 16), LowerDigit(last % 16)]
  }

  /** The bytes read as one unsigned big-endian number. */
  function BigEndian(b: seq<byte>): (n: nat)
    ensures n < Pow16(2 * |b|)
  {
    if b == [] then 0
    else
      var p := b[..|b| - 1];
      assert Pow16(2 * |b|) == 256 * Pow16(2 * |p|);
      BigEndian(p) * 256 + b[|b| - 1] as nat
  }

  /** int(hexlify(b), 16) is the big-endian value of `b`. */
  lemma {:induction false} HexlifyValue(b: seq<byte>)
    ensures HexValue(Hexlify(b)) == BigEndian(b)
  {
    if b != [] {
      var p := b[..|b| - 1];
      var last := b[|b| - 1] as nat;
      HexlifyValue(p);
      var h := Hexlify(b);
      assert h[..|h| - 1] == Hexlify(p) + [LowerDigit(last / 16)];
      assert (Hexlify(p) + [LowerDigit(last / 16)])[..|h| - 2] == Hexlify(p);
    }
  }

  /** hexlify works byte by byte: the text of a concatenation is the concatenation of the texts. */
  lemma {:induction false} HexlifyConcat(a: seq<byte>, b: seq<byte>)
    ensures Hexlify(a + b) == Hexlify(a) + Hexlify(b)
    decreases |b|
  {
    if b != [] {
      var b' := b[..|b| - 1];
      var last := b[|b| - 1] as nat;
      assert (a + b)[..|a + b| - 1] == a + b';
      HexlifyConcat(a, b');
    } else {
      assert a + b == a;
    }
  }

  lemma UpperConcat(x: string, y: string)
    ensures Upper(x + y) == Upper(x) + Upper(y)
  {
  }

  /** Upper-casing lower-cased upper-case hex text gives the text back. */
  lemma UpperOfLower(v: string)
    requires IsUpperHex(v)
    ensures Upper(Lower(v)) == v
  {
  }

  /**
    A text is hexlify(b).upper() exactly when it is upper-case hex, two digits
    per byte, and reads as the big-endian value of `b`.
  */
  lemma UpperHexlifyIff(v: string, b: seq<byte>)
    ensures v == Upper(Hexlify(b)) <==> IsUpperHex(v) && IsHex(v) && |v| == 2 * |b| && HexValue(v) == BigEndian(b)
  {
    HexlifyValue(b);
    UpperKeepsValue(Hexlify(b));
    if IsUpperHex(v) && IsHex(v) && |v| == 2 * |b| && HexValue(v) == BigEndian(b) {
      LowerKeepsValue(v);
      LowerHexCanonical(Lower(v), Hexlify(b));
      UpperOfLower(v);
    }
  }
}
