/** Fixed-width hexadecimal numbers, as the protocols print them with %04x and %08x, and unhex. */
module Hexadecimal {
  import opened Bytes

  /** The bytes of a text. */
  function Ascii(s: string): (r: seq<byte>)
    ensures |r| == |s|
  {
    seq(|s|, i requires 0 <= i < |s| => (s[i] as int) % 256)
  }

  function Pow16(w: nat): (p: nat)
    ensures p > 0
  {
    if w == 0 then 1 else 16 * Pow16(w - 1)
  }

  /** A lower-case digit. */
  function Digit(d: nat): (c: byte)
    requires d < 16
  {
    if d < 10 then 48 + d else 87 + d
  }

  /** Digits are those of C, and letters count in both cases. */
  lemma DigitsSpell(d: nat)
    requires d < 16
    ensures Digit(d) == Ascii("0123456789abcdef")[d]
    ensures DigitValue(Ascii("0123456789abcdef")[d]) == d && DigitValue(Ascii("0123456789ABCDEF")[d]) == d
  {
    assert "0123456789abcdef"[d] as int == Digit(d);
    assert "0123456789ABCDEF"[d] as int == if d < 10 then 48 + d else 55 + d;
  }

  /** %0wx, for a number that fits. */
  function Hex(n: nat, w: nat): (s: seq<byte>)
    requires n < Pow16(w)
    ensures |s| == w
  {
    if w == 0 then [] else Hex(n / 16, w - 1) + [Digit(n % 16)]
  }

  datatype Parsed = Bad | Value(n: nat)

  /** The value of a digit in either case, or 16. */
  function DigitValue(c: byte): (d: nat)
    ensures d <= 16
  {
    if 48 <= c <= 57 then c - 48
    else if 97 <= c <= 102 then c - 87
    else if 65 <= c <= 70 then c - 55
    else 16
  }

  /** What a string of hexadecimal digits stands for. */
  function Unhex(s: seq<byte>): (r: Parsed)
    ensures r.Value? ==> r.n < Pow16(|s|)
    ensures r.Value? <==> forall i :: 0 <= i < |s| ==> DigitValue(s[i]) < 16
  {
    if s == [] then Value(0)
    else
      var k := |s| - 1;
      assert s == s[..k] + [s[k]];
      match Unhex(s[..k])
      case Bad => Bad
      case Value(n) => if DigitValue(s[k]) == 16 then Bad else Value(16 * n + DigitValue(s[k]))
  }

  /** A number without its last `i` hexadecimal digits. */
  function Shifted(n: nat, i: nat): (m: nat)
  {
    if i == 0 then n else Shifted(n / 16, i - 1)
  }

  /** Digits go from the highest to the lowest. */
  lemma {:induction false} HexDigitAt(n: nat, w: nat, i: nat)
    requires n < Pow16(w) && i < w
    ensures Hex(n, w)[w - 1 - i] == Digit(Shifted(n, i) % 16)
    decreases w
  {
    if i > 0 { HexDigitAt(n / 16, w - 1, i - 1); }
  }

  /** Reading undoes printing. */
  lemma {:induction false} UnhexHex(n: nat, w: nat)
    requires n < Pow16(w)
    ensures Unhex(Hex(n, w)) == Value(n)
  {
    if w > 0 {
      UnhexHex(n / 16, w - 1);
      var s := Hex(n, w);
      assert s[..|s| - 1] == Hex(n / 16, w - 1);
      assert DigitValue(Digit(n % 16)) == n % 16;
    }
  }

  lemma DivMod(m: nat, d: nat)
    requires d < 16
    ensures (16 * m + d) / 16 == m && (16 * m + d) % 16 == d
  {
  }

  /** Printing undoes reading, up to the case of the letters. */
  lemma {:induction false} HexUnhex(s: seq<byte>)
    requires Unhex(s).Value?
    requires forall i :: 0 <= i < |s| ==> !(65 <= s[i] <= 70)
    ensures Hex(Unhex(s).n, |s|) == s
  {
    if s != [] {
      var k := |s| - 1;
      HexUnhex(s[..k]);
      assert s == s[..k] + [s[k]];
      var m, d := Unhex(s[..k]).n, DigitValue(s[k]);
      assert d < 16 && Digit(d) == s[k];
      DivMod(m, d);
    }
  }
}
