/**
 * Byte strings and the text renderings the client produces from them:
 * lower-case hex (hex.EncodeToString, fmt's %#x, Hash.Hex), little-endian
 * integers (binary.LittleEndian, uint128.FromBytes), Go's int64 conversion of
 * a big integer, ASCII lower-casing and substring search.
 */
module Bytes {

  type byte = b: int | 0 <= b < 256

  const TWO_32: nat := 0x1_0000_0000
  const TWO_64: nat := 0x1_0000_0000_0000_0000
  const TWO_63: nat := 0x8000_0000_0000_0000
  const TWO_128: nat := 0x1_0000_0000_0000_0000_0000_0000_0000_0000

  function Zeros(n: nat): (r: seq<byte>)
    ensures |r| == n
    ensures forall i :: 0 <= i < n ==> r[i] == 0
  {
    seq(n, _ => 0)
  }

  function Pow256(k: nat): (p: nat)
    ensures p >= 1
  {
    if k == 0 then 1 else 256 * Pow256(k - 1)
  }

  // ---------------------------------------------------------------------------
  // Hex

  const HexDigits: string := "0123456789abcdef"

  function HexByte(b: byte): (r: string)
    ensures |r| == 2
  {
    [HexDigits[b / 16], HexDigits[b % 16]]
  }

  /** hex.EncodeToString: two lower-case digits per byte, most significant nibble first. */
  function Hex(bs: seq<byte>): (r: string)
    ensures |r| == 2 * |bs|
  {
    if bs == [] then "" else HexByte(bs[0]) + Hex(bs[1..])
  }

  /** fmt.Sprintf("%#x", bs): "0x" and the hex digits, or nothing at all for no bytes. */
  function SharpX(bs: seq<byte>): (r: string)
    ensures bs == [] <==> r == ""
    ensures bs != [] ==> |r| == 2 + 2 * |bs| && r[..2] == "0x"
    ensures forall i :: 2 <= i < |r| ==> r[i] in HexDigits
  {
    HexDigitsOnly(bs);
    if bs == [] then "" else "0x" + Hex(bs)
  }

  /** The value of a hex digit. */
  function DigitValue(c: char): int
  {
    if '0' <= c <= '9' then c as int - '0' as int else c as int - 'a' as int + 10
  }

  /** Each digit reads back as its position among the digits. */
  lemma DigitValueInverts(n: int)
    requires 0 <= n < 16
    ensures DigitValue(HexDigits[n]) == n
  {
    if n < 10 {
      assert HexDigits[n] == ('0' as int + n) as char;
    } else {
      assert HexDigits[n] == ('a' as int + n - 10) as char;
    }
  }

  lemma HexByteInjective(a: byte, b: byte)
    requires HexByte(a) == HexByte(b)
    ensures a == b
  {
    assert HexDigits[a / 16] == HexDigits[b / 16] && HexDigits[a % 16] == HexDigits[b % 16];
    DigitValueInverts(a / 16);
    DigitValueInverts(b / 16);
    DigitValueInverts(a % 16);
    DigitValueInverts(b % 16);
  }

  /** Distinct byte strings have distinct hex renderings. */
  lemma {:induction false} HexInjective(a: seq<byte>, b: seq<byte>)
    requires Hex(a) == Hex(b)
    ensures a == b
  {
    if a != [] {
      assert |b| == |a|;
      assert Hex(a)[..2] == HexByte(a[0]) && Hex(b)[..2] == HexByte(b[0]);
      HexByteInjective(a[0], b[0]);
      assert Hex(a)[2..] == Hex(a[1..]) && Hex(b)[2..] == Hex(b[1..]);
      HexInjective(a[1..], b[1..]);
      assert a == [a[0]] + a[1..] && b == [b[0]] + b[1..];
    }
  }

  /** Every character of a hex rendering is a lower-case hex digit. */
  lemma {:induction false} HexDigitsOnly(bs: seq<byte>)
    ensures forall i :: 0 <= i < |Hex(bs)| ==> Hex(bs)[i] in HexDigits
  {
    if bs != [] {
      HexDigitsOnly(bs[1..]);
      assert Hex(bs) == HexByte(bs[0]) + Hex(bs[1..]);
    }
  }

  lemma {:induction false} HexConcat(a: seq<byte>, b: seq<byte>)
    ensures Hex(a + b) == Hex(a) + Hex(b)
  {
    if a != [] {
      assert (a + b)[0] == a[0] && (a + b)[1..] == a[1..] + b;
      HexConcat(a[1..], b);
      calc {
        Hex(a + b);
        HexByte(a[0]) + Hex(a[1..] + b);
        HexByte(a[0]) + (Hex(a[1..]) + Hex(b));
        (HexByte(a[0]) + Hex(a[1..])) + Hex(b);
      }
    } else {
      assert a + b == b;
    }
  }

  /** Distinct byte strings have distinct %#x renderings, the empty string included. */
  lemma SharpXInjective(a: seq<byte>, b: seq<byte>)
    requires SharpX(a) == SharpX(b)
    ensures a == b
  {
    if a != [] && b != [] {
      assert Hex(a) == SharpX(a)[2..] && Hex(b) == SharpX(b)[2..];
      HexInjective(a, b);
    }
  }

  /** The one-byte rendering is "ff" exactly for the byte 0xff. */
  lemma HexByteIsFF(b: byte)
    ensures Hex([b]) == "ff" <==> b == 0xff
  {
    assert Hex([b]) == HexByte(b);
    if HexByte(b) == "ff" {
      assert HexByte(b) == HexByte(0xff);
      HexByteInjective(b, 0xff);
    }
  }

  // ---------------------------------------------------------------------------
  // Little-endian integers

  /** The unsigned value of bs read least significant byte first. */
  function LittleEndian(bs: seq<byte>): (n: nat)
    ensures n < Pow256(|bs|)
  {
    if bs == [] then 0 else bs[0] + 256 * LittleEndian(bs[1..])
  }

  /** The width-byte little-endian encoding of n modulo 256^width. */
  function LittleEndianBytes(n: nat, width: nat): (r: seq<byte>)
    ensures |r| == width
  {
    if width == 0 then [] else [n % 256] + LittleEndianBytes(n / 256, width - 1)
  }

  lemma {:induction false} LittleEndianOfBytes(n: nat, width: nat)
    requires n < Pow256(width)
    ensures LittleEndian(LittleEndianBytes(n, width)) == n
  {
    if width > 0 {
      LittleEndianOfBytes(n / 256, width - 1);
      assert LittleEndianBytes(n, width)[1..] == LittleEndianBytes(n / 256, width - 1);
    }
  }

  lemma {:induction false} BytesOfLittleEndian(bs: seq<byte>)
    ensures LittleEndianBytes(LittleEndian(bs), |bs|) == bs
  {
    if bs != [] {
      var n := LittleEndian(bs);
      assert n % 256 == bs[0] && n / 256 == LittleEndian(bs[1..]);
      BytesOfLittleEndian(bs[1..]);
    }
  }

  lemma {:induction false} LittleEndianZeros(n: nat)
    ensures LittleEndian(Zeros(n)) == 0
  {
    if n > 0 {
      assert Zeros(n)[1..] == Zeros(n - 1);
      LittleEndianZeros(n - 1);
    }
  }

  lemma Distribute(c: int, x: int, p: int, y: int)
    ensures c + 256 * (x + p * y) == (c + 256 * x) + (256 * p) * y
  {
  }

  lemma {:induction false} LittleEndianSplit(a: seq<byte>, b: seq<byte>)
    ensures LittleEndian(a + b) == LittleEndian(a) + Pow256(|a|) * LittleEndian(b)
  {
    if a != [] {
      assert (a + b)[0] == a[0] && (a + b)[1..] == a[1..] + b;
      LittleEndianSplit(a[1..], b);
      Distribute(a[0], LittleEndian(a[1..]), Pow256(|a| - 1), LittleEndian(b));
    } else {
      assert a + b == b;
    }
  }

  lemma Pow256Values()
    ensures Pow256(4) == TWO_32 && Pow256(8) == TWO_64 && Pow256(16) == TWO_128
  {
    assert Pow256(4) == TWO_32;
    assert Pow256(8) == TWO_64;
    calc {
      Pow256(16);
      256 * Pow256(15);
      65536 * Pow256(14);
      16777216 * Pow256(13);
      TWO_32 * Pow256(12);
      TWO_32 * 256 * Pow256(11);
      TWO_32 * 65536 * Pow256(10);
      TWO_32 * 16777216 * Pow256(9);
      TWO_64 * Pow256(8);
      TWO_128;
    }
  }

  // ---------------------------------------------------------------------------
  // Go integer conversions

  /**
   * big.Int.Int64 (and int(...) on a 64-bit platform) of a non-negative
   * integer: the low 64 bits read as a two's complement int64.
   */
  function ToInt64(n: nat): (r: int)
    ensures -(TWO_63 as int) <= r < TWO_63
    ensures n < TWO_63 ==> r == n
    ensures (r - n) % TWO_64 == 0
  {
    var w := n % TWO_64;
    if w >= TWO_63 then w - TWO_64 else w
  }

  /** Go's integer quotient, truncated toward zero. */
  function GoQuo(a: int, b: int): (q: int)
    requires b > 0
  {
    if a >= 0 then a / b else -((-a) / b)
  }

  /** Go's remainder, with the sign of the dividend. */
  function GoRem(a: int, b: int): (r: int)
    requires b > 0
    ensures a == GoQuo(a, b) * b + r
    ensures -b < r < b
    ensures a >= 0 ==> r >= 0
    ensures a < 0 ==> r <= 0
  {
    if a >= 0 then a % b else -((-a) % b)
  }

  /** The decimal rendering of a natural number (big.Int.String). */
  function Decimal(n: nat): (s: string)
    ensures |s| >= 1
    ensures forall i :: 0 <= i < |s| ==> '0' <= s[i] <= '9'
    ensures n > 0 ==> s[0] != '0'
    ensures DecimalValue(s) == n
  {
    if n < 10 then [DigitChar(n)]
    else
      var prefix := Decimal(n / 10);
      var s := prefix + [DigitChar(n % 10)];
      assert s[..|s| - 1] == prefix && s[0] == prefix[0];
      s
  }

  /** The character of a decimal digit. */
  function DigitChar(d: nat): (c: char)
    requires d < 10
    ensures '0' <= c <= '9' && c as int - '0' as int == d
  {
    ('0' as int + d) as char
  }

  /** The number a string of decimal digits denotes, most significant first. */
  function DecimalValue(s: string): int
  {
    if s == [] then 0 else 10 * DecimalValue(s[..|s| - 1]) + (s[|s| - 1] as int - '0' as int)
  }

  // ---------------------------------------------------------------------------
  // Strings

  function LowerChar(c: char): char
  {
    if 'A' <= c <= 'Z' then (c as int - 'A' as int + 'a' as int) as char else c
  }

  /** strings.ToLower restricted to ASCII letters. */
  function Lower(s: string): (r: string)
    ensures |r| == |s|
    ensures forall i :: 0 <= i < |s| ==> r[i] == LowerChar(s[i])
  {
    if s == [] then "" else [LowerChar(s[0])] + Lower(s[1..])
  }

  /** Lower-casing twice is lower-casing once. */
  lemma LowerIdempotent(s: string)
    ensures Lower(Lower(s)) == Lower(s)
  {
    assert forall i :: 0 <= i < |s| ==> LowerChar(LowerChar(s[i])) == LowerChar(s[i]);
  }

  /** sub occurs in s starting at position i. */
  predicate OccursAt(s: string, sub: string, i: int)
  {
    0 <= i <= |s| - |sub| && s[i..i + |sub|] == sub
  }

  /** strings.Contains. */
  predicate Contains(s: string, sub: string)
    decreases |s|
  {
    |sub| <= |s| && (s[..|sub|] == sub || (s != [] && Contains(s[1..], sub)))
  }

  /** Contains agrees with the positional definition of a substring, in both directions. */
  lemma {:induction false} ContainsAt(s: string, sub: string)
    ensures Contains(s, sub) <==> exists i :: OccursAt(s, sub, i)
    decreases |s|
  {
    if |sub| <= |s| && s[..|sub|] == sub {
      assert OccursAt(s, sub, 0);
    } else if |sub| <= |s| && s != [] {
      ContainsAt(s[1..], sub);
      if exists i :: OccursAt(s, sub, i) {
        var i :| OccursAt(s, sub, i);
        assert i != 0;
        assert OccursAt(s[1..], sub, i - 1);
      }
      if Contains(s[1..], sub) {
        var j :| OccursAt(s[1..], sub, j);
        assert OccursAt(s, sub, j + 1);
      }
    }
  }
}
