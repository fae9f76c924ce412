/**
  Byte strings as Python's `bytes`: big-endian integers (`int.to_bytes`,
  `int.from_bytes`) and the four-byte XOR mask of section 5.3 of RFC 6455.
 */
module Bytes {
  type Byte = b: int | 0 <= b < 0x100

  // Exclusive or of two numbers of the given bit width, lowest bit last.
  function XorBits(a: nat, b: nat, width: nat): (r: nat) {
    if width == 0 then 0 else 2 * XorBits(a / 2, b / 2, width - 1) + (a + b) % 2
  }

  function Pow2(width: nat): nat {
    if width == 0 then 1 else 2 * Pow2(width - 1)
  }

  lemma {:induction false} XorBitsBound(a: nat, b: nat, width: nat)
    ensures XorBits(a, b, width) < Pow2(width)
  {
    if width > 0 {
      XorBitsBound(a / 2, b / 2, width - 1);
    }
  }

  lemma {:induction false} XorBitsTwice(a: nat, b: nat, width: nat)
    requires a < Pow2(width)
    ensures XorBits(XorBits(a, b, width), b, width) == a
  {
    if width > 0 {
      var high, low := XorBits(a / 2, b / 2, width - 1), (a + b) % 2;
      var x := 2 * high + low;
      HalfAndParity(high, low, b);
      assert XorBits(x, b, width) == 2 * XorBits(high, b / 2, width - 1) + (low + b) % 2;
      XorBitsTwice(a / 2, b / 2, width - 1);
      SumParity(a, b);
    }
  }

  lemma HalfAndParity(high: nat, low: nat, b: nat)
    requires low < 2
    ensures (2 * high + low) / 2 == high && (2 * high + low + b) % 2 == (low + b) % 2
  {
  }

  lemma SumParity(a: nat, b: nat)
    ensures ((a + b) % 2 + b) % 2 == a % 2
  {
  }

  function Xor(a: Byte, b: Byte): Byte {
    XorBitsBound(a, b, 8);
    assert Pow2(4) == 16;
    XorBits(a, b, 8)
  }

  lemma XorTwice(a: Byte, k: Byte)
    ensures Xor(Xor(a, k), k) == a
  {
    assert Pow2(4) == 16;
    XorBitsTwice(a, k, 8);
  }

  // Bit j of a number, counted from the lowest.
  function Bit(n: nat, j: nat): nat {
    if j == 0 then n % 2 else Bit(n / 2, j - 1)
  }

  lemma BitOfPair(high: nat, low: nat, j: nat)
    requires low < 2
    ensures Bit(2 * high + low, j) == if j == 0 then low else Bit(high, j - 1)
  {
  }

  lemma LowBit(a: nat, b: nat)
    ensures (a + b) % 2 == (a % 2 + b % 2) % 2
  {
  }

  lemma {:induction false} XorBitsAt(a: nat, b: nat, width: nat, j: nat)
    requires j < width
    ensures Bit(XorBits(a, b, width), j) == (Bit(a, j) + Bit(b, j)) % 2
  {
    BitOfPair(XorBits(a / 2, b / 2, width - 1), (a + b) % 2, j);
    if j == 0 {
      LowBit(a, b);
    } else {
      XorBitsAt(a / 2, b / 2, width - 1, j - 1);
    }
  }

  lemma {:induction false} BitBound(n: nat, j: nat)
    ensures Bit(n, j) < 2
  {
    if j > 0 {
      BitBound(n / 2, j - 1);
    }
  }

  // m is p with exactly those bits turned over that are set in k.
  ghost predicate TurnedOver(m: Byte, p: Byte, k: Byte) {
    forall j | 0 <= j < 8 :: Bit(m, j) != Bit(p, j) <==> Bit(k, j) == 1
  }

  lemma XorTurnsOver(p: Byte, k: Byte)
    ensures TurnedOver(Xor(p, k), p, k) && TurnedOver(p, Xor(p, k), k)
  {
    forall j | 0 <= j < 8
      ensures Bit(Xor(p, k), j) != Bit(p, j) <==> Bit(k, j) == 1
    {
      XorBitsAt(p, k, 8, j);
      BitBound(p, j);
      BitBound(k, j);
    }
  }

  // The masked bytes of section 5.3 of RFC 6455: byte i turned over by key byte i modulo 4.
  ghost predicate MaskedWith(masked: seq<Byte>, payload: seq<Byte>, key: seq<Byte>)
    requires |key| == 4
  {
    |masked| == |payload| && forall i | 0 <= i < |payload| :: TurnedOver(masked[i], payload[i], key[i % 4])
  }

  lemma MaskTurnsOver(payload: seq<Byte>, key: seq<Byte>)
    requires |key| == 4
    ensures MaskedWith(Mask(payload, key), payload, key) && MaskedWith(payload, Mask(payload, key), key)
  {
    var masked := Mask(payload, key);
    forall i | 0 <= i < |payload|
      ensures TurnedOver(masked[i], payload[i], key[i % 4]) && TurnedOver(payload[i], masked[i], key[i % 4])
    {
      XorTurnsOver(payload[i], key[i % 4]);
    }
  }

  // Two and eight bytes of s from i on, the most significant first.
  function Word16(s: seq<Byte>, i: nat): nat
    requires i + 2 <= |s|
  {
    s[i] as nat * 0x100 + s[i + 1]
  }

  function Word64(s: seq<Byte>, i: nat): nat
    requires i + 8 <= |s|
  {
    ((Word16(s, i) * 0x1_0000 + Word16(s, i + 2)) * 0x1_0000 + Word16(s, i + 4)) * 0x1_0000 + Word16(s, i + 6)
  }

  lemma FromTwo(s: seq<Byte>, i: nat)
    requires i + 2 <= |s|
    ensures FromBytes(s[i..i + 2]) == Word16(s, i)
  {
    var field := s[i..i + 2];
    assert field[..1][..0] == [];
    assert FromBytes(field[..1]) == s[i];
  }

  lemma FromTwoMore(s: seq<Byte>, i: nat, j: nat)
    requires i <= j && j + 2 <= |s|
    ensures FromBytes(s[i..j + 2]) == FromBytes(s[i..j]) * 0x1_0000 + Word16(s, j)
  {
    assert s[i..j + 2][..j + 1 - i] == s[i..j + 1];
    assert s[i..j + 1][..j - i] == s[i..j];
    assert FromBytes(s[i..j + 1]) == FromBytes(s[i..j]) * 0x100 + s[j];
  }

  lemma FromEight(s: seq<Byte>, i: nat)
    requires i + 8 <= |s|
    ensures FromBytes(s[i..i + 8]) == Word64(s, i)
  {
    FromTwo(s, i);
    FromTwoMore(s, i, i + 2);
    FromTwoMore(s, i, i + 4);
    FromTwoMore(s, i, i + 6);
  }

  function Pow256(width: nat): (p: nat)
    ensures p > 0
  {
    if width == 0 then 1 else 0x100 * Pow256(width - 1)
  }

  // The two field widths the frame format uses.
  lemma Pow256Widths()
    ensures Pow256(2) == 0x1_0000
    ensures Pow256(7) == 0x100_0000_0000_0000
    ensures Pow256(8) == 0x1_0000_0000_0000_0000
  {
    assert Pow256(3) == 0x100_0000;
    assert Pow256(5) == 0x100_0000_0000;
  }

  // n.to_bytes(width, "big")
  function ToBytes(n: nat, width: nat): (s: seq<Byte>)
    requires n < Pow256(width)
    ensures |s| == width
  {
    if width == 0 then [] else ToBytes(n / 0x100, width - 1) + [n % 0x100]
  }

  // int.from_bytes(s, "big")
  function FromBytes(s: seq<Byte>): nat {
    if s == [] then 0 else FromBytes(s[..|s| - 1]) * 0x100 + s[|s| - 1]
  }

  lemma {:induction false} FromBytesBound(s: seq<Byte>)
    ensures FromBytes(s) < Pow256(|s|)
  {
    if s != [] {
      FromBytesBound(s[..|s| - 1]);
    }
  }

  lemma {:induction false} FromToBytes(n: nat, width: nat)
    requires n < Pow256(width)
    ensures FromBytes(ToBytes(n, width)) == n
  {
    if width != 0 {
      var s := ToBytes(n, width);
      assert s[..width - 1] == ToBytes(n / 0x100, width - 1);
      FromToBytes(n / 0x100, width - 1);
    }
  }

  lemma {:induction false} ToFromBytes(s: seq<Byte>)
    requires FromBytes(s) < Pow256(|s|)
    ensures ToBytes(FromBytes(s), |s|) == s
  {
    if s != [] {
      var init, last := s[..|s| - 1], s[|s| - 1];
      assert FromBytes(s) / 0x100 == FromBytes(init) && FromBytes(s) % 0x100 == last;
      FromBytesBound(init);
      ToFromBytes(init);
      assert s == init + [last];
    }
  }

  // The first byte carries the top bit of the number.
  lemma {:induction false} TopBit(n: nat, width: nat)
    requires width >= 1 && n < Pow256(width)
    ensures ToBytes(n, width)[0] >= 0x80 <==> n >= 0x80 * Pow256(width - 1)
  {
    if width == 1 {
      assert n < 0x100;
      assert ToBytes(n / 0x100, 0) == [];
    } else {
      TopBit(n / 0x100, width - 1);
    }
  }

  function Mask(payload: seq<Byte>, key: seq<Byte>): (masked: seq<Byte>)
    requires |key| == 4
    ensures |masked| == |payload|
  {
    seq(|payload|, i requires 0 <= i < |payload| => Xor(payload[i], key[i % 4]))
  }

  // Masking and unmasking are the same operation.
  lemma MaskTwice(payload: seq<Byte>, key: seq<Byte>)
    requires |key| == 4
    ensures Mask(Mask(payload, key), key) == payload
  {
    forall i | 0 <= i < |payload|
      ensures Mask(Mask(payload, key), key)[i] == payload[i]
    {
      XorTwice(payload[i], key[i % 4]);
    }
  }
}
