/** Bitwise operators of C on unsigned words, defined bit by bit on natural numbers. */
module Bits {

  datatype Gate = Or | Xor | AndNot

  predicate Output(g: Gate, x: bool, y: bool) {
    match g
    case Or => x || y
    case Xor => x != y
    case AndNot => x && !y
  }

  predicate Bit(v: nat, i: nat) {
    if i == 0 then v % 2 == 1 else Bit(v / 2, i - 1)
  }

  function Pow2(i: nat): (p: nat)
    ensures 1 <= p
  {
    if i == 0 then 1 else 2 * Pow2(i - 1)
  }

  // `a g b` on words of the given width.
  function Bitwise(g: Gate, a: nat, b: nat, width: nat): (v: nat)
    ensures v < Pow2(width)
  {
    if width == 0 then 0
    else 2 * Bitwise(g, a / 2, b / 2, width - 1) + if Output(g, a % 2 == 1, b % 2 == 1) then 1 else 0
  }

  lemma {:induction false} BitwiseBit(g: Gate, a: nat, b: nat, width: nat, i: nat)
    requires i < width
    ensures Bit(Bitwise(g, a, b, width), i) == Output(g, Bit(a, i), Bit(b, i))
  {
    var half := Bitwise(g, a / 2, b / 2, width - 1);
    assert Bitwise(g, a, b, width) / 2 == half;
    if i > 0 {
      BitwiseBit(g, a / 2, b / 2, width - 1, i - 1);
    }
  }

  lemma {:induction false} Pow2Bit(k: nat, i: nat)
    ensures Bit(Pow2(k), i) == (i == k)
  {
    if k == 0 {
      if i > 0 {
        ZeroBit(i - 1);
      }
    } else if i > 0 {
      assert Pow2(k) / 2 == Pow2(k - 1);
      Pow2Bit(k - 1, i - 1);
    }
  }

  lemma {:induction false} ZeroBit(i: nat)
    ensures !Bit(0, i)
  {
    if i > 0 {
      ZeroBit(i - 1);
    }
  }

  // Truncation to `width` bits keeps the bits below it and clears the others.
  lemma {:induction false} TruncatedBit(v: nat, width: nat, i: nat)
    ensures Bit(v % Pow2(width), i) == (i < width && Bit(v, i))
  {
    if width == 0 {
      ZeroBit(i);
    } else {
      HalfOfRemainder(v, Pow2(width - 1));
      if i > 0 {
        TruncatedBit(v / 2, width - 1, i - 1);
      }
    }
  }

  lemma HalfOfRemainder(v: nat, p: nat)
    requires 1 <= p
    ensures v % (2 * p) % 2 == v % 2 && v % (2 * p) / 2 == v / 2 % p
  {
    var h := v / 2;
    var q, r := h / p, h % p;
    assert h == q * p + r;
    var w := 2 * r + v % 2;
    assert v == 2 * h + v % 2 == q * (2 * p) + w by {
      assert 2 * (q * p) == q * (2 * p);
    }
    RemainderIs(v, 2 * p, q, w);
  }

  lemma RemainderIs(v: nat, d: nat, q: nat, r: nat)
    requires r < d && v == q * d + r
    ensures v % d == r
  {
    var k: int := q - v / d;
    assert k * d == v % d - r;
    BigMultiple(k, d);
  }

  // A multiple of d that is not zero is no closer to zero than d.
  lemma BigMultiple(k: int, d: int)
    requires 0 <= d
    ensures k == 0 || k * d >= d || k * d <= -d
  {
    if k >= 1 {
      assert k * d == (k - 1) * d + d && (k - 1) * d >= 0;
    } else if k <= -1 {
      assert k * d == (k + 1) * d - d && (k + 1) * d <= 0;
    }
  }

  lemma Powers()
    ensures Pow2(8) == 0x100 && Pow2(32) == 0x1_0000_0000
  {
    assert Pow2(2) == 2 * Pow2(1) == 2 * (2 * Pow2(0));
    assert Pow2(4) == 2 * Pow2(3) == 2 * (2 * Pow2(2));
    assert Pow2(6) == 2 * Pow2(5) == 2 * (2 * Pow2(4));
    assert Pow2(8) == 2 * Pow2(7) == 2 * (2 * Pow2(6));
    assert Pow2(12) == 2 * Pow2(11) == 2 * (2 * Pow2(10)) && Pow2(10) == 2 * Pow2(9) == 2 * (2 * Pow2(8));
    assert Pow2(16) == 2 * Pow2(15) == 2 * (2 * Pow2(14)) && Pow2(14) == 2 * Pow2(13) == 2 * (2 * Pow2(12));
    assert Pow2(20) == 2 * Pow2(19) == 2 * (2 * Pow2(18)) && Pow2(18) == 2 * Pow2(17) == 2 * (2 * Pow2(16));
    assert Pow2(24) == 2 * Pow2(23) == 2 * (2 * Pow2(22)) && Pow2(22) == 2 * Pow2(21) == 2 * (2 * Pow2(20));
    assert Pow2(28) == 2 * Pow2(27) == 2 * (2 * Pow2(26)) && Pow2(26) == 2 * Pow2(25) == 2 * (2 * Pow2(24));
    assert Pow2(32) == 2 * Pow2(31) == 2 * (2 * Pow2(30)) && Pow2(30) == 2 * Pow2(29) == 2 * (2 * Pow2(28));
  }

  /** A word is the sum of its bits: two words of the same width with the same bits are equal. */
  lemma {:induction false} SameBits(a: nat, b: nat, width: nat)
    requires a < Pow2(width) && b < Pow2(width)
    requires forall i :: 0 <= i < width ==> Bit(a, i) == Bit(b, i)
    ensures a == b
  {
    if width > 0 {
      assert Bit(a, 0) == Bit(b, 0);
      forall i | 0 <= i < width - 1 ensures Bit(a / 2, i) == Bit(b / 2, i) {
        assert Bit(a, i + 1) == Bit(b, i + 1);
      }
      SameBits(a / 2, b / 2, width - 1);
    }
  }
}
