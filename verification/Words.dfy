/** Fixed-width unsigned integers, their big-endian encodings, and bit operations. */
module Words {

  type u8 = x: int | 0 <= x < 0x100
  type u16 = x: int | 0 <= x < 0x1_0000
  type u32 = x: int | 0 <= x < 0x1_0000_0000
  type u64 = x: int | 0 <= x < 0x1_0000_0000_0000_0000

  const TWO16 := 0x1_0000
  const TWO24 := 0x100_0000
  const TWO31 := 0x8000_0000
  const TWO32 := 0x1_0000_0000
  const TWO48 := 0x1_0000_0000_0000
  const TWO64 := 0x1_0000_0000_0000_0000

  datatype Option<+T> = None | Some(value: T)
  datatype Result<+T, +E> = Ok(value: T) | Err(error: E)

  function Max(a: int, b: int): int {
    if a < b then b else a
  }

  function Min(a: int, b: int): int {
    if a < b then a else b
  }

  // ---- big-endian bytes ----

  function FromBe16(a: u8, b: u8): u16 {
    a * 0x100 + b
  }

  function FromBe32(a: u8, b: u8, c: u8, d: u8): u32 {
    FromBe16(a, b) * TWO16 + FromBe16(c, d)
  }

  function ToBe16(x: u16): (r: seq<u8>)
    ensures |r| == 2 && FromBe16(r[0], r[1]) == x
  {
    [x / 0x100, x % 0x100]
  }

  function ToBe32(x: u32): (r: seq<u8>)
    ensures |r| == 4 && FromBe32(r[0], r[1], r[2], r[3]) == x
  {
    ToBe16(x / TWO16) + ToBe16(x % TWO16)
  }

  function ToBe64(x: u64): (r: seq<u8>)
    ensures |r| == 8
    ensures FromBe32(r[0], r[1], r[2], r[3]) * TWO32 + FromBe32(r[4], r[5], r[6], r[7]) == x
  {
    ToBe32(x / TWO32) + ToBe32(x % TWO32)
  }

  lemma {:induction false} ToBe32Injective(x: u32, y: u32)
    requires ToBe32(x) == ToBe32(y)
    ensures x == y
  {
  }

  lemma {:induction false} ToBe64Injective(x: u64, y: u64)
    requires ToBe64(x) == ToBe64(y)
    ensures x == y
  {
    assert ToBe32(x / TWO32) == ToBe64(x)[..4] && ToBe32(x % TWO32) == ToBe64(x)[4..];
    assert ToBe32(y / TWO32) == ToBe64(y)[..4] && ToBe32(y % TWO32) == ToBe64(y)[4..];
    ToBe32Injective(x / TWO32, y / TWO32);
    ToBe32Injective(x % TWO32, y % TWO32);
  }

  // ---- bits ----

  /** Bit `k` of `w`. */
  predicate Bit(w: nat, k: nat) {
    if k == 0 then w % 2 == 1 else Bit(w / 2, k - 1)
  }

  function Pow2(n: nat): (p: nat)
    ensures p > 0
  {
    if n == 0 then 1 else 2 * Pow2(n - 1)
  }

  function Or(a: nat, b: nat): nat {
    if a == 0 then b
    else if b == 0 then a
    else 2 * Or(a / 2, b / 2) + Max(a % 2, b % 2)
  }

  function And(a: nat, b: nat): nat {
    if a == 0 || b == 0 then 0
    else 2 * And(a / 2, b / 2) + Min(a % 2, b % 2)
  }

  function Xor(a: nat, b: nat): nat {
    if a == 0 then b
    else if b == 0 then a
    else 2 * Xor(a / 2, b / 2) + (a + b) % 2
  }

  /** `w << d` on 64-bit words: bits shifted past the top are lost. */
  function Shl64(w: u64, d: nat): u64
    decreases d
  {
    if d == 0 then w else Shl64(2 * w % TWO64, d - 1)
  }

  lemma {:induction false} BitCons(x: nat, c: nat, k: nat)
    requires c < 2
    ensures (2 * x + c) / 2 == x && (2 * x + c) % 2 == c
    ensures Bit(2 * x + c, k) <==> if k == 0 then c == 1 else Bit(x, k - 1)
  {
  }

  lemma {:induction false} BitOr(a: nat, b: nat, k: nat)
    ensures Bit(Or(a, b), k) <==> Bit(a, k) || Bit(b, k)
    decreases k
  {
    if a == 0 || b == 0 {
      BitZero(k);
    } else if k > 0 {
      BitOr(a / 2, b / 2, k - 1);
    }
  }

  lemma {:induction false} BitZero(k: nat)
    ensures !Bit(0, k)
  {
    if k > 0 { BitZero(k - 1); }
  }

  lemma {:induction false} BitDropPow2(w: nat, n: nat, k: nat)
    requires k < n && Pow2(n) <= w
    ensures Bit(w - Pow2(n), k) == Bit(w, k)
  {
    assert Pow2(n) == 2 * Pow2(n - 1);
    if k > 0 { BitDropPow2(w / 2, n - 1, k - 1); }
  }

  lemma {:induction false} Pow2Octet(n: nat)
    ensures Pow2(n + 8) == 0x100 * Pow2(n)
  {
    assert Pow2(n + 2) == 4 * Pow2(n);
    assert Pow2(n + 4) == 4 * Pow2(n + 2);
    assert Pow2(n + 6) == 4 * Pow2(n + 4);
    assert Pow2(n + 8) == 4 * Pow2(n + 6);
  }

  lemma {:induction false} Pow2Zero()
    ensures Pow2(0) == 1
  {
  }

  lemma {:induction false} Pow2Values()
    ensures Pow2(8) == 0x100 && Pow2(64) == TWO64
  {
    hide Pow2;
    Pow2Zero();
    Pow2Octet(0);
    Pow2Octet(8);
    Pow2Octet(16);
    Pow2Octet(24);
    Pow2Octet(32);
    Pow2Octet(40);
    Pow2Octet(48);
    Pow2Octet(56);
  }

  lemma {:induction false} BitDouble(w: u64, k: nat)
    requires k < 64
    ensures Bit(2 * w % TWO64, k) <==> k > 0 && Bit(w, k - 1)
  {
    hide Pow2;
    BitCons(w, 0, k);
    Pow2Values();
    if TWO64 <= 2 * w { BitDropPow2(2 * w, 64, k); }
  }

  lemma {:induction false} BitShl64(w: u64, d: nat, k: nat)
    requires k < 64
    ensures Bit(Shl64(w, d), k) <==> k >= d && Bit(w, k - d)
    decreases d
  {
    if d > 0 {
      BitShl64(2 * w % TWO64, d - 1, k);
      if k >= d - 1 { BitDouble(w, k - (d - 1)); }
    }
  }

  lemma {:induction false} BitOne(k: nat)
    ensures Bit(1, k) <==> k == 0
  {
    if k > 0 { BitZero(k - 1); }
  }

  lemma {:induction false} AndNonzero(a: nat, b: nat)
    ensures And(a, b) != 0 <==> exists k: nat :: Bit(a, k) && Bit(b, k)
  {
    if a == 0 || b == 0 {
      forall k: nat ensures !Bit(0, k) { BitZero(k); }
    } else {
      AndNonzero(a / 2, b / 2);
      var x := And(a / 2, b / 2);
      if x != 0 {
        var k: nat :| Bit(a / 2, k) && Bit(b / 2, k);
        BitHalf(a, k + 1);
        BitHalf(b, k + 1);
      }
      if k: nat :| Bit(a, k) && Bit(b, k) {
        BitHalf(a, k);
        BitHalf(b, k);
      } else {
        assert !(Bit(a, 0) && Bit(b, 0));
      }
    }
  }

  lemma {:induction false} BitHalf(w: nat, k: nat)
    ensures k > 0 ==> Bit(w, k) == Bit(w / 2, k - 1)
    ensures k == 0 ==> Bit(w, k) == (w % 2 == 1)
  {
  }

  /** `w & (1 << d) != 0` tests bit `d`. */
  lemma {:induction false} TestBit(w: u64, d: nat)
    requires d < 64
    ensures And(w, Shl64(1, d)) != 0 <==> Bit(w, d)
  {
    AndNonzero(w, Shl64(1, d));
    forall k: nat ensures Bit(Shl64(1, d), k) <==> k == d {
      BitOfMask(d, k);
    }
  }

  lemma {:induction false} BitOfMask(d: nat, k: nat)
    requires d < 64
    ensures Bit(Shl64(1, d), k) <==> k == d
  {
    if k < 64 {
      BitShl64(1, d, k);
      if k >= d { BitOne(k - d); }
    } else {
      Pow2Values();
      HighBitsClear(Shl64(1, d), 64, k);
    }
  }

  lemma {:induction false} HighBitsClear(w: nat, n: nat, k: nat)
    requires w < Pow2(n) && k >= n
    ensures !Bit(w, k)
  {
    if n == 0 { BitZero(k); } else { HighBitsClear(w / 2, n - 1, k - 1); }
  }

  lemma {:induction false} OrBound(a: nat, b: nat, n: nat)
    requires a < Pow2(n) && b < Pow2(n)
    ensures Or(a, b) < Pow2(n)
  {
    if a != 0 && b != 0 { OrBound(a / 2, b / 2, n - 1); }
  }

  lemma {:induction false} XorBound(a: nat, b: nat, n: nat)
    requires a < Pow2(n) && b < Pow2(n)
    ensures Xor(a, b) < Pow2(n)
  {
    if a != 0 && b != 0 { XorBound(a / 2, b / 2, n - 1); }
  }

  lemma {:induction false} XorStep(a: nat, b: nat)
    ensures Xor(a, b) / 2 == Xor(a / 2, b / 2)
    ensures Xor(a, b) % 2 == (a + b) % 2
  {
    if a != 0 && b != 0 { BitCons(Xor(a / 2, b / 2), (a + b) % 2, 0); }
  }

  lemma {:induction false} XorInvolutive(a: nat, b: nat)
    ensures Xor(Xor(a, b), b) == a
  {
    if a == 0 {
      XorSelf(b);
    } else if b != 0 {
      XorInvolutive(a / 2, b / 2);
      XorStep(a, b);
      XorStep(Xor(a, b), b);
    }
  }

  lemma {:induction false} XorSelf(b: nat)
    ensures Xor(b, b) == 0
  {
    if b != 0 { XorSelf(b / 2); }
  }

  function Or64(a: u64, b: u64): u64 {
    Pow2Values();
    OrBound(a, b, 64);
    Or(a, b)
  }

  function Xor8(a: u8, b: u8): u8 {
    Pow2Values();
    XorBound(a, b, 8);
    Xor(a, b)
  }
}
