/**
 The key management service as the rest of the model sees it, and the XOR mock
 (genesis-core/src/kms/mock.rs) as a concrete instance that meets the round-trip law.
 */
module Kms {
  import opened Base

  /** The second argument of `encrypt` stands for the nonce a real service draws. */
  datatype Kms = Kms(encrypt: (Bytes, nat) -> Option<Bytes>, decrypt: Bytes -> Option<Bytes>) {
    ghost predicate Lawful() {
      forall p: Bytes, nonce: nat :: encrypt(p, nonce).Some? ==> decrypt(encrypt(p, nonce).value) == Some(p)
    }
  }

  const XOR_PAD: Bytes := [
    0xDE, 0xAD, 0xBE, 0xEF, 0xCA, 0xFE, 0xBA, 0xBE, 0x01, 0x23, 0x45, 0x67, 0x89, 0xAB, 0xCD, 0xEF,
    0xFE, 0xDC, 0xBA, 0x98, 0x76, 0x54, 0x32, 0x10, 0x0F, 0x1E, 0x2D, 0x3C, 0x4B, 0x5A, 0x69, 0x78]

  function Pow2(k: nat): (p: nat)
    ensures p >= 1
  {
    if k == 0 then 1 else 2 * Pow2(k - 1)
  }

  /** Exclusive or of the low `k` bits. */
  function XorBits(a: nat, b: nat, k: nat): (r: nat)
    ensures r < Pow2(k)
  {
    if k == 0 then 0 else (a % 2 + b % 2) % 2 + 2 * XorBits(a / 2, b / 2, k - 1)
  }

  /** The lowest bit of an exclusive or, put before the other bits and taken off again. */
  lemma LowBit(a: nat, b: nat, rest: nat)
    ensures ((a % 2 + b % 2) % 2 + 2 * rest) / 2 == rest
    ensures (((a % 2 + b % 2) % 2 + 2 * rest) % 2 + b % 2) % 2 == a % 2
  {
    var bit := (a % 2 + b % 2) % 2;
    assert (bit + 2 * rest) / 2 == rest;
    assert (bit + 2 * rest) % 2 == bit;
    assert a % 2 == 0 || a % 2 == 1;
    assert b % 2 == 0 || b % 2 == 1;
  }

  lemma Halves(a: nat, k: nat)
    requires k > 0 && a < Pow2(k)
    ensures a / 2 < Pow2(k - 1) && a == a % 2 + 2 * (a / 2)
  {
  }

  lemma {:induction false} XorTwice(a: nat, b: nat, k: nat)
    requires a < Pow2(k)
    ensures XorBits(XorBits(a, b, k), b, k) == a
    decreases k
  {
    if k != 0 {
      Halves(a, k);
      var rest := XorBits(a / 2, b / 2, k - 1);
      LowBit(a, b, rest);
      XorTwice(a / 2, b / 2, k - 1);
      var x := XorBits(a, b, k);
      assert x / 2 == rest;
      assert XorBits(x, b, k) == (x % 2 + b % 2) % 2 + 2 * XorBits(rest, b / 2, k - 1);
    }
  }

  /** Bit `i` of a number, the lowest being bit 0. */
  predicate Bit(a: nat, i: nat) {
    if i == 0 then a % 2 == 1 else Bit(a / 2, i - 1)
  }

  /** Bit `i` of the result is set exactly when the two bits differ. */
  lemma {:induction false} XorBit(a: nat, b: nat, k: nat, i: nat)
    requires i < k
    ensures Bit(XorBits(a, b, k), i) <==> (Bit(a, i) <==> !Bit(b, i))
    decreases k
  {
    var bit, rest := (a % 2 + b % 2) % 2, XorBits(a / 2, b / 2, k - 1);
    LowBit(a, b, rest);
    assert XorBits(a, b, k) == bit + 2 * rest;
    if i == 0 {
      assert (bit + 2 * rest) % 2 == bit;
    } else {
      XorBit(a / 2, b / 2, k - 1, i - 1);
    }
  }

  function Xor(a: Byte, b: Byte): Byte {
    assert Pow2(8) == 256;
    XorBits(a, b, 8)
  }

  function XorTransform(data: Bytes): (r: Bytes)
    ensures |r| == |data|
  {
    seq(|data|, i requires 0 <= i < |data| => Xor(data[i], XOR_PAD[i % 32]))
  }

  /** Each octet is combined, bit by bit, with the octet of the pad at its index modulo 32. */
  lemma XorTransformBits(data: Bytes, i: nat, j: nat)
    requires i < |data| && j < 8
    ensures Bit(XorTransform(data)[i], j) <==> (Bit(data[i], j) <==> !Bit(XOR_PAD[i % 32], j))
    ensures XOR_PAD[..4] == [0xDE, 0xAD, 0xBE, 0xEF] && XOR_PAD[28..] == [0x4B, 0x5A, 0x69, 0x78]
  {
    XorBit(data[i], XOR_PAD[i % 32], 8, j);
  }

  /** The transform is its own inverse, on data of any length. */
  lemma XorTransformTwice(data: Bytes)
    ensures XorTransform(XorTransform(data)) == data
  {
    forall i | 0 <= i < |data| ensures XorTransform(XorTransform(data))[i] == data[i] {
      assert Pow2(8) == 256;
      XorTwice(data[i], XOR_PAD[i % 32], 8);
    }
  }

  function MockKms(failing: bool): Kms {
    Kms(
      (p: Bytes, nonce: nat) => if failing then None else Some(XorTransform(p)),
      (c: Bytes) => if failing then None else Some(XorTransform(c)))
  }

  lemma MockKmsIsLawful(failing: bool)
    ensures MockKms(failing).Lawful()
    ensures !failing ==> forall p: Bytes, nonce: nat ::
              && MockKms(failing).encrypt(p, nonce).Some?
              && MockKms(failing).decrypt(MockKms(failing).encrypt(p, nonce).value) == Some(p)
  {
    forall p: Bytes ensures XorTransform(XorTransform(p)) == p {
      XorTransformTwice(p);
    }
  }
}
