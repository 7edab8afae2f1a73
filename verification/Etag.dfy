/** The change-detection ETag of src/observer.rs: the first four bytes of a 64-bit FNV-1a hash. */
module Etag {
  import opened Coap

  const MODULUS: nat := 0x1_0000_0000_0000_0000

  type U64 = n: nat | n < 0x1_0000_0000_0000_0000

  const OFFSET_BASIS: U64 := 0xcbf29ce484222325

  const FNV_PRIME: nat := 0x100000001b3

  function BitXor(a: nat, b: nat): (r: nat)
    ensures r < 2
  {
    if a == b then 0 else 1
  }

  // Bitwise exclusive or of the low `bits` bits.
  function Xor(a: nat, b: nat, bits: nat): nat {
    if bits == 0 then 0 else 2 * Xor(a / 2, b / 2, bits - 1) + BitXor(a % 2, b % 2)
  }

  function Pow2(n: nat): (p: nat)
    ensures p > 0
  {
    if n == 0 then 1 else 2 * Pow2(n - 1)
  }

  lemma {:induction false} XorBound(a: nat, b: nat, bits: nat)
    ensures Xor(a, b, bits) < Pow2(bits)
  {
    if bits > 0 {
      XorBound(a / 2, b / 2, bits - 1);
    }
  }

  lemma Halves(half: nat, bit: nat)
    requires bit < 2
    ensures (2 * half + bit) / 2 == half && (2 * half + bit) % 2 == bit
  {
  }

  lemma {:induction false} XorUndone(a: nat, b: nat, bits: nat)
    requires a < Pow2(bits)
    ensures Xor(Xor(a, b, bits), b, bits) == a
  {
    if bits > 0 {
      XorUndone(a / 2, b / 2, bits - 1);
      var half, bit := Xor(a / 2, b / 2, bits - 1), BitXor(a % 2, b % 2);
      Halves(half, bit);
      assert Xor(2 * half + bit, b, bits) == 2 * Xor(half, b / 2, bits - 1) + BitXor(bit, b % 2);
    }
  }

  lemma XorByte(a: Byte, b: Byte)
    ensures Xor(a, b, 8) < 256 && Xor(Xor(a, b, 8), b, 8) == a
  {
    assert Pow2(8) == 256;
    XorBound(a, b, 8);
    XorUndone(a, b, 8);
  }

  lemma {:induction false} XorSymmetric(a: nat, b: nat, bits: nat)
    ensures Xor(a, b, bits) == Xor(b, a, bits)
  {
    if bits > 0 {
      XorSymmetric(a / 2, b / 2, bits - 1);
    }
  }

  // `hash ^= byte as u64`: a byte only reaches the low eight bits.
  function XorIn(hash: U64, byte: Byte): (r: U64) {
    XorByte(hash % 256, byte);
    hash / 256 * 256 + Xor(hash % 256, byte, 8)
  }

  // `hash.wrapping_mul(0x100000001b3)`
  function WrappingMul(hash: U64): (r: U64) {
    hash * FNV_PRIME % MODULUS
  }

  function Round(hash: U64, byte: Byte): U64 {
    WrappingMul(XorIn(hash, byte))
  }

  // The left fold of `Round` over the payload, starting from `hash`.
  function Fold(hash: U64, payload: Bytes): U64
    decreases payload
  {
    if payload == [] then hash else Fold(Round(hash, payload[0]), payload[1..])
  }

  function Fnv(payload: Bytes): U64 {
    Fold(OFFSET_BASIS, payload)
  }

  // `hash.to_be_bytes()[..4]`
  function EtagOf(payload: Bytes): (etag: Bytes)
    ensures |etag| == 4
  {
    BigEndian(Fnv(payload) / 0x1_0000_0000)
  }

  lemma {:induction false} FoldSplits(hash: U64, front: Bytes, back: Bytes)
    ensures Fold(hash, front + back) == Fold(Fold(hash, front), back)
    decreases front
  {
    if front == [] {
      assert front + back == back;
    } else {
      assert (front + back)[1..] == front[1..] + back;
      FoldSplits(Round(hash, front[0]), front[1..], back);
    }
  }

  lemma FoldOne(hash: U64, byte: Byte)
    ensures Fold(hash, [byte]) == Round(hash, byte)
  {
    assert [byte][1..] == [];
  }

  method ComputeEtag(payload: Bytes) returns (etag: Bytes)
    ensures etag == EtagOf(payload)
  {
    var hash: U64 := OFFSET_BASIS;
    for i := 0 to |payload|
      invariant hash == Fold(OFFSET_BASIS, payload[..i])
    {
      FoldSplits(OFFSET_BASIS, payload[..i], [payload[i]]);
      FoldOne(hash, payload[i]);
      assert payload[..i + 1] == payload[..i] + [payload[i]];
      hash := XorIn(hash, payload[i]);
      hash := WrappingMul(hash);
    }
    assert payload[..|payload|] == payload;
    etag := BigEndian(hash / 0x1_0000_0000);
  }

  // The FNV prime is odd, so it has an inverse modulo 2^64 and multiplying by it loses nothing.
  lemma WrappingMulIsInjective(x: U64, y: U64)
    requires WrappingMul(x) == WrappingMul(y)
    ensures x == y
  {
    var q := x * FNV_PRIME / MODULUS - y * FNV_PRIME / MODULUS;
    assert (x - y) * FNV_PRIME == q * MODULUS;
    assert FNV_PRIME * 0xce965057aff6957b == 1 + 0xce9650590f * MODULUS;
    assert x - y == MODULUS * (q * 0xce965057aff6957b - (x - y) * 0xce9650590f);
  }

  lemma XorInIsInjective(g: U64, h: U64, b: Byte, c: Byte)
    requires XorIn(g, b) == XorIn(h, c)
    ensures g == h <==> b == c
  {
    XorByte(g % 256, b);
    XorByte(h % 256, c);
    XorSymmetric(g % 256, b, 8);
    XorSymmetric(h % 256, c, 8);
    XorByte(b, g % 256);
    XorByte(c, h % 256);
    assert g / 256 == XorIn(g, b) / 256 == XorIn(h, c) / 256 == h / 256;
    assert Xor(g % 256, b, 8) == XorIn(g, b) % 256 == XorIn(h, c) % 256 == Xor(h % 256, c, 8);
  }

  /** Each round is a bijection in the hash for a fixed byte, and in the byte for a fixed hash. */
  lemma RoundIsInjective(g: U64, h: U64, b: Byte, c: Byte)
    requires Round(g, b) == Round(h, c)
    ensures g == h <==> b == c
  {
    WrappingMulIsInjective(XorIn(g, b), XorIn(h, c));
    XorInIsInjective(g, h, b, c);
  }

  lemma {:induction false} FoldIsInjective(g: U64, h: U64, payload: Bytes)
    requires g != h
    ensures Fold(g, payload) != Fold(h, payload)
    decreases payload
  {
    if payload != [] {
      if Round(g, payload[0]) == Round(h, payload[0]) {
        RoundIsInjective(g, h, payload[0], payload[0]);
      }
      FoldIsInjective(Round(g, payload[0]), Round(h, payload[0]), payload[1..]);
    }
  }

  /** Changing any one byte of a payload changes the 64-bit hash. */
  lemma SingleByteChangeIsDetected(payload: Bytes, at: nat, byte: Byte)
    requires at < |payload| && payload[at] != byte
    ensures Fnv(payload[at := byte]) != Fnv(payload)
  {
    var front, back := payload[..at], payload[at + 1..];
    var h := Fold(OFFSET_BASIS, front);
    assert payload == front + ([payload[at]] + back);
    assert payload[at := byte] == front + ([byte] + back);
    FoldSplits(OFFSET_BASIS, front, [payload[at]] + back);
    FoldSplits(OFFSET_BASIS, front, [byte] + back);
    FoldSplits(h, [payload[at]], back);
    FoldSplits(h, [byte], back);
    FoldOne(h, payload[at]);
    FoldOne(h, byte);
    if Round(h, payload[at]) == Round(h, byte) {
      RoundIsInjective(h, h, payload[at], byte);
    }
    FoldIsInjective(Round(h, payload[at]), Round(h, byte), back);
  }
}
