/** Two payloads with one ETag, computed round by round. */
module EtagCollision {
  import opened Coap
  import opened Etag

  lemma NoBits()
    ensures Xor(0, 0, 0) == 0
  {
  }

  // One more bit at the low end.
  lemma LowBit(a: nat, b: nat, bits: nat, high: nat)
    requires Xor(a / 2, b / 2, bits) == high
    ensures Xor(a, b, bits + 1) == 2 * high + BitXor(a % 2, b % 2)
  {
  }

  lemma Remainder(n: nat, q: nat, r: nat)
    requires n == q * MODULUS + r && r < MODULUS
    ensures n % MODULUS == r
  {
  }

  // The arithmetic of one round, with the quotient that the wrapping multiplication drops.
  lemma RoundIs(h: U64, b: Byte, low: nat, x: nat, q: nat, r: nat)
    requires low < 256 && h % 256 == low && Xor(low, b, 8) == x
    requires (h - low + x) * FNV_PRIME == q * MODULUS + r && r < MODULUS
    ensures Round(h, b) == r
  {
    hide Xor;
    assert h / 256 * 256 == h - low;
    assert XorIn(h, b) == h - low + x;
    Remainder(XorIn(h, b) * FNV_PRIME, q, r);
  }

  lemma {:induction false} XorZero(a: nat, bits: nat)
    requires a < Pow2(bits)
    ensures Xor(a, 0, bits) == a
  {
    if bits > 0 {
      XorZero(a / 2, bits - 1);
    }
  }

  lemma ZeroRoundIs(h: U64, low: nat, q: nat, r: nat)
    requires low < 256 && h % 256 == low && h * FNV_PRIME == q * MODULUS + r && r < MODULUS
    ensures Round(h, 0) == r
  {
    assert Pow2(8) == 256;
    XorZero(low, 8);
    RoundIs(h, 0, low, low, q, r);
  }

  lemma FoldStep(h: U64, x: Byte, rest: Bytes, payload: Bytes, r: U64, last: U64)
    requires payload == [x] + rest && Round(h, x) == r && Fold(r, rest) == last
    ensures Fold(h, payload) == last
  {
    hide Round;
    assert payload[1..] == rest;
  }

  lemma NothingToFold(h: U64)
    ensures Fold(h, []) == h
  {
  }

  // ---------------------------------------------------------------- the first payload

  lemma FirstFrom18()
    ensures Fold(0x77246ada1fafaf36, [0x58]) == 0x2290fea3d78717ea
  {
    hide Xor, Round, Fold;
    NoBits();
    LowBit(0, 0, 0, 0);
    LowBit(0, 1, 1, 0);
    LowBit(1, 2, 2, 1);
    LowBit(3, 5, 3, 3);
    LowBit(6, 11, 4, 6);
    LowBit(13, 22, 5, 13);
    LowBit(27, 44, 6, 27);
    LowBit(54, 88, 7, 55);
    RoundIs(0x77246ada1fafaf36, 0x58, 54, 110, 0x77246adaea, 0x2290fea3d78717ea);
    NothingToFold(0x2290fea3d78717ea);
    FoldStep(0x77246ada1fafaf36, 0x58, [], [0x58], 0x2290fea3d78717ea, 0x2290fea3d78717ea);
  }

  lemma FirstFrom17()
    ensures Fold(0x30d4230c2479c67, [0x95, 0x58]) == 0x2290fea3d78717ea
  {
    hide Xor, Round, Fold;
    NoBits();
    LowBit(0, 1, 0, 0);
    LowBit(1, 2, 1, 1);
    LowBit(3, 4, 2, 3);
    LowBit(6, 9, 3, 7);
    LowBit(12, 18, 4, 15);
    LowBit(25, 37, 5, 30);
    LowBit(51, 74, 6, 60);
    LowBit(103, 149, 7, 121);
    RoundIs(0x30d4230c2479c67, 0x95, 103, 242, 0x30d4230c7, 0x77246ada1fafaf36);
    FirstFrom18();
    FoldStep(0x30d4230c2479c67, 0x95, [0x58], [0x95, 0x58], 0x77246ada1fafaf36, 0x2290fea3d78717ea);
  }

  lemma FirstFrom16()
    ensures Fold(0xc1f2a3cba6a187d, [0, 0x95, 0x58]) == 0x2290fea3d78717ea
  {
    hide Xor, Round, Fold;
    ZeroRoundIs(0xc1f2a3cba6a187d, 125, 0xc1f2a3ccf, 0x30d4230c2479c67);
    FirstFrom17();
    FoldStep(0xc1f2a3cba6a187d, 0x0, [0x95, 0x58], [0, 0x95, 0x58], 0x30d4230c2479c67, 0x2290fea3d78717ea);
  }

  lemma FirstFrom15()
    ensures Fold(0x814baed94c58850f, [0, 0, 0x95, 0x58]) == 0x2290fea3d78717ea
  {
    hide Xor, Round, Fold;
    ZeroRoundIs(0x814baed94c58850f, 15, 0x814baeda28, 0xc1f2a3cba6a187d);
    FirstFrom16();
    FoldStep(0x814baed94c58850f, 0x0, [0, 0x95, 0x58], [0, 0, 0x95, 0x58], 0xc1f2a3cba6a187d, 0x2290fea3d78717ea);
  }

  lemma FirstFrom14()
    ensures Fold(0x609543f55163a935, [0, 0, 0, 0x95, 0x58]) == 0x2290fea3d78717ea
  {
    hide Xor, Round, Fold;
    ZeroRoundIs(0x609543f55163a935, 53, 0x609543f5f5, 0x814baed94c58850f);
    FirstFrom15();
    FoldStep(0x609543f55163a935, 0x0, [0, 0, 0x95, 0x58],
             [0, 0, 0, 0x95, 0x58], 0x814baed94c58850f, 0x2290fea3d78717ea);
  }

  lemma FirstFrom13()
    ensures Fold(0xe171d6aff04c2577, [0, 0, 0, 0, 0x95, 0x58]) == 0x2290fea3d78717ea
  {
    hide Xor, Round, Fold;
    ZeroRoundIs(0xe171d6aff04c2577, 119, 0xe171d6b16f, 0x609543f55163a935);
    FirstFrom14();
    FoldStep(0xe171d6aff04c2577, 0x0, [0, 0, 0, 0x95, 0x58],
             [0, 0, 0, 0, 0x95, 0x58], 0x609543f55163a935, 0x2290fea3d78717ea);
  }

  lemma FirstFrom12()
    ensures Fold(0x514b6f9e1fbe432d, [0, 0, 0, 0, 0, 0x95, 0x58]) == 0x2290fea3d78717ea
  {
    hide Xor, Round, Fold;
    ZeroRoundIs(0x514b6f9e1fbe432d, 45, 0x514b6f9ea9, 0xe171d6aff04c2577);
    FirstFrom13();
    FoldStep(0x514b6f9e1fbe432d, 0x0, [0, 0, 0, 0, 0x95, 0x58],
             [0, 0, 0, 0, 0, 0x95, 0x58], 0xe171d6aff04c2577, 0x2290fea3d78717ea);
  }

  lemma FirstFrom11()
    ensures Fold(0x21e01e7e4dc1779f, [0, 0, 0, 0, 0, 0, 0x95, 0x58]) == 0x2290fea3d78717ea
  {
    hide Xor, Round, Fold;
    ZeroRoundIs(0x21e01e7e4dc1779f, 159, 0x21e01e7e87, 0x514b6f9e1fbe432d);
    FirstFrom12();
    FoldStep(0x21e01e7e4dc1779f, 0x0, [0, 0, 0, 0, 0, 0x95, 0x58],
             [0, 0, 0, 0, 0, 0, 0x95, 0x58], 0x514b6f9e1fbe432d, 0x2290fea3d78717ea);
  }

  lemma FirstFrom10()
    ensures Fold(0x483f79a89a5e0465, [0, 0, 0, 0, 0, 0, 0, 0x95, 0x58]) == 0x2290fea3d78717ea
  {
    hide Xor, Round, Fold;
    ZeroRoundIs(0x483f79a89a5e0465, 101, 0x483f79a915, 0x21e01e7e4dc1779f);
    FirstFrom11();
    FoldStep(0x483f79a89a5e0465, 0x0, [0, 0, 0, 0, 0, 0, 0x95, 0x58],
             [0, 0, 0, 0, 0, 0, 0, 0x95, 0x58], 0x21e01e7e4dc1779f, 0x2290fea3d78717ea);
  }

  lemma FirstFrom9()
    ensures Fold(0x825a3f8727c8e587, [0, 0, 0, 0, 0, 0, 0, 0, 0x95, 0x58]) == 0x2290fea3d78717ea
  {
    hide Xor, Round, Fold;
    ZeroRoundIs(0x825a3f8727c8e587, 135, 0x825a3f8805, 0x483f79a89a5e0465);
    FirstFrom10();
    FoldStep(0x825a3f8727c8e587, 0x0, [0, 0, 0, 0, 0, 0, 0, 0x95, 0x58],
             [0, 0, 0, 0, 0, 0, 0, 0, 0x95, 0x58], 0x483f79a89a5e0465, 0x2290fea3d78717ea);
  }

  lemma FirstFrom8()
    ensures Fold(0x482f0ece3d7dadd, [0, 0, 0, 0, 0, 0, 0, 0, 0, 0x95, 0x58]) == 0x2290fea3d78717ea
  {
    hide Xor, Round, Fold;
    ZeroRoundIs(0x482f0ece3d7dadd, 221, 0x482f0eceb, 0x825a3f8727c8e587);
    FirstFrom9();
    FoldStep(0x482f0ece3d7dadd, 0x0, [0, 0, 0, 0, 0, 0, 0, 0, 0x95, 0x58],
             [0, 0, 0, 0, 0, 0, 0, 0, 0, 0x95, 0x58], 0x825a3f8727c8e587, 0x2290fea3d78717ea);
  }

  lemma FirstFrom7()
    ensures Fold(0xcac593927e76c92f, [0, 0, 0, 0, 0, 0, 0, 0, 0, 0, 0x95, 0x58]) == 0x2290fea3d78717ea
  {
    hide Xor, Round, Fold;
    ZeroRoundIs(0xcac593927e76c92f, 47, 0xcac59393d7, 0x482f0ece3d7dadd);
    FirstFrom8();
    FoldStep(0xcac593927e76c92f, 0x0, [0, 0, 0, 0, 0, 0, 0, 0, 0, 0x95, 0x58],
             [0, 0, 0, 0, 0, 0, 0, 0, 0, 0, 0x95, 0x58], 0x482f0ece3d7dadd, 0x2290fea3d78717ea);
  }

  lemma FirstFrom6()
    ensures Fold(0x2bd1f3a35a550495, [0, 0, 0, 0, 0, 0, 0, 0, 0, 0, 0, 0x95, 0x58]) == 0x2290fea3d78717ea
  {
    hide Xor, Round, Fold;
    ZeroRoundIs(0x2bd1f3a35a550495, 149, 0x2bd1f3a3a4, 0xcac593927e76c92f);
    FirstFrom7();
    FoldStep(0x2bd1f3a35a550495, 0x0, [0, 0, 0, 0, 0, 0, 0, 0, 0, 0, 0x95, 0x58],
             [0, 0, 0, 0, 0, 0, 0, 0, 0, 0, 0, 0x95, 0x58], 0xcac593927e76c92f, 0x2290fea3d78717ea);
  }

  lemma FirstFrom5()
    ensures Fold(0xe4082d8724b1ec97, [0, 0, 0, 0, 0, 0, 0, 0, 0, 0, 0, 0, 0x95, 0x58]) == 0x2290fea3d78717ea
  {
    hide Xor, Round, Fold;
    ZeroRoundIs(0xe4082d8724b1ec97, 151, 0xe4082d88a8, 0x2bd1f3a35a550495);
    FirstFrom6();
    FoldStep(0xe4082d8724b1ec97, 0x0, [0, 0, 0, 0, 0, 0, 0, 0, 0, 0, 0, 0x95, 0x58],
             [0, 0, 0, 0, 0, 0, 0, 0, 0, 0, 0, 0, 0x95, 0x58], 0x2bd1f3a35a550495, 0x2290fea3d78717ea);
  }

  lemma FirstFrom4()
    ensures Fold(0xa941034fc24a8f8d, [0, 0, 0, 0, 0, 0, 0, 0, 0, 0, 0, 0, 0, 0x95, 0x58]) == 0x2290fea3d78717ea
  {
    hide Xor, Round, Fold;
    ZeroRoundIs(0xa941034fc24a8f8d, 141, 0xa9410350e1, 0xe4082d8724b1ec97);
    FirstFrom5();
    FoldStep(0xa941034fc24a8f8d, 0x0, [0, 0, 0, 0, 0, 0, 0, 0, 0, 0, 0, 0, 0x95, 0x58],
             [0, 0, 0, 0, 0, 0, 0, 0, 0, 0, 0, 0, 0, 0x95, 0x58], 0xe4082d8724b1ec97, 0x2290fea3d78717ea);
  }

  lemma FirstFrom3()
    ensures Fold(0xc470881a13de09bf, [0, 0, 0, 0, 0, 0, 0, 0, 0, 0, 0, 0, 0, 0, 0x95, 0x58]) == 0x2290fea3d78717ea
  {
    hide Xor, Round, Fold;
    ZeroRoundIs(0xc470881a13de09bf, 191, 0xc470881b61, 0xa941034fc24a8f8d);
    FirstFrom4();
    FoldStep(0xc470881a13de09bf, 0x0, [0, 0, 0, 0, 0, 0, 0, 0, 0, 0, 0, 0, 0, 0x95, 0x58],
             [0, 0, 0, 0, 0, 0, 0, 0, 0, 0, 0, 0, 0, 0, 0x95, 0x58], 0xa941034fc24a8f8d, 0x2290fea3d78717ea);
  }

  lemma FirstFrom2()
    ensures Fold(0x9577207b5e4d9c5, [0, 0, 0, 0, 0, 0, 0, 0, 0, 0, 0, 0, 0, 0, 0, 0x95, 0x58]) == 0x2290fea3d78717ea
  {
    hide Xor, Round, Fold;
    ZeroRoundIs(0x9577207b5e4d9c5, 197, 0x9577207c5, 0xc470881a13de09bf);
    FirstFrom3();
    FoldStep(0x9577207b5e4d9c5, 0x0, [0, 0, 0, 0, 0, 0, 0, 0, 0, 0, 0, 0, 0, 0, 0x95, 0x58],
             [0, 0, 0, 0, 0, 0, 0, 0, 0, 0, 0, 0, 0, 0, 0, 0x95, 0x58], 0xc470881a13de09bf, 0x2290fea3d78717ea);
  }

  lemma FirstFrom1()
    ensures Fold(0xaf64134c86024a01, [0xA6, 0, 0, 0, 0, 0, 0, 0, 0, 0, 0, 0, 0, 0, 0, 0, 0x95, 0x58])
        == 0x2290fea3d78717ea
  {
    hide Xor, Round, Fold;
    NoBits();
    LowBit(0, 1, 0, 0);
    LowBit(0, 2, 1, 1);
    LowBit(0, 5, 2, 2);
    LowBit(0, 10, 3, 5);
    LowBit(0, 20, 4, 10);
    LowBit(0, 41, 5, 20);
    LowBit(0, 83, 6, 41);
    LowBit(1, 166, 7, 83);
    RoundIs(0xaf64134c86024a01, 0xA6, 1, 167, 0xaf64134db0, 0x9577207b5e4d9c5);
    FirstFrom2();
    FoldStep(0xaf64134c86024a01, 0xa6, [0, 0, 0, 0, 0, 0, 0, 0, 0, 0, 0, 0, 0, 0, 0, 0x95, 0x58],
             [0xA6, 0, 0, 0, 0, 0, 0, 0, 0, 0, 0, 0, 0, 0, 0, 0, 0x95, 0x58], 0x9577207b5e4d9c5, 0x2290fea3d78717ea);
  }

  lemma FirstFrom0()
    ensures Fold(0xcbf29ce484222325, [0x5E, 0xA6, 0, 0, 0, 0, 0, 0, 0, 0, 0, 0, 0, 0, 0, 0, 0, 0x95, 0x58])
        == 0x2290fea3d78717ea
  {
    hide Xor, Round, Fold;
    NoBits();
    LowBit(0, 0, 0, 0);
    LowBit(0, 1, 1, 0);
    LowBit(1, 2, 2, 1);
    LowBit(2, 5, 3, 3);
    LowBit(4, 11, 4, 7);
    LowBit(9, 23, 5, 15);
    LowBit(18, 47, 6, 30);
    LowBit(37, 94, 7, 61);
    RoundIs(0xcbf29ce484222325, 0x5E, 37, 123, 0xcbf29ce5de, 0xaf64134c86024a01);
    FirstFrom1();
    FoldStep(0xcbf29ce484222325, 0x5e, [0xA6, 0, 0, 0, 0, 0, 0, 0, 0, 0, 0, 0, 0, 0, 0, 0, 0x95, 0x58],
             [0x5E, 0xA6, 0, 0, 0, 0, 0, 0, 0, 0, 0, 0, 0, 0, 0, 0, 0, 0x95, 0x58], 0xaf64134c86024a01,
                 0x2290fea3d78717ea);
  }

  // ---------------------------------------------------------------- the second payload

  lemma SecondFrom18()
    ensures Fold(0x3dca152282242f48, [0x5D]) == 0x2290fea3237c00af
  {
    hide Xor, Round, Fold;
    NoBits();
    LowBit(0, 0, 0, 0);
    LowBit(1, 1, 1, 0);
    LowBit(2, 2, 2, 0);
    LowBit(4, 5, 3, 0);
    LowBit(9, 11, 4, 1);
    LowBit(18, 23, 5, 2);
    LowBit(36, 46, 6, 5);
    LowBit(72, 93, 7, 10);
    RoundIs(0x3dca152282242f48, 0x5D, 72, 21, 0x3dca1522eb, 0x2290fea3237c00af);
    NothingToFold(0x2290fea3237c00af);
    FoldStep(0x3dca152282242f48, 0x5d, [], [0x5D], 0x2290fea3237c00af, 0x2290fea3237c00af);
  }

  lemma SecondFrom17()
    ensures Fold(0x61c799e33e179fdf, [0x47, 0x5D]) == 0x2290fea3237c00af
  {
    hide Xor, Round, Fold;
    NoBits();
    LowBit(1, 0, 0, 0);
    LowBit(3, 1, 1, 1);
    LowBit(6, 2, 2, 2);
    LowBit(13, 4, 3, 4);
    LowBit(27, 8, 4, 9);
    LowBit(55, 17, 5, 19);
    LowBit(111, 35, 6, 38);
    LowBit(223, 71, 7, 76);
    RoundIs(0x61c799e33e179fdf, 0x47, 223, 152, 0x61c799e3e4, 0x3dca152282242f48);
    SecondFrom18();
    FoldStep(0x61c799e33e179fdf, 0x47, [0x5D], [0x47, 0x5D], 0x3dca152282242f48, 0x2290fea3237c00af);
  }

  lemma SecondFrom16()
    ensures Fold(0xf9ef0918a6b09b24, [0x01, 0x47, 0x5D]) == 0x2290fea3237c00af
  {
    hide Xor, Round, Fold;
    NoBits();
    LowBit(0, 0, 0, 0);
    LowBit(0, 0, 1, 0);
    LowBit(1, 0, 2, 0);
    LowBit(2, 0, 3, 1);
    LowBit(4, 0, 4, 2);
    LowBit(9, 0, 5, 4);
    LowBit(18, 0, 6, 9);
    LowBit(36, 1, 7, 18);
    RoundIs(0xf9ef0918a6b09b24, 0x01, 36, 37, 0xf9ef091a4f, 0x61c799e33e179fdf);
    SecondFrom17();
    FoldStep(0xf9ef0918a6b09b24, 0x1, [0x47, 0x5D], [0x01, 0x47, 0x5D], 0x61c799e33e179fdf, 0x2290fea3237c00af);
  }

  lemma SecondFrom15()
    ensures Fold(0x835f98db91be7e4c, [0, 0x01, 0x47, 0x5D]) == 0x2290fea3237c00af
  {
    hide Xor, Round, Fold;
    ZeroRoundIs(0x835f98db91be7e4c, 76, 0x835f98dc70, 0xf9ef0918a6b09b24);
    SecondFrom16();
    FoldStep(0x835f98db91be7e4c, 0x0, [0x01, 0x47, 0x5D],
             [0, 0x01, 0x47, 0x5D], 0xf9ef0918a6b09b24, 0x2290fea3237c00af);
  }

  lemma SecondFrom14()
    ensures Fold(0xf6422e8a3710ea84, [0, 0, 0x01, 0x47, 0x5D]) == 0x2290fea3237c00af
  {
    hide Xor, Round, Fold;
    ZeroRoundIs(0xf6422e8a3710ea84, 132, 0xf6422e8bd9, 0x835f98db91be7e4c);
    SecondFrom15();
    FoldStep(0xf6422e8a3710ea84, 0x0, [0, 0x01, 0x47, 0x5D],
             [0, 0, 0x01, 0x47, 0x5D], 0x835f98db91be7e4c, 0x2290fea3237c00af);
  }

  lemma SecondFrom13()
    ensures Fold(0xacb93be2e477816c, [0, 0, 0, 0x01, 0x47, 0x5D]) == 0x2290fea3237c00af
  {
    hide Xor, Round, Fold;
    ZeroRoundIs(0xacb93be2e477816c, 108, 0xacb93be409, 0xf6422e8a3710ea84);
    SecondFrom14();
    FoldStep(0xacb93be2e477816c, 0x0, [0, 0, 0x01, 0x47, 0x5D],
             [0, 0, 0, 0x01, 0x47, 0x5D], 0xf6422e8a3710ea84, 0x2290fea3237c00af);
  }

  lemma SecondFrom12()
    ensures Fold(0x2d66cd0085870ae4, [0, 0, 0, 0, 0x01, 0x47, 0x5D]) == 0x2290fea3237c00af
  {
    hide Xor, Round, Fold;
    ZeroRoundIs(0x2d66cd0085870ae4, 228, 0x2d66cd00d2, 0xacb93be2e477816c);
    SecondFrom13();
    FoldStep(0x2d66cd0085870ae4, 0x0, [0, 0, 0, 0x01, 0x47, 0x5D],
             [0, 0, 0, 0, 0x01, 0x47, 0x5D], 0xacb93be2e477816c, 0x2290fea3237c00af);
  }

  lemma SecondFrom11()
    ensures Fold(0x6d6160aa1450ef8c, [0, 0, 0, 0, 0, 0x01, 0x47, 0x5D]) == 0x2290fea3237c00af
  {
    hide Xor, Round, Fold;
    ZeroRoundIs(0x6d6160aa1450ef8c, 140, 0x6d6160aace, 0x2d66cd0085870ae4);
    SecondFrom12();
    FoldStep(0x6d6160aa1450ef8c, 0x0, [0, 0, 0, 0, 0x01, 0x47, 0x5D],
             [0, 0, 0, 0, 0, 0x01, 0x47, 0x5D], 0x2d66cd0085870ae4, 0x2290fea3237c00af);
  }

  lemma SecondFrom10()
    ensures Fold(0x98c471a5c2d79444, [0, 0, 0, 0, 0, 0, 0x01, 0x47, 0x5D]) == 0x2290fea3237c00af
  {
    hide Xor, Round, Fold;
    ZeroRoundIs(0x98c471a5c2d79444, 68, 0x98c471a6c6, 0x6d6160aa1450ef8c);
    SecondFrom11();
    FoldStep(0x98c471a5c2d79444, 0x0, [0, 0, 0, 0, 0, 0x01, 0x47, 0x5D],
             [0, 0, 0, 0, 0, 0, 0x01, 0x47, 0x5D], 0x6d6160aa1450ef8c, 0x2290fea3237c00af);
  }

  lemma SecondFrom9()
    ensures Fold(0x6f7351ab0c37d0ac, [0, 0, 0, 0, 0, 0, 0, 0x01, 0x47, 0x5D]) == 0x2290fea3237c00af
  {
    hide Xor, Round, Fold;
    ZeroRoundIs(0x6f7351ab0c37d0ac, 172, 0x6f7351abc9, 0x98c471a5c2d79444);
    SecondFrom10();
    FoldStep(0x6f7351ab0c37d0ac, 0x0, [0, 0, 0, 0, 0, 0, 0x01, 0x47, 0x5D],
             [0, 0, 0, 0, 0, 0, 0, 0x01, 0x47, 0x5D], 0x98c471a5c2d79444, 0x2290fea3237c00af);
  }

  lemma SecondFrom8()
    ensures Fold(0x579e5b07748d5ea4, [0, 0, 0, 0, 0, 0, 0, 0, 0x01, 0x47, 0x5D]) == 0x2290fea3237c00af
  {
    hide Xor, Round, Fold;
    ZeroRoundIs(0x579e5b07748d5ea4, 164, 0x579e5b0809, 0x6f7351ab0c37d0ac);
    SecondFrom9();
    FoldStep(0x579e5b07748d5ea4, 0x0, [0, 0, 0, 0, 0, 0, 0, 0x01, 0x47, 0x5D],
             [0, 0, 0, 0, 0, 0, 0, 0, 0x01, 0x47, 0x5D], 0x6f7351ab0c37d0ac, 0x2290fea3237c00af);
  }

  lemma SecondFrom7()
    ensures Fold(0xb9e20b25599eccc, [0, 0, 0, 0, 0, 0, 0, 0, 0, 0x01, 0x47, 0x5D]) == 0x2290fea3237c00af
  {
    hide Xor, Round, Fold;
    ZeroRoundIs(0xb9e20b25599eccc, 204, 0xb9e20b269, 0x579e5b07748d5ea4);
    SecondFrom8();
    FoldStep(0xb9e20b25599eccc, 0x0, [0, 0, 0, 0, 0, 0, 0, 0, 0x01, 0x47, 0x5D],
             [0, 0, 0, 0, 0, 0, 0, 0, 0, 0x01, 0x47, 0x5D], 0x579e5b07748d5ea4, 0x2290fea3237c00af);
  }

  lemma SecondFrom6()
    ensures Fold(0xabb359eb7cf8204, [0, 0, 0, 0, 0, 0, 0, 0, 0, 0, 0x01, 0x47, 0x5D]) == 0x2290fea3237c00af
  {
    hide Xor, Round, Fold;
    ZeroRoundIs(0xabb359eb7cf8204, 4, 0xabb359eca, 0xb9e20b25599eccc);
    SecondFrom7();
    FoldStep(0xabb359eb7cf8204, 0x0, [0, 0, 0, 0, 0, 0, 0, 0, 0, 0x01, 0x47, 0x5D],
             [0, 0, 0, 0, 0, 0, 0, 0, 0, 0, 0x01, 0x47, 0x5D], 0xb9e20b25599eccc, 0x2290fea3237c00af);
  }

  lemma SecondFrom5()
    ensures Fold(0xdad20ee1c337cbec, [0, 0, 0, 0, 0, 0, 0, 0, 0, 0, 0, 0x01, 0x47, 0x5D]) == 0x2290fea3237c00af
  {
    hide Xor, Round, Fold;
    ZeroRoundIs(0xdad20ee1c337cbec, 236, 0xdad20ee337, 0xabb359eb7cf8204);
    SecondFrom6();
    FoldStep(0xdad20ee1c337cbec, 0x0, [0, 0, 0, 0, 0, 0, 0, 0, 0, 0, 0x01, 0x47, 0x5D],
             [0, 0, 0, 0, 0, 0, 0, 0, 0, 0, 0, 0x01, 0x47, 0x5D], 0xabb359eb7cf8204, 0x2290fea3237c00af);
  }

  lemma SecondFrom4()
    ensures Fold(0x32f356508e475664, [0, 0, 0, 0, 0, 0, 0, 0, 0, 0, 0, 0, 0x01, 0x47, 0x5D]) == 0x2290fea3237c00af
  {
    hide Xor, Round, Fold;
    ZeroRoundIs(0x32f356508e475664, 100, 0x32f35650e4, 0xdad20ee1c337cbec);
    SecondFrom5();
    FoldStep(0x32f356508e475664, 0x0, [0, 0, 0, 0, 0, 0, 0, 0, 0, 0, 0, 0x01, 0x47, 0x5D],
             [0, 0, 0, 0, 0, 0, 0, 0, 0, 0, 0, 0, 0x01, 0x47, 0x5D], 0xdad20ee1c337cbec, 0x2290fea3237c00af);
  }

  lemma SecondFrom3()
    ensures Fold(0xdaa8741b41a6b60c, [0, 0, 0, 0, 0, 0, 0, 0, 0, 0, 0, 0, 0, 0x01, 0x47, 0x5D]) == 0x2290fea3237c00af
  {
    hide Xor, Round, Fold;
    ZeroRoundIs(0xdaa8741b41a6b60c, 12, 0xdaa8741cb5, 0x32f356508e475664);
    SecondFrom4();
    FoldStep(0xdaa8741b41a6b60c, 0x0, [0, 0, 0, 0, 0, 0, 0, 0, 0, 0, 0, 0, 0x01, 0x47, 0x5D],
             [0, 0, 0, 0, 0, 0, 0, 0, 0, 0, 0, 0, 0, 0x01, 0x47, 0x5D], 0x32f356508e475664, 0x2290fea3237c00af);
  }

  lemma SecondFrom2()
    ensures Fold(0xa295107b69673c4, [0, 0, 0, 0, 0, 0, 0, 0, 0, 0, 0, 0, 0, 0, 0x01, 0x47, 0x5D]) == 0x2290fea3237c00af
  {
    hide Xor, Round, Fold;
    ZeroRoundIs(0xa295107b69673c4, 196, 0xa295107c7, 0xdaa8741b41a6b60c);
    SecondFrom3();
    FoldStep(0xa295107b69673c4, 0x0, [0, 0, 0, 0, 0, 0, 0, 0, 0, 0, 0, 0, 0, 0x01, 0x47, 0x5D],
             [0, 0, 0, 0, 0, 0, 0, 0, 0, 0, 0, 0, 0, 0, 0x01, 0x47, 0x5D], 0xdaa8741b41a6b60c, 0x2290fea3237c00af);
  }

  lemma SecondFrom1()
    ensures Fold(0xaf64514c8602b35b, [0x77, 0, 0, 0, 0, 0, 0, 0, 0, 0, 0, 0, 0, 0, 0, 0x01, 0x47, 0x5D])
        == 0x2290fea3237c00af
  {
    hide Xor, Round, Fold;
    NoBits();
    LowBit(0, 0, 0, 0);
    LowBit(1, 1, 1, 0);
    LowBit(2, 3, 2, 0);
    LowBit(5, 7, 3, 1);
    LowBit(11, 14, 4, 2);
    LowBit(22, 29, 5, 5);
    LowBit(45, 59, 6, 11);
    LowBit(91, 119, 7, 22);
    RoundIs(0xaf64514c8602b35b, 0x77, 91, 44, 0xaf64514db0, 0xa295107b69673c4);
    SecondFrom2();
    FoldStep(0xaf64514c8602b35b, 0x77, [0, 0, 0, 0, 0, 0, 0, 0, 0, 0, 0, 0, 0, 0, 0x01, 0x47, 0x5D],
             [0x77, 0, 0, 0, 0, 0, 0, 0, 0, 0, 0, 0, 0, 0, 0, 0x01, 0x47, 0x5D], 0xa295107b69673c4, 0x2290fea3237c00af);
  }

  lemma SecondFrom0()
    ensures Fold(0xcbf29ce484222325, [0x9C, 0x77, 0, 0, 0, 0, 0, 0, 0, 0, 0, 0, 0, 0, 0, 0, 0x01, 0x47, 0x5D])
        == 0x2290fea3237c00af
  {
    hide Xor, Round, Fold;
    NoBits();
    LowBit(0, 1, 0, 0);
    LowBit(0, 2, 1, 1);
    LowBit(1, 4, 2, 2);
    LowBit(2, 9, 3, 5);
    LowBit(4, 19, 4, 11);
    LowBit(9, 39, 5, 23);
    LowBit(18, 78, 6, 46);
    LowBit(37, 156, 7, 92);
    RoundIs(0xcbf29ce484222325, 0x9C, 37, 185, 0xcbf29ce5de, 0xaf64514c8602b35b);
    SecondFrom1();
    FoldStep(0xcbf29ce484222325, 0x9c, [0x77, 0, 0, 0, 0, 0, 0, 0, 0, 0, 0, 0, 0, 0, 0, 0x01, 0x47, 0x5D],
             [0x9C, 0x77, 0, 0, 0, 0, 0, 0, 0, 0, 0, 0, 0, 0, 0, 0, 0x01, 0x47, 0x5D], 0xaf64514c8602b35b,
                 0x2290fea3237c00af);
  }

  // ---------------------------------------------------------------- the collision

  const FIRST: Bytes := [0x5E, 0xA6, 0, 0, 0, 0, 0, 0, 0, 0, 0, 0, 0, 0, 0, 0, 0, 0x95, 0x58]
  const SECOND: Bytes := [0x9C, 0x77, 0, 0, 0, 0, 0, 0, 0, 0, 0, 0, 0, 0, 0, 0, 0x01, 0x47, 0x5D]

  lemma SameEtag(p: Bytes, q: Bytes, g: U64, h: U64)
    requires Fnv(p) == g && Fnv(q) == h && g / 0x1_0000_0000 == h / 0x1_0000_0000 == 0x2290_fea3
    ensures EtagOf(p) == EtagOf(q) == [0x22, 0x90, 0xFE, 0xA3]
  {
    hide Fnv;
  }

  /** Nineteen bytes against nineteen others: different blocks 0 and 1 at size 16, one ETag, the first four bytes of
      the hash. */
  lemma EtagsCollide()
    ensures |FIRST| == |SECOND| == 19
    ensures FIRST[..16] != SECOND[..16] && FIRST[16..] != SECOND[16..]
    ensures EtagOf(FIRST) == EtagOf(SECOND) == [0x22, 0x90, 0xFE, 0xA3]
  {
    hide Fold, EtagOf;
    FirstFrom0();
    SecondFrom0();
    SameEtag(FIRST, SECOND, 0x2290fea3d78717ea, 0x2290fea3237c00af);
    assert FIRST[..16][0] == 0x5E && SECOND[..16][0] == 0x9C;
    assert FIRST[16..][1] == 0x95 && SECOND[16..][1] == 0x47;
  }
}
