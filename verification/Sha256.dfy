/**
  SHA-256 as the artifact store computes it, against the functional definition in
  FIPS 180-4: the functions of section 4.1.2, the constants of sections 4.2.2 and
  5.3.3, the padding of section 5.1.1 and the computation of section 6.2.2.
 */
module Sha256 {
  import opened Strings
  import opened Wrappers

  type Byte = b: int | 0 <= b < 256
  type Word = w: int | 0 <= w < 0x1_0000_0000

  const TWO_32: int := 0x1_0000_0000
  const TWO_61: nat := 0x2000_0000_0000_0000
  const TWO_64: nat := 0x1_0000_0000_0000_0000

  // ------------------------------------------------------------------- section 4.1.2

  function Add(x: Word, y: Word): Word { (x + y) % TWO_32 }

  // The bitwise functions are defined on bit vectors; a word is its value as a number.

  function BvCh(x: bv32, y: bv32, z: bv32): bv32 { (x & y) ^ (!x & z) }
  function BvMaj(x: bv32, y: bv32, z: bv32): bv32 { (x & y) ^ (x & z) ^ (y & z) }
  function BvBigSigma0(x: bv32): bv32 { x.RotateRight(2) ^ x.RotateRight(13) ^ x.RotateRight(22) }
  function BvBigSigma1(x: bv32): bv32 { x.RotateRight(6) ^ x.RotateRight(11) ^ x.RotateRight(25) }
  function BvSmallSigma0(x: bv32): bv32 { x.RotateRight(7) ^ x.RotateRight(18) ^ (x >> 3) }
  function BvSmallSigma1(x: bv32): bv32 { x.RotateRight(17) ^ x.RotateRight(19) ^ (x >> 10) }

  function Ch(x: Word, y: Word, z: Word): Word { BvCh(x as bv32, y as bv32, z as bv32) as int }
  function Maj(x: Word, y: Word, z: Word): Word { BvMaj(x as bv32, y as bv32, z as bv32) as int }
  function BigSigma0(x: Word): Word { BvBigSigma0(x as bv32) as int }
  function BigSigma1(x: Word): Word { BvBigSigma1(x as bv32) as int }
  function SmallSigma0(x: Word): Word { BvSmallSigma0(x as bv32) as int }
  function SmallSigma1(x: Word): Word { BvSmallSigma1(x as bv32) as int }

  /** Where a bit of `x` is set the choice is that of `y`, and elsewhere that of `z`. */
  lemma ChSelects(x: bv32, y: bv32, z: bv32)
    ensures BvCh(x, y, z) & x == y & x && BvCh(x, y, z) & !x == z & !x
  {
  }

  // Where two agree, the majority is theirs.

  lemma MajOfFirstTwo(x: bv32, y: bv32, z: bv32)
    ensures BvMaj(x, y, z) & !(x ^ y) == x & !(x ^ y)
  {
  }

  lemma MajOfOuterTwo(x: bv32, y: bv32, z: bv32)
    ensures BvMaj(x, y, z) & !(x ^ z) == x & !(x ^ z)
  {
  }

  lemma MajOfLastTwo(x: bv32, y: bv32, z: bv32)
    ensures BvMaj(x, y, z) & !(y ^ z) == y & !(y ^ z)
  {
  }

  /** The sum turns with the word. */
  lemma BigSigma0Turns(x: bv32)
    ensures BvBigSigma0(x.RotateRight(1)) == BvBigSigma0(x).RotateRight(1)
  {
    calc {
      BvBigSigma0(x.RotateRight(1));
      x.RotateRight(1).RotateRight(2) ^ x.RotateRight(1).RotateRight(13) ^ x.RotateRight(1).RotateRight(22);
      (x.RotateRight(2) ^ x.RotateRight(13) ^ x.RotateRight(22)).RotateRight(1);
      BvBigSigma0(x).RotateRight(1);
    }
  }

  /** Its last bit is the sum of bits 2, 13 and 22. */
  lemma BigSigma0Last(x: bv32)
    ensures BvBigSigma0(x) & 1 == ((x >> 2) ^ (x >> 13) ^ (x >> 22)) & 1
  {
    calc {
      BvBigSigma0(x) & 1;
      (x.RotateRight(2) ^ x.RotateRight(13) ^ x.RotateRight(22)) & 1;
      ((x >> 2) ^ (x >> 13) ^ (x >> 22)) & 1;
    }
  }

  /** The sum turns with the word. */
  lemma BigSigma1Turns(x: bv32)
    ensures BvBigSigma1(x.RotateRight(1)) == BvBigSigma1(x).RotateRight(1)
  {
    calc {
      BvBigSigma1(x.RotateRight(1));
      x.RotateRight(1).RotateRight(6) ^ x.RotateRight(1).RotateRight(11) ^ x.RotateRight(1).RotateRight(25);
      (x.RotateRight(6) ^ x.RotateRight(11) ^ x.RotateRight(25)).RotateRight(1);
      BvBigSigma1(x).RotateRight(1);
    }
  }

  /** Its last bit is the sum of bits 6, 11 and 25. */
  lemma BigSigma1Last(x: bv32)
    ensures BvBigSigma1(x) & 1 == ((x >> 6) ^ (x >> 11) ^ (x >> 25)) & 1
  {
    calc {
      BvBigSigma1(x) & 1;
      (x.RotateRight(6) ^ x.RotateRight(11) ^ x.RotateRight(25)) & 1;
      ((x >> 6) ^ (x >> 11) ^ (x >> 25)) & 1;
    }
  }

  /** Each bit goes 7 and 18 places down around the word, and 3 places down or out of it. */
  lemma SmallSigma0OfBits()
    ensures BvSmallSigma0(0x00000001) == 0x02004000 && BvSmallSigma0(0x00000002) == 0x04008000
    ensures BvSmallSigma0(0x00000004) == 0x08010000 && BvSmallSigma0(0x00000008) == 0x10020001
    ensures BvSmallSigma0(0x00000010) == 0x20040002 && BvSmallSigma0(0x00000020) == 0x40080004
    ensures BvSmallSigma0(0x00000040) == 0x80100008 && BvSmallSigma0(0x00000080) == 0x00200011
    ensures BvSmallSigma0(0x00000100) == 0x00400022 && BvSmallSigma0(0x00000200) == 0x00800044
    ensures BvSmallSigma0(0x00000400) == 0x01000088 && BvSmallSigma0(0x00000800) == 0x02000110
    ensures BvSmallSigma0(0x00001000) == 0x04000220 && BvSmallSigma0(0x00002000) == 0x08000440
    ensures BvSmallSigma0(0x00004000) == 0x10000880 && BvSmallSigma0(0x00008000) == 0x20001100
    ensures BvSmallSigma0(0x00010000) == 0x40002200 && BvSmallSigma0(0x00020000) == 0x80004400
    ensures BvSmallSigma0(0x00040000) == 0x00008801 && BvSmallSigma0(0x00080000) == 0x00011002
    ensures BvSmallSigma0(0x00100000) == 0x00022004 && BvSmallSigma0(0x00200000) == 0x00044008
    ensures BvSmallSigma0(0x00400000) == 0x00088010 && BvSmallSigma0(0x00800000) == 0x00110020
    ensures BvSmallSigma0(0x01000000) == 0x00220040 && BvSmallSigma0(0x02000000) == 0x00440080
    ensures BvSmallSigma0(0x04000000) == 0x00880100 && BvSmallSigma0(0x08000000) == 0x01100200
    ensures BvSmallSigma0(0x10000000) == 0x02200400 && BvSmallSigma0(0x20000000) == 0x04400800
    ensures BvSmallSigma0(0x40000000) == 0x08801000 && BvSmallSigma0(0x80000000) == 0x11002000
  {
  }

  /** The last bit is the sum of bits 7, 18 and 3. */
  lemma SmallSigma0Last(x: bv32)
    ensures BvSmallSigma0(x) & 1 == ((x >> 7) ^ (x >> 18) ^ (x >> 3)) & 1
  {
    calc {
      BvSmallSigma0(x) & 1;
      (x.RotateRight(7) ^ x.RotateRight(18) ^ (x >> 3)) & 1;
      ((x >> 7) ^ (x >> 18) ^ (x >> 3)) & 1;
    }
  }

  /** Each bit goes 17 and 19 places down around the word, and 10 places down or out of it. */
  lemma SmallSigma1OfBits()
    ensures BvSmallSigma1(0x00000001) == 0x0000a000 && BvSmallSigma1(0x00000002) == 0x00014000
    ensures BvSmallSigma1(0x00000004) == 0x00028000 && BvSmallSigma1(0x00000008) == 0x00050000
    ensures BvSmallSigma1(0x00000010) == 0x000a0000 && BvSmallSigma1(0x00000020) == 0x00140000
    ensures BvSmallSigma1(0x00000040) == 0x00280000 && BvSmallSigma1(0x00000080) == 0x00500000
    ensures BvSmallSigma1(0x00000100) == 0x00a00000 && BvSmallSigma1(0x00000200) == 0x01400000
    ensures BvSmallSigma1(0x00000400) == 0x02800001 && BvSmallSigma1(0x00000800) == 0x05000002
    ensures BvSmallSigma1(0x00001000) == 0x0a000004 && BvSmallSigma1(0x00002000) == 0x14000008
    ensures BvSmallSigma1(0x00004000) == 0x28000010 && BvSmallSigma1(0x00008000) == 0x50000020
    ensures BvSmallSigma1(0x00010000) == 0xa0000040 && BvSmallSigma1(0x00020000) == 0x40000081
    ensures BvSmallSigma1(0x00040000) == 0x80000102 && BvSmallSigma1(0x00080000) == 0x00000205
    ensures BvSmallSigma1(0x00100000) == 0x0000040a && BvSmallSigma1(0x00200000) == 0x00000814
    ensures BvSmallSigma1(0x00400000) == 0x00001028 && BvSmallSigma1(0x00800000) == 0x00002050
    ensures BvSmallSigma1(0x01000000) == 0x000040a0 && BvSmallSigma1(0x02000000) == 0x00008140
    ensures BvSmallSigma1(0x04000000) == 0x00010280 && BvSmallSigma1(0x08000000) == 0x00020500
    ensures BvSmallSigma1(0x10000000) == 0x00040a00 && BvSmallSigma1(0x20000000) == 0x00081400
    ensures BvSmallSigma1(0x40000000) == 0x00102800 && BvSmallSigma1(0x80000000) == 0x00205000
  {
  }

  /** The last bit is the sum of bits 17, 19 and 10. */
  lemma SmallSigma1Last(x: bv32)
    ensures BvSmallSigma1(x) & 1 == ((x >> 17) ^ (x >> 19) ^ (x >> 10)) & 1
  {
    calc {
      BvSmallSigma1(x) & 1;
      (x.RotateRight(17) ^ x.RotateRight(19) ^ (x >> 10)) & 1;
      ((x >> 17) ^ (x >> 19) ^ (x >> 10)) & 1;
    }
  }

  lemma AddCommutes(a: Word, b: Word)
    ensures Add(a, b) == Add(b, a)
  {
  }

  lemma AddAssociates(a: Word, b: Word, c: Word)
    ensures Add(Add(a, b), c) == Add(a, Add(b, c))
  {
  }

  lemma SumOf(a: Word, b: Word)
    ensures Add(a, b) == (a + b) % TWO_32
  {
  }

  lemma SumsAdd(x: nat, y: nat)
    ensures Add(x % TWO_32, y % TWO_32) == (x + y) % TWO_32
  {
    var p, q := x / TWO_32, y / TWO_32;
    assert x % TWO_32 + y % TWO_32 == x + y - (p + q) * TWO_32;
  }

  lemma SumGrows(x: nat, b: Word)
    ensures Add(x % TWO_32, b) == (x + b) % TWO_32 && Add(b, x % TWO_32) == (b + x) % TWO_32
  {
    SumsAdd(x, b);
    AddCommutes(b, x % TWO_32);
    assert b % TWO_32 == b;
  }

  lemma SumOfFour(a: Word, b: Word, c: Word, d: Word)
    ensures Add(Add(Add(a, b), c), d) == (a + b + c + d) % TWO_32
  {
    hide Add;
    SumOf(a, b);
    SumGrows(a + b, c);
    SumGrows(a + b + c, d);
  }

  lemma AddReorders(a: Word, b: Word, c: Word, d: Word)
    ensures Add(Add(Add(a, b), c), d) == Add(Add(Add(d, c), b), a)
  {
    hide Add;
    AddCommutes(a, b);
    AddCommutes(Add(b, a), c);
    AddCommutes(Add(c, Add(b, a)), d);
    AddAssociates(d, c, Add(b, a));
    AddAssociates(Add(d, c), b, a);
  }

  // ------------------------------------------------------------------------ constants

  const INITIAL: seq<Word> := [
    0x6a09e667, 0xbb67ae85, 0x3c6ef372, 0xa54ff53a, 0x510e527f, 0x9b05688c, 0x1f83d9ab, 0x5be0cd19]

  /** The round constants. */
  function K(t: nat): Word
    requires t < 64
  {
    match t
    case 0 => 0x428a2f98 case 1 => 0x71374491 case 2 => 0xb5c0fbcf case 3 => 0xe9b5dba5
    case 4 => 0x3956c25b case 5 => 0x59f111f1 case 6 => 0x923f82a4 case 7 => 0xab1c5ed5
    case 8 => 0xd807aa98 case 9 => 0x12835b01 case 10 => 0x243185be case 11 => 0x550c7dc3
    case 12 => 0x72be5d74 case 13 => 0x80deb1fe case 14 => 0x9bdc06a7 case 15 => 0xc19bf174
    case 16 => 0xe49b69c1 case 17 => 0xefbe4786 case 18 => 0x0fc19dc6 case 19 => 0x240ca1cc
    case 20 => 0x2de92c6f case 21 => 0x4a7484aa case 22 => 0x5cb0a9dc case 23 => 0x76f988da
    case 24 => 0x983e5152 case 25 => 0xa831c66d case 26 => 0xb00327c8 case 27 => 0xbf597fc7
    case 28 => 0xc6e00bf3 case 29 => 0xd5a79147 case 30 => 0x06ca6351 case 31 => 0x14292967
    case 32 => 0x27b70a85 case 33 => 0x2e1b2138 case 34 => 0x4d2c6dfc case 35 => 0x53380d13
    case 36 => 0x650a7354 case 37 => 0x766a0abb case 38 => 0x81c2c92e case 39 => 0x92722c85
    case 40 => 0xa2bfe8a1 case 41 => 0xa81a664b case 42 => 0xc24b8b70 case 43 => 0xc76c51a3
    case 44 => 0xd192e819 case 45 => 0xd6990624 case 46 => 0xf40e3585 case 47 => 0x106aa070
    case 48 => 0x19a4c116 case 49 => 0x1e376c08 case 50 => 0x2748774c case 51 => 0x34b0bcb5
    case 52 => 0x391c0cb3 case 53 => 0x4ed8aa4a case 54 => 0x5b9cca4f case 55 => 0x682e6ff3
    case 56 => 0x748f82ee case 57 => 0x78a5636f case 58 => 0x84c87814 case 59 => 0x8cc70208
    case 60 => 0x90befffa case 61 => 0xa4506ceb case 62 => 0xbef9a3f7 case _ => 0xc67178f2
  }

  /** The first sixty-four primes. */
  function Prime(t: nat): nat
    requires t < 64
  {
    match t
    case 0 => 2 case 1 => 3 case 2 => 5 case 3 => 7
    case 4 => 11 case 5 => 13 case 6 => 17 case 7 => 19
    case 8 => 23 case 9 => 29 case 10 => 31 case 11 => 37
    case 12 => 41 case 13 => 43 case 14 => 47 case 15 => 53
    case 16 => 59 case 17 => 61 case 18 => 67 case 19 => 71
    case 20 => 73 case 21 => 79 case 22 => 83 case 23 => 89
    case 24 => 97 case 25 => 101 case 26 => 103 case 27 => 107
    case 28 => 109 case 29 => 113 case 30 => 127 case 31 => 131
    case 32 => 137 case 33 => 139 case 34 => 149 case 35 => 151
    case 36 => 157 case 37 => 163 case 38 => 167 case 39 => 173
    case 40 => 179 case 41 => 181 case 42 => 191 case 43 => 193
    case 44 => 197 case 45 => 199 case 46 => 211 case 47 => 223
    case 48 => 227 case 49 => 229 case 50 => 233 case 51 => 239
    case 52 => 241 case 53 => 251 case 54 => 257 case 55 => 263
    case 56 => 269 case 57 => 271 case 58 => 277 case 59 => 281
    case 60 => 283 case 61 => 293 case 62 => 307 case _ => 311
  }

  /** `k` is the first 32 bits of the fractional part of the square root of `p`. */
  ghost predicate IsSquareRootFraction(p: nat, k: Word)
  {
    exists a: nat :: SquareBelow(p, a * TWO_32 + k) && !SquareBelow(p, a * TWO_32 + k + 1)
  }

  /** `k` is the first 32 bits of the fractional part of the cube root of `p`. */
  ghost predicate IsCubeRootFraction(p: nat, k: Word)
  {
    exists a: nat :: CubeBelow(p, a * TWO_32 + k) && !CubeBelow(p, a * TWO_32 + k + 1)
  }

  predicate SquareBelow(p: nat, n: nat) { n * n <= p * 0x1_0000_0000_0000_0000 }
  predicate CubeBelow(p: nat, n: nat) { n * n * n <= p * 0x1_0000_0000_0000_0000_0000_0000 }

  lemma SquareRoot(p: nat, k: Word, a: nat)
    requires SquareBelow(p, a * TWO_32 + k) && !SquareBelow(p, a * TWO_32 + k + 1)
    ensures IsSquareRootFraction(p, k)
  {
  }

  lemma CubeRoot(p: nat, k: Word, a: nat)
    requires CubeBelow(p, a * TWO_32 + k) && !CubeBelow(p, a * TWO_32 + k + 1)
    ensures IsCubeRootFraction(p, k)
  {
  }

  lemma InitialFromSquareRoots(i: nat)
    requires i < 8
    ensures IsSquareRootFraction(Prime(i), INITIAL[i])
  {
    hide IsSquareRootFraction;
    match i
    case 0 => SquareRoot(2, 0x6a09e667, 1);
    case 1 => SquareRoot(3, 0xbb67ae85, 1);
    case 2 => SquareRoot(5, 0x3c6ef372, 2);
    case 3 => SquareRoot(7, 0xa54ff53a, 2);
    case 4 => SquareRoot(11, 0x510e527f, 3);
    case 5 => SquareRoot(13, 0x9b05688c, 3);
    case 6 => SquareRoot(17, 0x1f83d9ab, 4);
    case 7 => SquareRoot(19, 0x5be0cd19, 4);
  }

  lemma ConstantsFromCubeRoots(i: nat)
    requires i < 64
    ensures IsCubeRootFraction(Prime(i), K(i))
  {
    hide IsCubeRootFraction;
    match i
    case 0 => CubeRoot(2, 0x428a2f98, 1);
    case 1 => CubeRoot(3, 0x71374491, 1);
    case 2 => CubeRoot(5, 0xb5c0fbcf, 1);
    case 3 => CubeRoot(7, 0xe9b5dba5, 1);
    case 4 => CubeRoot(11, 0x3956c25b, 2);
    case 5 => CubeRoot(13, 0x59f111f1, 2);
    case 6 => CubeRoot(17, 0x923f82a4, 2);
    case 7 => CubeRoot(19, 0xab1c5ed5, 2);
    case 8 => CubeRoot(23, 0xd807aa98, 2);
    case 9 => CubeRoot(29, 0x12835b01, 3);
    case 10 => CubeRoot(31, 0x243185be, 3);
    case 11 => CubeRoot(37, 0x550c7dc3, 3);
    case 12 => CubeRoot(41, 0x72be5d74, 3);
    case 13 => CubeRoot(43, 0x80deb1fe, 3);
    case 14 => CubeRoot(47, 0x9bdc06a7, 3);
    case 15 => CubeRoot(53, 0xc19bf174, 3);
    case 16 => CubeRoot(59, 0xe49b69c1, 3);
    case 17 => CubeRoot(61, 0xefbe4786, 3);
    case 18 => CubeRoot(67, 0x0fc19dc6, 4);
    case 19 => CubeRoot(71, 0x240ca1cc, 4);
    case 20 => CubeRoot(73, 0x2de92c6f, 4);
    case 21 => CubeRoot(79, 0x4a7484aa, 4);
    case 22 => CubeRoot(83, 0x5cb0a9dc, 4);
    case 23 => CubeRoot(89, 0x76f988da, 4);
    case 24 => CubeRoot(97, 0x983e5152, 4);
    case 25 => CubeRoot(101, 0xa831c66d, 4);
    case 26 => CubeRoot(103, 0xb00327c8, 4);
    case 27 => CubeRoot(107, 0xbf597fc7, 4);
    case 28 => CubeRoot(109, 0xc6e00bf3, 4);
    case 29 => CubeRoot(113, 0xd5a79147, 4);
    case 30 => CubeRoot(127, 0x06ca6351, 5);
    case 31 => CubeRoot(131, 0x14292967, 5);
    case 32 => CubeRoot(137, 0x27b70a85, 5);
    case 33 => CubeRoot(139, 0x2e1b2138, 5);
    case 34 => CubeRoot(149, 0x4d2c6dfc, 5);
    case 35 => CubeRoot(151, 0x53380d13, 5);
    case 36 => CubeRoot(157, 0x650a7354, 5);
    case 37 => CubeRoot(163, 0x766a0abb, 5);
    case 38 => CubeRoot(167, 0x81c2c92e, 5);
    case 39 => CubeRoot(173, 0x92722c85, 5);
    case 40 => CubeRoot(179, 0xa2bfe8a1, 5);
    case 41 => CubeRoot(181, 0xa81a664b, 5);
    case 42 => CubeRoot(191, 0xc24b8b70, 5);
    case 43 => CubeRoot(193, 0xc76c51a3, 5);
    case 44 => CubeRoot(197, 0xd192e819, 5);
    case 45 => CubeRoot(199, 0xd6990624, 5);
    case 46 => CubeRoot(211, 0xf40e3585, 5);
    case 47 => CubeRoot(223, 0x106aa070, 6);
    case 48 => CubeRoot(227, 0x19a4c116, 6);
    case 49 => CubeRoot(229, 0x1e376c08, 6);
    case 50 => CubeRoot(233, 0x2748774c, 6);
    case 51 => CubeRoot(239, 0x34b0bcb5, 6);
    case 52 => CubeRoot(241, 0x391c0cb3, 6);
    case 53 => CubeRoot(251, 0x4ed8aa4a, 6);
    case 54 => CubeRoot(257, 0x5b9cca4f, 6);
    case 55 => CubeRoot(263, 0x682e6ff3, 6);
    case 56 => CubeRoot(269, 0x748f82ee, 6);
    case 57 => CubeRoot(271, 0x78a5636f, 6);
    case 58 => CubeRoot(277, 0x84c87814, 6);
    case 59 => CubeRoot(281, 0x8cc70208, 6);
    case 60 => CubeRoot(283, 0x90befffa, 6);
    case 61 => CubeRoot(293, 0xa4506ceb, 6);
    case 62 => CubeRoot(307, 0xbef9a3f7, 6);
    case 63 => CubeRoot(311, 0xc67178f2, 6);
  }

  // -------------------------------------------------------------------- section 5.1.1

  /** An integer in `size` bytes, most significant first. */
  function BigEndian(n: nat, size: nat): (s: seq<Byte>)
    ensures |s| == size
  {
    if size == 0 then [] else BigEndian(n / 256, size - 1) + [n % 256]
  }

  function FromBigEndian(s: seq<Byte>): nat
  {
    if s == [] then 0 else FromBigEndian(s[..|s| - 1]) * 256 + s[|s| - 1]
  }

  function Power256(size: nat): nat
  {
    if size == 0 then 1 else 256 * Power256(size - 1)
  }

  lemma {:induction false} BigEndianRoundTrip(n: nat, size: nat)
    requires n < Power256(size)
    ensures FromBigEndian(BigEndian(n, size)) == n
  {
    if size > 0 {
      BigEndianRoundTrip(n / 256, size - 1);
      assert BigEndian(n, size)[..size - 1] == BigEndian(n / 256, size - 1);
    }
  }

  function Zeros(k: nat): seq<Byte>
  {
    seq(k, _ => 0)
  }

  /** The number of zero bytes after the byte that holds the one bit. */
  function ZeroBytes(length: nat): (k: nat)
    ensures k < 64 && (length + 1 + k) % 64 == 56
  {
    (119 - length % 64) % 64
  }

  function BitLength(length: nat): (l: nat)
    ensures l < TWO_64
  {
    (8 * length) % TWO_64
  }

  function Padded(message: seq<Byte>): (p: seq<Byte>)
    ensures |p| == |message| + 1 + ZeroBytes(|message|) + 8
  {
    message + [0x80] + Zeros(ZeroBytes(|message|)) + BigEndian(BitLength(|message|), 8)
  }

  /** A padded message is a whole number of blocks. */
  lemma PaddingIsWhole(message: seq<Byte>)
    ensures |Padded(message)| % 64 == 0
  {
    hide Padded, ZeroBytes;
  }

  /**
    In bits: a message of l bits is followed by a one and by k zeros, where k is the least
    number with l + 1 + k = 448 modulo 512, and then by l itself.
   */
  lemma PaddingIsMinimal(message: seq<Byte>, k: nat)
    requires (8 * |message| + 1 + k) % 512 == 448
    ensures 7 + 8 * ZeroBytes(|message|) <= k
    ensures (8 * |message| + 1 + (7 + 8 * ZeroBytes(|message|))) % 512 == 448
  {
    var l, z := |message|, ZeroBytes(|message|);
    assert (l + 1 + z) % 64 == 56;
    assert (8 * l + 8 + 8 * z) % 512 == 448;
  }

  /** The length comes back out of the last eight bytes, and with it the message. */
  function Unpadded(p: seq<Byte>): Option<seq<Byte>>
  {
    if |p| < 8 then None
    else
      var length := FromBigEndian(p[|p| - 8..]) / 8;
      if length <= |p| then Some(p[..length]) else None
  }

  lemma PaddedEnds(message: seq<Byte>)
    ensures var p := Padded(message); p[..|message|] == message && p[|p| - 8..] == BigEndian(BitLength(|message|), 8)
  {
    hide ZeroBytes, BitLength, BigEndian;
  }

  lemma BitLengthFits(length: nat)
    requires length < TWO_61
    ensures BitLength(length) == 8 * length
  {
  }

  lemma PaddingInverts(message: seq<Byte>)
    requires |message| < TWO_61
    ensures Unpadded(Padded(message)) == Some(message)
  {
    hide ZeroBytes, BitLength, BigEndian, FromBigEndian, Padded, Power256;
    PaddedEnds(message);
    BitLengthFits(|message|);
    EightBytes();
    BigEndianRoundTrip(BitLength(|message|), 8);
  }

  lemma EightBytes()
    ensures Power256(8) == TWO_64
  {
    assert Power256(4) == 0x1_0000_0000;
    assert Power256(8) == 256 * (256 * (256 * (256 * Power256(4))));
  }

  lemma PaddingInjective(a: seq<Byte>, b: seq<Byte>)
    requires |a| < TWO_61 && |b| < TWO_61 && Padded(a) == Padded(b)
    ensures a == b
  {
    PaddingInverts(a);
    PaddingInverts(b);
  }

  /** The padding loop. */
  method Pad(bytes: seq<Byte>) returns (message: seq<Byte>)
    ensures message == Padded(bytes)
  {
    var bitLength := BitLength(|bytes|);
    message := bytes + [0x80];
    ghost var k := 0;
    while |message| % 64 != 56
      invariant k <= ZeroBytes(|bytes|) && message == bytes + [0x80] + Zeros(k)
      decreases ZeroBytes(|bytes|) - k
    {
      PaddingGoesOn(|bytes|, k);
      message, k := message + [0], k + 1;
    }
    PaddingStops(|bytes|, k);
    message := message + BigEndian(bitLength, 8);
  }

  lemma PaddingGoesOn(length: nat, k: nat)
    requires k <= ZeroBytes(length) && (length + 1 + k) % 64 != 56
    ensures k < ZeroBytes(length)
  {
  }

  lemma PaddingStops(length: nat, k: nat)
    requires k <= ZeroBytes(length) && (length + 1 + k) % 64 == 56
    ensures k == ZeroBytes(length)
  {
  }

  // -------------------------------------------------------------------- section 6.2.2

  function WordOf(b: seq<Byte>): Word
    requires |b| == 4
  {
    b[0] as int * 0x100_0000 + b[1] as int * 0x1_0000 + b[2] as int * 0x100 + b[3] as int
  }

  lemma WordOfIsBigEndian(b: seq<Byte>)
    requires |b| == 4
    ensures WordOf(b) == FromBigEndian(b)
  {
    assert b[..3][..2] == b[..2] && b[..2][..1] == b[..1];
    assert FromBigEndian(b[..1]) == b[0];
    assert FromBigEndian(b[..2]) == 256 * b[0] as int + b[1] as int;
    assert FromBigEndian(b[..3]) == 256 * (256 * b[0] as int + b[1] as int) + b[2] as int;
  }

  /** The message schedule. */
  function W(block: seq<Byte>, t: nat): Word
    requires |block| == 64 && t < 64
  {
    if t < 16 then WordOf(block[4 * t..4 * t + 4])
    else Add(Add(Add(SmallSigma1(W(block, t - 2)), W(block, t - 7)), SmallSigma0(W(block, t - 15))), W(block, t - 16))
  }

  /** The first sixteen words are the block's; each later one is a sum of four modulo 2^32. */
  lemma ScheduleMeans(block: seq<Byte>, t: nat)
    requires |block| == 64 && t < 64
    ensures t < 16 ==> W(block, t) == FromBigEndian(block[4 * t..4 * t + 4])
    ensures t >= 16 ==>
      W(block, t) == (SmallSigma1(W(block, t - 2)) + W(block, t - 7) + SmallSigma0(W(block, t - 15)) + W(block, t - 16)) % TWO_32
  {
    hide SmallSigma0, SmallSigma1, WordOf, Add;
    if t < 16 {
      WordOfIsBigEndian(block[4 * t..4 * t + 4]);
    } else {
      SumOfFour(SmallSigma1(W(block, t - 2)), W(block, t - 7), SmallSigma0(W(block, t - 15)), W(block, t - 16));
    }
  }

  datatype Working = Working(a: Word, b: Word, c: Word, d: Word, e: Word, f: Word, g: Word, h: Word)

  function Round(v: Working, k: Word, w: Word): Working
  {
    var t1 := Add(Add(Add(Add(v.h, BigSigma1(v.e)), Ch(v.e, v.f, v.g)), k), w);
    var t2 := Add(BigSigma0(v.a), Maj(v.a, v.b, v.c));
    Working(Add(t1, t2), v.a, v.b, v.c, Add(v.d, t1), v.e, v.f, v.g)
  }

  /** One round in full: six words move on, and two are sums modulo 2^32. */
  lemma RoundMeans(v: Working, k: Word, w: Word)
    ensures var t1 := v.h + BigSigma1(v.e) + Ch(v.e, v.f, v.g) + k + w;
      Round(v, k, w) == Working((t1 + BigSigma0(v.a) + Maj(v.a, v.b, v.c)) % TWO_32, v.a, v.b, v.c, (v.d + t1) % TWO_32, v.e, v.f, v.g)
  {
    hide BigSigma0, BigSigma1, Ch, Maj, Add;
    SumOfFour(v.h, BigSigma1(v.e), Ch(v.e, v.f, v.g), k);
    var t1 := Add(Add(Add(Add(v.h, BigSigma1(v.e)), Ch(v.e, v.f, v.g)), k), w);
    SumGrows(v.h + BigSigma1(v.e) + Ch(v.e, v.f, v.g) + k, w);
    SumOf(BigSigma0(v.a), Maj(v.a, v.b, v.c));
    SumGrows(v.h + BigSigma1(v.e) + Ch(v.e, v.f, v.g) + k + w, v.d);
    SumOf(v.d, t1);
    SumsAdd(v.h + BigSigma1(v.e) + Ch(v.e, v.f, v.g) + k + w, BigSigma0(v.a) + Maj(v.a, v.b, v.c));
  }

  function Rounds(v: Working, block: seq<Byte>, t: nat): Working
    requires |block| == 64 && t <= 64
  {
    if t == 0 then v else Round(Rounds(v, block, t - 1), K(t - 1), W(block, t - 1))
  }

  function ToWorking(hash: seq<Word>): Working
    requires |hash| == 8
  {
    Working(hash[0], hash[1], hash[2], hash[3], hash[4], hash[5], hash[6], hash[7])
  }

  function ToWords(v: Working): (s: seq<Word>)
    ensures |s| == 8
  {
    [v.a, v.b, v.c, v.d, v.e, v.f, v.g, v.h]
  }

  function Compressed(hash: seq<Word>, block: seq<Byte>): (s: seq<Word>)
    requires |hash| == 8 && |block| == 64
    ensures |s| == 8
  {
    var v := ToWords(Rounds(ToWorking(hash), block, 64));
    seq(8, i requires 0 <= i < 8 => Add(hash[i], v[i]))
  }

  /** The hash after the first `n` blocks. */
  function Hashed(message: seq<Byte>, n: nat): (s: seq<Word>)
    requires 64 * n <= |message|
    ensures |s| == 8
  {
    if n == 0 then INITIAL else Compressed(Hashed(message, n - 1), message[64 * (n - 1)..64 * n])
  }

  function Digest(bytes: seq<Byte>): (s: seq<Word>)
    ensures |s| == 8
  {
    Hashed(Padded(bytes), |Padded(bytes)| / 64)
  }

  // ---------------------------------------------------------------------- computation

  /** The schedule array, filled in place. */
  method FillSchedule(block: seq<Byte>) returns (schedule: array<Word>)
    requires |block| == 64
    ensures fresh(schedule) && schedule.Length == 64 && forall t | 0 <= t < 64 :: schedule[t] == W(block, t)
  {
    hide Add, SmallSigma0, SmallSigma1, WordOf;
    schedule := new Word[64];
    for index := 0 to 16
      invariant forall t | 0 <= t < index :: schedule[t] == W(block, t)
    {
      schedule[index] := WordOf(block[4 * index..4 * index + 4]);
    }
    for index := 16 to 64
      invariant forall t | 0 <= t < index :: schedule[t] == W(block, t)
    {
      var s0 := SmallSigma0(schedule[index - 15]);
      var s1 := SmallSigma1(schedule[index - 2]);
      AddReorders(s1, schedule[index - 7], s0, schedule[index - 16]);
      schedule[index] := Add(Add(Add(schedule[index - 16], s0), schedule[index - 7]), s1);
    }
  }

  /** The compression loop: eight variables rotated sixty-four times. */
  method Compress(hash: array<Word>, block: seq<Byte>)
    requires hash.Length == 8 && |block| == 64
    modifies hash
    ensures hash[..] == Compressed(old(hash[..]), block)
  {
    hide Add, BigSigma0, BigSigma1, Ch, Maj, W;
    var schedule := FillSchedule(block);
    var a, b, c, d := hash[0], hash[1], hash[2], hash[3];
    var e, f, g, h := hash[4], hash[5], hash[6], hash[7];
    ghost var start := ToWorking(hash[..]);
    for index := 0 to 64
      invariant Working(a, b, c, d, e, f, g, h) == Rounds(start, block, index)
    {
      var s1 := BigSigma1(e);
      var choice := Ch(e, f, g);
      var temp1 := Add(Add(Add(Add(h, s1), choice), K(index)), schedule[index]);
      var s0 := BigSigma0(a);
      var majority := Maj(a, b, c);
      var temp2 := Add(s0, majority);
      h := g;
      g := f;
      f := e;
      e := Add(d, temp1);
      d := c;
      c := b;
      b := a;
      a := Add(temp1, temp2);
    }
    hide Rounds;
    var values := [a, b, c, d, e, f, g, h];
    for i := 0 to 8
      invariant forall j | 0 <= j < 8 :: hash[j] == if j < i then Add(old(hash[j]), values[j]) else old(hash[j])
    {
      hash[i] := Add(hash[i], values[i]);
    }
  }

  method Hash(bytes: seq<Byte>) returns (digest: seq<Word>)
    ensures digest == Digest(bytes)
  {
    hide Compressed, Padded;
    var message := Pad(bytes);
    var hash := new Word[8](i requires 0 <= i < 8 => INITIAL[i]);
    assert hash[..] == INITIAL;
    for n := 0 to |message| / 64
      invariant hash[..] == Hashed(message, n)
    {
      Compress(hash, message[64 * n..64 * (n + 1)]);
    }
    digest := hash[..];
  }

  // --------------------------------------------------------------------------- output

  /** The last `width` hexadecimal digits of a number. */
  function Hex(n: nat, width: nat): (s: string)
    ensures |s| == width
  {
    if width == 0 then "" else Hex(n / 16, width - 1) + [DigitChar(n % 16)]
  }

  function Power16(width: nat): nat
  {
    if width == 0 then 1 else 16 * Power16(width - 1)
  }

  /** A hexadecimal numeral read as a number. */
  function ReadHex(s: string): nat
  {
    if s == "" then 0 else 16 * ReadHex(s[..|s| - 1]) + DigitValue(s[|s| - 1])
  }

  lemma {:induction false} HexReads(n: nat, width: nat)
    requires n < Power16(width)
    ensures ReadHex(Hex(n, width)) == n
  {
    if width > 0 {
      HexReads(n / 16, width - 1);
      assert Hex(n, width)[..width - 1] == Hex(n / 16, width - 1);
    }
  }

  /** Eight digits for each word. */
  function HexWords(words: seq<Word>): (s: string)
    ensures |s| == 8 * |words|
  {
    if words == [] then "" else HexWords(words[..|words| - 1]) + Hex(words[|words| - 1], 8)
  }

  /** The words of the hash can be read off the printed digest, eight digits each. */
  lemma {:induction false} HexWordsRead(words: seq<Word>, i: nat)
    requires i < |words|
    ensures ReadHex(HexWords(words)[8 * i..8 * (i + 1)]) == words[i]
  {
    hide Hex, ReadHex;
    var n := |words| - 1;
    var before := HexWords(words[..n]);
    if i == n {
      EightDigits();
      HexReads(words[n], 8);
      assert HexWords(words)[8 * n..8 * (n + 1)] == Hex(words[n], 8);
    } else {
      HexWordsRead(words[..n], i);
      assert HexWords(words)[8 * i..8 * (i + 1)] == before[8 * i..8 * (i + 1)];
    }
  }

  lemma EightDigits()
    ensures Power16(8) == 0x1_0000_0000
  {
    assert Power16(4) == 0x1_0000;
    assert Power16(8) == 16 * (16 * (16 * (16 * Power16(4))));
  }

  /** `sha256_hex` */
  method Sha256Hex(bytes: seq<Byte>) returns (output: string)
    ensures output == HexWords(Digest(bytes)) && |output| == 64
    ensures forall i | 0 <= i < 8 :: ReadHex(output[8 * i..8 * (i + 1)]) == Digest(bytes)[i]
  {
    hide Digest, Hex;
    var hash := Hash(bytes);
    output := "";
    for i := 0 to 8
      invariant output == HexWords(hash[..i])
    {
      assert hash[..i + 1][..i] == hash[..i];
      output := output + Hex(hash[i], 8);
    }
    assert hash[..8] == hash;
    forall i | 0 <= i < 8
      ensures ReadHex(output[8 * i..8 * (i + 1)]) == hash[i]
    {
      HexWordsRead(hash, i);
    }
  }
}
