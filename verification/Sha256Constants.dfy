/** Where the constants of SHA-256 come from (FIPS 180-4, sections 4.2.2 and 5.3.3):
    the fractional parts of the cube roots of the first 64 primes, and of the square
    roots of the first eight. */
module Sha256Constants {
  import opened Sha256

  const PRIMES: seq<nat> :=
    [2, 3, 5, 7, 11, 13, 17, 19, 23, 29, 31, 37, 41, 43, 47, 53] +
    [59, 61, 67, 71, 73, 79, 83, 89, 97, 101, 103, 107, 109, 113, 127, 131] +
    [137, 139, 149, 151, 157, 163, 167, 173, 179, 181, 191, 193, 197, 199, 211, 223] +
    [227, 229, 233, 239, 241, 251, 257, 263, 269, 271, 277, 281, 283, 293, 307, 311]

  ghost predicate Prime(n: nat) {
    n >= 2 && forall a: nat, b: nat :: 2 <= a && 2 <= b ==> a * b != n
  }

  /** No prime up to 17 divides `n`, unless it is `n`. */
  predicate Undivided(n: nat) {
    && (n % 2 != 0 || n == 2) && (n % 3 != 0 || n == 3) && (n % 5 != 0 || n == 5) && (n % 7 != 0 || n == 7)
    && (n % 11 != 0 || n == 11) && (n % 13 != 0 || n == 13) && (n % 17 != 0 || n == 17)
  }

  lemma Divided(n: nat, q: nat)
    requires q >= 2 && n >= 2 && n % q == 0 && n != q
    ensures !Prime(n)
  {
    assert n == q * (n / q);
    var b := n / q;
    assert b != 0 && b != 1;
  }

  lemma Multiple(q: nat, m: nat, b: nat)
    requires q >= 2 && m >= 2 && b >= 2 && m % q == 0
    ensures (m * b) % q == 0 && m * b != q
  {
    var e := m / q;
    assert m == q * e && e >= 1;
    assert m * b == q * (e * b);
    assert m * b >= m * 2;
    ModMul(q, e * b);
  }

  lemma ModMul(q: nat, k: nat)
    requires q >= 1
    ensures (q * k) % q == 0
  {
    assert q * k == (q * k) / q * q + (q * k) % q;
    var r := (q * k) % q;
    var d := k - (q * k) / q;
    assert r == q * d;
    assert d >= 1 ==> q * d >= q;
  }

  lemma SmallFactor(a: nat, b: nat)
    requires 2 <= a <= b && a * b < 324
    ensures a < 18
  {
    assert a >= 18 ==> a * b >= 18 * b;
  }

  lemma NotUndivided(m: nat, b: nat)
    requires 2 <= m < 18 && 2 <= b
    ensures !Undivided(m * b)
  {
    hide Undivided;
    var q := if m % 2 == 0 then 2 else if m % 3 == 0 then 3 else if m % 5 == 0 then 5 else m;
    assert m % q == 0;
    Multiple(q, m, b);
    DivisorFound(m * b, q);
  }

  lemma DivisorFound(n: nat, q: nat)
    requires q == 2 || q == 3 || q == 5 || q == 7 || q == 11 || q == 13 || q == 17
    requires n % q == 0 && n != q
    ensures !Undivided(n)
  {
  }

  /** Below 18 * 18 the primes are the numbers that no prime up to 17 divides. */
  lemma PrimeIff(n: nat)
    requires 2 <= n < 324
    ensures Prime(n) <==> Undivided(n)
  {
    if !Undivided(n) {
      var q := if n % 2 == 0 && n != 2 then 2 else if n % 3 == 0 && n != 3 then 3 else if n % 5 == 0 && n != 5 then 5
        else if n % 7 == 0 && n != 7 then 7 else if n % 11 == 0 && n != 11 then 11 else if n % 13 == 0 && n != 13 then 13 else 17;
      Divided(n, q);
    }
    if !Prime(n) {
      var a: nat, b: nat :| 2 <= a && 2 <= b && a * b == n;
      if a <= b { SmallFactor(a, b); NotUndivided(a, b); } else { SmallFactor(b, a); NotUndivided(b, a); }
    }
  }

  /** From `a` up to `b` the entries are undivided. */
  ghost predicate Entries(a: nat, b: nat)
    requires b <= |PRIMES|
  {
    forall t :: a <= t < b ==> 2 <= PRIMES[t] <= 311 && Undivided(PRIMES[t])
  }

  lemma Listed0(n: nat)
    requires 2 <= n < 20 && Undivided(n)
    ensures n in PRIMES
  {
    assert PRIMES[0] == 2 && PRIMES[1] == 3 && PRIMES[2] == 5 && PRIMES[3] == 7 && PRIMES[4] == 11 && PRIMES[5] == 13 && PRIMES[6] == 17 && PRIMES[7] == 19;
  }

  lemma Listed1(n: nat)
    requires 20 <= n < 40 && Undivided(n)
    ensures n in PRIMES
  {
    assert PRIMES[8] == 23 && PRIMES[9] == 29 && PRIMES[10] == 31 && PRIMES[11] == 37;
  }

  lemma Listed2(n: nat)
    requires 40 <= n < 60 && Undivided(n)
    ensures n in PRIMES
  {
    assert PRIMES[12] == 41 && PRIMES[13] == 43 && PRIMES[14] == 47 && PRIMES[15] == 53 && PRIMES[16] == 59;
  }

  lemma Listed3(n: nat)
    requires 60 <= n < 80 && Undivided(n)
    ensures n in PRIMES
  {
    assert PRIMES[17] == 61 && PRIMES[18] == 67 && PRIMES[19] == 71 && PRIMES[20] == 73 && PRIMES[21] == 79;
  }

  lemma Listed4(n: nat)
    requires 80 <= n < 100 && Undivided(n)
    ensures n in PRIMES
  {
    assert PRIMES[22] == 83 && PRIMES[23] == 89 && PRIMES[24] == 97;
  }

  lemma Listed5(n: nat)
    requires 100 <= n < 120 && Undivided(n)
    ensures n in PRIMES
  {
    assert PRIMES[25] == 101 && PRIMES[26] == 103 && PRIMES[27] == 107 && PRIMES[28] == 109 && PRIMES[29] == 113;
  }

  lemma Listed6(n: nat)
    requires 120 <= n < 140 && Undivided(n)
    ensures n in PRIMES
  {
    assert PRIMES[30] == 127 && PRIMES[31] == 131 && PRIMES[32] == 137 && PRIMES[33] == 139;
  }

  lemma Listed7(n: nat)
    requires 140 <= n < 160 && Undivided(n)
    ensures n in PRIMES
  {
    assert PRIMES[34] == 149 && PRIMES[35] == 151 && PRIMES[36] == 157;
  }

  lemma Listed8(n: nat)
    requires 160 <= n < 180 && Undivided(n)
    ensures n in PRIMES
  {
    assert PRIMES[37] == 163 && PRIMES[38] == 167 && PRIMES[39] == 173 && PRIMES[40] == 179;
  }

  lemma Listed9(n: nat)
    requires 180 <= n < 200 && Undivided(n)
    ensures n in PRIMES
  {
    assert PRIMES[41] == 181 && PRIMES[42] == 191 && PRIMES[43] == 193 && PRIMES[44] == 197 && PRIMES[45] == 199;
  }

  lemma Listed10(n: nat)
    requires 200 <= n < 220 && Undivided(n)
    ensures n in PRIMES
  {
    assert PRIMES[46] == 211;
  }

  lemma Listed11(n: nat)
    requires 220 <= n < 240 && Undivided(n)
    ensures n in PRIMES
  {
    assert PRIMES[47] == 223 && PRIMES[48] == 227 && PRIMES[49] == 229 && PRIMES[50] == 233 && PRIMES[51] == 239;
  }

  lemma Listed12(n: nat)
    requires 240 <= n < 260 && Undivided(n)
    ensures n in PRIMES
  {
    assert PRIMES[52] == 241 && PRIMES[53] == 251 && PRIMES[54] == 257;
  }

  lemma Listed13(n: nat)
    requires 260 <= n < 280 && Undivided(n)
    ensures n in PRIMES
  {
    assert PRIMES[55] == 263 && PRIMES[56] == 269 && PRIMES[57] == 271 && PRIMES[58] == 277;
  }

  lemma Listed14(n: nat)
    requires 280 <= n < 300 && Undivided(n)
    ensures n in PRIMES
  {
    assert PRIMES[59] == 281 && PRIMES[60] == 283 && PRIMES[61] == 293;
  }

  lemma Listed15(n: nat)
    requires 300 <= n < 312 && Undivided(n)
    ensures n in PRIMES
  {
    assert PRIMES[62] == 307 && PRIMES[63] == 311;
  }

  lemma Entries0()
    ensures Entries(0, 16)
  {
  }

  lemma Entries1()
    ensures Entries(16, 32)
  {
  }

  lemma Entries2()
    ensures Entries(32, 48)
  {
  }

  lemma Entries3()
    ensures Entries(48, 64)
  {
  }

  lemma Listed(n: nat)
    requires 2 <= n < 312 && Undivided(n)
    ensures n in PRIMES
  {
    hide Undivided, PRIMES;
    if n < 20 { Listed0(n); }
    else if n < 40 { Listed1(n); }
    else if n < 60 { Listed2(n); }
    else if n < 80 { Listed3(n); }
    else if n < 100 { Listed4(n); }
    else if n < 120 { Listed5(n); }
    else if n < 140 { Listed6(n); }
    else if n < 160 { Listed7(n); }
    else if n < 180 { Listed8(n); }
    else if n < 200 { Listed9(n); }
    else if n < 220 { Listed10(n); }
    else if n < 240 { Listed11(n); }
    else if n < 260 { Listed12(n); }
    else if n < 280 { Listed13(n); }
    else if n < 300 { Listed14(n); }
    else { Listed15(n); }
  }

  /** The list holds the first 64 primes in order. */
  lemma FirstPrimes(n: nat)
    requires n <= 311
    ensures |PRIMES| == 64 && (Prime(n) <==> n in PRIMES)
    ensures forall t :: 0 <= t < 63 ==> PRIMES[t] < PRIMES[t + 1]
  {
    Length();
    hide Undivided, PRIMES;
    Entries0();
    Entries1();
    Entries2();
    Entries3();
    if n >= 2 {
      PrimeIff(n);
      if Undivided(n) { Listed(n); }
    }
  }

  lemma Length()
    ensures |PRIMES| == 64 && forall t :: 0 <= t < 63 ==> PRIMES[t] < PRIMES[t + 1]
  {
  }

  /** `c` is the cube root of `p`, times 2^32, rounded down. */
  predicate IsCubeRoot(c: nat, p: nat) {
    c * c * c <= p * 0x1_0000_0000_0000_0000_0000_0000 < (c + 1) * (c + 1) * (c + 1)
  }

  predicate IsSquareRoot(c: nat, p: nat) {
    c * c <= p * 0x1_0000_0000_0000_0000 < (c + 1) * (c + 1)
  }

  /** The first 32 bits of the fractional part of the cube root of `p`. */
  ghost predicate CubeRootBits(p: nat, x: Word) {
    exists c: nat :: IsCubeRoot(c, p) && x as nat == c % 0x1_0000_0000
  }

  ghost predicate SquareRootBits(p: nat, x: Word) {
    exists c: nat :: IsSquareRoot(c, p) && x as nat == c % 0x1_0000_0000
  }

  lemma CubeRoot(p: nat, x: Word, c: nat)
    requires x as nat == c % 0x1_0000_0000 && IsCubeRoot(c, p)
    ensures CubeRootBits(p, x)
  {
    hide IsCubeRoot;
  }

  lemma Cubes0()
    ensures forall t :: 0 <= t < 8 ==> CubeRootBits(PRIMES[t], K[t])
  {
    hide CubeRootBits;
    CubeRoot(2, 0x428a2f98, 0x1_428a2f98);
    CubeRoot(3, 0x71374491, 0x1_71374491);
    CubeRoot(5, 0xb5c0fbcf, 0x1_b5c0fbcf);
    CubeRoot(7, 0xe9b5dba5, 0x1_e9b5dba5);
    CubeRoot(11, 0x3956c25b, 0x2_3956c25b);
    CubeRoot(13, 0x59f111f1, 0x2_59f111f1);
    CubeRoot(17, 0x923f82a4, 0x2_923f82a4);
    CubeRoot(19, 0xab1c5ed5, 0x2_ab1c5ed5);
  }

  lemma Cubes1()
    ensures forall t :: 8 <= t < 16 ==> CubeRootBits(PRIMES[t], K[t])
  {
    hide CubeRootBits;
    CubeRoot(23, 0xd807aa98, 0x2_d807aa98);
    CubeRoot(29, 0x12835b01, 0x3_12835b01);
    CubeRoot(31, 0x243185be, 0x3_243185be);
    CubeRoot(37, 0x550c7dc3, 0x3_550c7dc3);
    CubeRoot(41, 0x72be5d74, 0x3_72be5d74);
    CubeRoot(43, 0x80deb1fe, 0x3_80deb1fe);
    CubeRoot(47, 0x9bdc06a7, 0x3_9bdc06a7);
    CubeRoot(53, 0xc19bf174, 0x3_c19bf174);
  }

  lemma Cubes2()
    ensures forall t :: 16 <= t < 24 ==> CubeRootBits(PRIMES[t], K[t])
  {
    hide CubeRootBits;
    CubeRoot(59, 0xe49b69c1, 0x3_e49b69c1);
    CubeRoot(61, 0xefbe4786, 0x3_efbe4786);
    CubeRoot(67, 0x0fc19dc6, 0x4_0fc19dc6);
    CubeRoot(71, 0x240ca1cc, 0x4_240ca1cc);
    CubeRoot(73, 0x2de92c6f, 0x4_2de92c6f);
    CubeRoot(79, 0x4a7484aa, 0x4_4a7484aa);
    CubeRoot(83, 0x5cb0a9dc, 0x4_5cb0a9dc);
    CubeRoot(89, 0x76f988da, 0x4_76f988da);
  }

  lemma Cubes3()
    ensures forall t :: 24 <= t < 32 ==> CubeRootBits(PRIMES[t], K[t])
  {
    hide CubeRootBits;
    CubeRoot(97, 0x983e5152, 0x4_983e5152);
    CubeRoot(101, 0xa831c66d, 0x4_a831c66d);
    CubeRoot(103, 0xb00327c8, 0x4_b00327c8);
    CubeRoot(107, 0xbf597fc7, 0x4_bf597fc7);
    CubeRoot(109, 0xc6e00bf3, 0x4_c6e00bf3);
    CubeRoot(113, 0xd5a79147, 0x4_d5a79147);
    CubeRoot(127, 0x06ca6351, 0x5_06ca6351);
    CubeRoot(131, 0x14292967, 0x5_14292967);
  }

  lemma Cubes4()
    ensures forall t :: 32 <= t < 40 ==> CubeRootBits(PRIMES[t], K[t])
  {
    hide CubeRootBits;
    CubeRoot(137, 0x27b70a85, 0x5_27b70a85);
    CubeRoot(139, 0x2e1b2138, 0x5_2e1b2138);
    CubeRoot(149, 0x4d2c6dfc, 0x5_4d2c6dfc);
    CubeRoot(151, 0x53380d13, 0x5_53380d13);
    CubeRoot(157, 0x650a7354, 0x5_650a7354);
    CubeRoot(163, 0x766a0abb, 0x5_766a0abb);
    CubeRoot(167, 0x81c2c92e, 0x5_81c2c92e);
    CubeRoot(173, 0x92722c85, 0x5_92722c85);
  }

  lemma Cubes5()
    ensures forall t :: 40 <= t < 48 ==> CubeRootBits(PRIMES[t], K[t])
  {
    hide CubeRootBits;
    CubeRoot(179, 0xa2bfe8a1, 0x5_a2bfe8a1);
    CubeRoot(181, 0xa81a664b, 0x5_a81a664b);
    CubeRoot(191, 0xc24b8b70, 0x5_c24b8b70);
    CubeRoot(193, 0xc76c51a3, 0x5_c76c51a3);
    CubeRoot(197, 0xd192e819, 0x5_d192e819);
    CubeRoot(199, 0xd6990624, 0x5_d6990624);
    CubeRoot(211, 0xf40e3585, 0x5_f40e3585);
    CubeRoot(223, 0x106aa070, 0x6_106aa070);
  }

  lemma Cubes6()
    ensures forall t :: 48 <= t < 56 ==> CubeRootBits(PRIMES[t], K[t])
  {
    hide CubeRootBits;
    CubeRoot(227, 0x19a4c116, 0x6_19a4c116);
    CubeRoot(229, 0x1e376c08, 0x6_1e376c08);
    CubeRoot(233, 0x2748774c, 0x6_2748774c);
    CubeRoot(239, 0x34b0bcb5, 0x6_34b0bcb5);
    CubeRoot(241, 0x391c0cb3, 0x6_391c0cb3);
    CubeRoot(251, 0x4ed8aa4a, 0x6_4ed8aa4a);
    CubeRoot(257, 0x5b9cca4f, 0x6_5b9cca4f);
    CubeRoot(263, 0x682e6ff3, 0x6_682e6ff3);
  }

  lemma Cubes7()
    ensures forall t :: 56 <= t < 64 ==> CubeRootBits(PRIMES[t], K[t])
  {
    hide CubeRootBits;
    CubeRoot(269, 0x748f82ee, 0x6_748f82ee);
    CubeRoot(271, 0x78a5636f, 0x6_78a5636f);
    CubeRoot(277, 0x84c87814, 0x6_84c87814);
    CubeRoot(281, 0x8cc70208, 0x6_8cc70208);
    CubeRoot(283, 0x90befffa, 0x6_90befffa);
    CubeRoot(293, 0xa4506ceb, 0x6_a4506ceb);
    CubeRoot(307, 0xbef9a3f7, 0x6_bef9a3f7);
    CubeRoot(311, 0xc67178f2, 0x6_c67178f2);
  }

  /** The table is the one of the standard: entry `t` belongs to the prime `t`. */
  lemma CubeRoots(t: nat)
    requires t < 64
    ensures |PRIMES| == 64 && CubeRootBits(PRIMES[t], K[t])
  {
    Length();
    hide CubeRootBits, PRIMES, K;
    if t < 8 { Cubes0(); } else if t < 16 { Cubes1(); } else if t < 24 { Cubes2(); } else if t < 32 { Cubes3(); }
    else if t < 40 { Cubes4(); } else if t < 48 { Cubes5(); } else if t < 56 { Cubes6(); } else { Cubes7(); }
  }

  lemma SquareRoot(p: nat, x: Word, c: nat)
    requires x as nat == c % 0x1_0000_0000 && IsSquareRoot(c, p)
    ensures SquareRootBits(p, x)
  {
    hide IsSquareRoot;
  }

  /** The first hash value is the one of the standard. */
  lemma SquareRoots(t: nat)
    requires t < 8
    ensures |PRIMES| == 64 && SquareRootBits(PRIMES[t], Words(H0)[t])
  {
    hide SquareRootBits;
    SquareRoot(2, 0x6a09e667, 0x1_6a09e667);
    SquareRoot(3, 0xbb67ae85, 0x1_bb67ae85);
    SquareRoot(5, 0x3c6ef372, 0x2_3c6ef372);
    SquareRoot(7, 0xa54ff53a, 0x2_a54ff53a);
    SquareRoot(11, 0x510e527f, 0x3_510e527f);
    SquareRoot(13, 0x9b05688c, 0x3_9b05688c);
    SquareRoot(17, 0x1f83d9ab, 0x4_1f83d9ab);
    SquareRoot(19, 0x5be0cd19, 0x4_5be0cd19);
  }
}
