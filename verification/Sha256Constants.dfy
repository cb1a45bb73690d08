/** Where the constants of SHA-256 come from: fractional parts of square and cube roots of the first primes. */
module Sha256Constants {
  import opened Bytes
  import opened Sha256Spec

  // Primes.

  predicate Product(a: nat, b: nat, n: nat)
  {
    a * b == n
  }

  /** No product of two numbers above 1. */
  ghost predicate Prime(p: nat)
  {
    p >= 2 && forall a: nat, b: nat :: a >= 2 && b >= 2 ==> !Product(a, b, p)
  }

  ghost predicate NextPrime(p: nat, q: nat)
  {
    p < q && Prime(q) && forall n: nat :: p < n < q ==> !Prime(n)
  }

  function Primes0(i: nat): nat
    requires i < 8
  {
    match i
    case 0 => 2 case 1 => 3 case 2 => 5 case 3 => 7 case 4 => 11 case 5 => 13 case 6 => 17
    case _ => 19
  }

  function Primes8(i: nat): nat
    requires i < 8
  {
    match i
    case 0 => 23 case 1 => 29 case 2 => 31 case 3 => 37 case 4 => 41 case 5 => 43 case 6 => 47
    case _ => 53
  }

  function Primes16(i: nat): nat
    requires i < 8
  {
    match i
    case 0 => 59 case 1 => 61 case 2 => 67 case 3 => 71 case 4 => 73 case 5 => 79 case 6 => 83
    case _ => 89
  }

  function Primes24(i: nat): nat
    requires i < 8
  {
    match i
    case 0 => 97 case 1 => 101 case 2 => 103 case 3 => 107 case 4 => 109 case 5 => 113 case 6 => 127
    case _ => 131
  }

  function Primes32(i: nat): nat
    requires i < 8
  {
    match i
    case 0 => 137 case 1 => 139 case 2 => 149 case 3 => 151 case 4 => 157 case 5 => 163
    case 6 => 167 case _ => 173
  }

  function Primes40(i: nat): nat
    requires i < 8
  {
    match i
    case 0 => 179 case 1 => 181 case 2 => 191 case 3 => 193 case 4 => 197 case 5 => 199
    case 6 => 211 case _ => 223
  }

  function Primes48(i: nat): nat
    requires i < 8
  {
    match i
    case 0 => 227 case 1 => 229 case 2 => 233 case 3 => 239 case 4 => 241 case 5 => 251
    case 6 => 257 case _ => 263
  }

  function Primes56(i: nat): nat
    requires i < 8
  {
    match i
    case 0 => 269 case 1 => 271 case 2 => 277 case 3 => 281 case 4 => 283 case 5 => 293
    case 6 => 307 case _ => 311
  }

  /** The primes in order, from the first one on. */
  function PrimeAt(t: nat): nat
    requires t < 64
  {
    if t < 32 then
      if t < 16 then if t < 8 then Primes0(t) else Primes8(t - 8)
      else if t < 24 then Primes16(t - 16) else Primes24(t - 24)
    else if t < 48 then if t < 40 then Primes32(t - 32) else Primes40(t - 40)
    else if t < 56 then Primes48(t - 48) else Primes56(t - 56)
  }

  predicate Passes(n: nat, p: nat)
    requires p > 0
  {
    n == p || n % p != 0
  }

  /** Below 361 it is enough to try the primes up to 17. */
  predicate Sieved(n: nat)
  {
    && n >= 2 && Passes(n, 2) && Passes(n, 3) && Passes(n, 5) && Passes(n, 7) && Passes(n, 11) && Passes(n, 13)
    && Passes(n, 17)
  }

  lemma Regrouped(p: nat, k: nat, b: nat)
    ensures (p * k) * b == p * (k * b)
  {
  }

  lemma SmallFactor(a: nat, b: nat, n: nat)
    requires 2 <= a < 19 && b >= 2 && Product(a, b, n)
    ensures !Sieved(n)
  {
    var p := if a % 2 == 0 then 2 else if a % 3 == 0 then 3 else a;
    assert p == 2 || p == 3 || p == 5 || p == 7 || p == 11 || p == 13 || p == 17;
    var k := a / p;
    assert a == p * k;
    Regrouped(p, k, b);
    var m := k * b;
    assert m >= 2 by {
      assert k * b >= b;
    }
    FailsAt(p, m, n);
  }

  lemma FailsAt(p: nat, m: nat, n: nat)
    requires p == 2 || p == 3 || p == 5 || p == 7 || p == 11 || p == 13 || p == 17
    requires m >= 2 && n == p * m
    ensures !Sieved(n)
  {
    Multiples(m);
    hide Passes;
    if p == 2 {
      Fails(2, m);
    } else if p == 3 {
      Fails(3, m);
    } else if p == 5 {
      Fails(5, m);
    } else if p == 7 {
      Fails(7, m);
    } else if p == 11 {
      Fails(11, m);
    } else if p == 13 {
      Fails(13, m);
    } else {
      Fails(17, m);
    }
  }

  lemma Multiples(m: nat)
    ensures 2 * m % 2 == 0 && 3 * m % 3 == 0 && 5 * m % 5 == 0 && 7 * m % 7 == 0
    ensures 11 * m % 11 == 0 && 13 * m % 13 == 0 && 17 * m % 17 == 0
  {
  }

  lemma Fails(p: nat, m: nat)
    requires p >= 2 && m >= 2 && p * m % p == 0
    ensures !Passes(p * m, p)
  {
    assert p * m >= p * 2;
  }

  lemma LargeFactors(a: nat, b: nat)
    requires a >= 19 && b >= 19
    ensures a * b >= 361
  {
    assert a * b >= 19 * b;
  }

  lemma SievedIsPrime(n: nat)
    requires 2 <= n < 361 && Sieved(n)
    ensures Prime(n)
  {
    hide Sieved;
    forall a: nat, b: nat | a >= 2 && b >= 2
      ensures !Product(a, b, n)
    {
      if Product(a, b, n) {
        if a < 19 {
          SmallFactor(a, b, n);
        } else if b < 19 {
          assert Product(b, a, n);
          SmallFactor(b, a, n);
        } else {
          LargeFactors(a, b);
        }
      }
    }
  }

  lemma NotPrime(d: nat, n: nat)
    requires d >= 2 && n >= 2 && !Passes(n, d)
    ensures !Prime(n)
  {
    var q := n / d;
    assert n == d * q;
    assert q == 1 ==> d * q == d;
    assert q >= 2;
    assert Product(d, q, n);
  }

  lemma SieveDecides(n: nat)
    requires n < 361
    ensures Prime(n) <==> Sieved(n)
  {
    if Sieved(n) {
      SievedIsPrime(n);
    } else if n >= 2 {
      hide Prime;
      var p := if !Passes(n, 2) then 2 else if !Passes(n, 3) then 3 else if !Passes(n, 5) then 5
               else if !Passes(n, 7) then 7 else if !Passes(n, 11) then 11 else if !Passes(n, 13) then 13 else 17;
      NotPrime(p, n);
    }
  }

  /** By trying, no number between is prime. */
  predicate NoneBetween(p: nat, q: nat)
    decreases q - p
  {
    p + 1 >= q || (!Sieved(p + 1) && NoneBetween(p + 1, q))
  }

  lemma {:induction false} NoneIs(p: nat, q: nat, n: nat)
    requires NoneBetween(p, q) && p < n < q
    ensures !Sieved(n)
    decreases q - p
  {
    hide Sieved;
    if n != p + 1 {
      NoneIs(p + 1, q, n);
    }
  }

  predicate Next(t: nat)
    requires t < 63
  {
    PrimeAt(t) < PrimeAt(t + 1) < 361 && Sieved(PrimeAt(t + 1)) && NoneBetween(PrimeAt(t), PrimeAt(t + 1))
  }

  lemma Tried(t: nat, p: nat, q: nat)
    requires t < 63 && PrimeAt(t) == p && PrimeAt(t + 1) == q
    requires p < q < 361 && Sieved(q) && NoneBetween(p, q)
    ensures Next(t)
  {
  }

  lemma Tried0()
    ensures forall t :: 0 <= t < 4 ==> Next(t)
  {
    hide Next;
    Tried(0, 2, 3);
    Tried(1, 3, 5);
    Tried(2, 5, 7);
    Tried(3, 7, 11);
  }

  lemma Tried4()
    ensures forall t :: 4 <= t < 8 ==> Next(t)
  {
    hide Next;
    Tried(4, 11, 13);
    Tried(5, 13, 17);
    Tried(6, 17, 19);
    Tried(7, 19, 23);
  }

  lemma Tried8()
    ensures forall t :: 8 <= t < 12 ==> Next(t)
  {
    hide Next;
    Tried(8, 23, 29);
    Tried(9, 29, 31);
    Tried(10, 31, 37);
    Tried(11, 37, 41);
  }

  lemma Tried12()
    ensures forall t :: 12 <= t < 16 ==> Next(t)
  {
    hide Next;
    Tried(12, 41, 43);
    Tried(13, 43, 47);
    Tried(14, 47, 53);
    Tried(15, 53, 59);
  }

  lemma Tried16()
    ensures forall t :: 16 <= t < 20 ==> Next(t)
  {
    hide Next;
    Tried(16, 59, 61);
    Tried(17, 61, 67);
    Tried(18, 67, 71);
    Tried(19, 71, 73);
  }

  lemma Tried20()
    ensures forall t :: 20 <= t < 24 ==> Next(t)
  {
    hide Next;
    Tried(20, 73, 79);
    Tried(21, 79, 83);
    Tried(22, 83, 89);
    Tried(23, 89, 97);
  }

  lemma Tried24()
    ensures forall t :: 24 <= t < 28 ==> Next(t)
  {
    hide Next;
    Tried(24, 97, 101);
    Tried(25, 101, 103);
    Tried(26, 103, 107);
    Tried(27, 107, 109);
  }

  lemma Tried28()
    ensures forall t :: 28 <= t < 32 ==> Next(t)
  {
    hide Next;
    Tried(28, 109, 113);
    Tried(29, 113, 127);
    Tried(30, 127, 131);
    Tried(31, 131, 137);
  }

  lemma Tried32()
    ensures forall t :: 32 <= t < 36 ==> Next(t)
  {
    hide Next;
    Tried(32, 137, 139);
    Tried(33, 139, 149);
    Tried(34, 149, 151);
    Tried(35, 151, 157);
  }

  lemma Tried36()
    ensures forall t :: 36 <= t < 40 ==> Next(t)
  {
    hide Next;
    Tried(36, 157, 163);
    Tried(37, 163, 167);
    Tried(38, 167, 173);
    Tried(39, 173, 179);
  }

  lemma Tried40()
    ensures forall t :: 40 <= t < 44 ==> Next(t)
  {
    hide Next;
    Tried(40, 179, 181);
    Tried(41, 181, 191);
    Tried(42, 191, 193);
    Tried(43, 193, 197);
  }

  lemma Tried44()
    ensures forall t :: 44 <= t < 48 ==> Next(t)
  {
    hide Next;
    Tried(44, 197, 199);
    Tried(45, 199, 211);
    Tried(46, 211, 223);
    Tried(47, 223, 227);
  }

  lemma Tried48()
    ensures forall t :: 48 <= t < 52 ==> Next(t)
  {
    hide Next;
    Tried(48, 227, 229);
    Tried(49, 229, 233);
    Tried(50, 233, 239);
    Tried(51, 239, 241);
  }

  lemma Tried52()
    ensures forall t :: 52 <= t < 56 ==> Next(t)
  {
    hide Next;
    Tried(52, 241, 251);
    Tried(53, 251, 257);
    Tried(54, 257, 263);
    Tried(55, 263, 269);
  }

  lemma Tried56()
    ensures forall t :: 56 <= t < 60 ==> Next(t)
  {
    hide Next;
    Tried(56, 269, 271);
    Tried(57, 271, 277);
    Tried(58, 277, 281);
    Tried(59, 281, 283);
  }

  lemma Tried60()
    ensures forall t :: 60 <= t < 63 ==> Next(t)
  {
    hide Next;
    Tried(60, 283, 293);
    Tried(61, 293, 307);
    Tried(62, 307, 311);
  }

  lemma AllTried()
    ensures forall t :: 0 <= t < 63 ==> Next(t)
  {
    hide *;
    Tried0();
    Tried4();
    Tried8();
    Tried12();
    Tried16();
    Tried20();
    Tried24();
    Tried28();
    Tried32();
    Tried36();
    Tried40();
    Tried44();
    Tried48();
    Tried52();
    Tried56();
    Tried60();
  }

  lemma FirstPrimes()
    ensures PrimeAt(0) == 2 && Prime(2) && forall t :: 0 <= t < 63 ==> NextPrime(PrimeAt(t), PrimeAt(t + 1))
  {
    SieveDecides(2);
    forall t | 0 <= t < 63
      ensures NextPrime(PrimeAt(t), PrimeAt(t + 1))
    {
      TriedIsNext(t);
    }
  }

  lemma TriedIsNext(t: nat)
    requires t < 63
    ensures NextPrime(PrimeAt(t), PrimeAt(t + 1))
  {
    AllTried();
    assert Next(t);
    hide Sieved, Prime, PrimeAt;
    var p, q := PrimeAt(t), PrimeAt(t + 1);
    SieveDecides(q);
    forall n: nat | p < n < q
      ensures !Prime(n)
    {
      NoneIs(p, q, n);
      SieveDecides(n);
    }
  }

  // Roots.

  /** `r` is the cube root of `p` times 2^32, without what comes after the point. */
  predicate CubeRoot(p: nat, r: nat)
  {
    r * r * r <= p * 0x1_0000_0000_0000_0000_0000_0000 < (r + 1) * (r + 1) * (r + 1)
  }

  predicate SquareRoot(p: nat, r: nat)
  {
    r * r <= p * 0x1_0000_0000_0000_0000 < (r + 1) * (r + 1)
  }

  /** The first 32 bits after the point of the cube root of a prime. */
  ghost predicate FromCubeRoot(p: nat, k: word)
  {
    exists r: nat :: CubeRoot(p, r) && r % 0x1_0000_0000 == k as int
  }

  ghost predicate FromSquareRoot(p: nat, k: word)
  {
    exists r: nat :: SquareRoot(p, r) && r % 0x1_0000_0000 == k as int
  }

  lemma Cubic(t: nat, p: nat, k: word, r: nat)
    requires t < 64 && PrimeAt(t) == p && RoundConstant(t) == k && CubeRoot(p, r) && r % 0x1_0000_0000 == k as int
    ensures FromCubeRoot(PrimeAt(t), RoundConstant(t))
  {
    hide CubeRoot;
  }

  lemma Square(p: nat, k: word, r: nat)
    requires SquareRoot(p, r) && r % 0x1_0000_0000 == k as int
    ensures FromSquareRoot(p, k)
  {
    hide SquareRoot;
  }

  lemma Cubic0()
    ensures forall t :: 0 <= t < 8 ==> FromCubeRoot(PrimeAt(t), RoundConstant(t))
  {
    hide FromCubeRoot;
    Cubic(0, 2, 0x428a2f98, 0x1_428a2f98); Cubic(1, 3, 0x71374491, 0x1_71374491);
    Cubic(2, 5, 0xb5c0fbcf, 0x1_b5c0fbcf); Cubic(3, 7, 0xe9b5dba5, 0x1_e9b5dba5);
    Cubic(4, 11, 0x3956c25b, 0x2_3956c25b); Cubic(5, 13, 0x59f111f1, 0x2_59f111f1);
    Cubic(6, 17, 0x923f82a4, 0x2_923f82a4); Cubic(7, 19, 0xab1c5ed5, 0x2_ab1c5ed5);
  }

  lemma Cubic8()
    ensures forall t :: 8 <= t < 16 ==> FromCubeRoot(PrimeAt(t), RoundConstant(t))
  {
    hide FromCubeRoot;
    Cubic(8, 23, 0xd807aa98, 0x2_d807aa98); Cubic(9, 29, 0x12835b01, 0x3_12835b01);
    Cubic(10, 31, 0x243185be, 0x3_243185be); Cubic(11, 37, 0x550c7dc3, 0x3_550c7dc3);
    Cubic(12, 41, 0x72be5d74, 0x3_72be5d74); Cubic(13, 43, 0x80deb1fe, 0x3_80deb1fe);
    Cubic(14, 47, 0x9bdc06a7, 0x3_9bdc06a7); Cubic(15, 53, 0xc19bf174, 0x3_c19bf174);
  }

  lemma Cubic16()
    ensures forall t :: 16 <= t < 24 ==> FromCubeRoot(PrimeAt(t), RoundConstant(t))
  {
    hide FromCubeRoot;
    Cubic(16, 59, 0xe49b69c1, 0x3_e49b69c1); Cubic(17, 61, 0xefbe4786, 0x3_efbe4786);
    Cubic(18, 67, 0x0fc19dc6, 0x4_0fc19dc6); Cubic(19, 71, 0x240ca1cc, 0x4_240ca1cc);
    Cubic(20, 73, 0x2de92c6f, 0x4_2de92c6f); Cubic(21, 79, 0x4a7484aa, 0x4_4a7484aa);
    Cubic(22, 83, 0x5cb0a9dc, 0x4_5cb0a9dc); Cubic(23, 89, 0x76f988da, 0x4_76f988da);
  }

  lemma Cubic24()
    ensures forall t :: 24 <= t < 32 ==> FromCubeRoot(PrimeAt(t), RoundConstant(t))
  {
    hide FromCubeRoot;
    Cubic(24, 97, 0x983e5152, 0x4_983e5152); Cubic(25, 101, 0xa831c66d, 0x4_a831c66d);
    Cubic(26, 103, 0xb00327c8, 0x4_b00327c8); Cubic(27, 107, 0xbf597fc7, 0x4_bf597fc7);
    Cubic(28, 109, 0xc6e00bf3, 0x4_c6e00bf3); Cubic(29, 113, 0xd5a79147, 0x4_d5a79147);
    Cubic(30, 127, 0x06ca6351, 0x5_06ca6351); Cubic(31, 131, 0x14292967, 0x5_14292967);
  }

  lemma Cubic32()
    ensures forall t :: 32 <= t < 40 ==> FromCubeRoot(PrimeAt(t), RoundConstant(t))
  {
    hide FromCubeRoot;
    Cubic(32, 137, 0x27b70a85, 0x5_27b70a85); Cubic(33, 139, 0x2e1b2138, 0x5_2e1b2138);
    Cubic(34, 149, 0x4d2c6dfc, 0x5_4d2c6dfc); Cubic(35, 151, 0x53380d13, 0x5_53380d13);
    Cubic(36, 157, 0x650a7354, 0x5_650a7354); Cubic(37, 163, 0x766a0abb, 0x5_766a0abb);
    Cubic(38, 167, 0x81c2c92e, 0x5_81c2c92e); Cubic(39, 173, 0x92722c85, 0x5_92722c85);
  }

  lemma Cubic40()
    ensures forall t :: 40 <= t < 48 ==> FromCubeRoot(PrimeAt(t), RoundConstant(t))
  {
    hide FromCubeRoot;
    Cubic(40, 179, 0xa2bfe8a1, 0x5_a2bfe8a1); Cubic(41, 181, 0xa81a664b, 0x5_a81a664b);
    Cubic(42, 191, 0xc24b8b70, 0x5_c24b8b70); Cubic(43, 193, 0xc76c51a3, 0x5_c76c51a3);
    Cubic(44, 197, 0xd192e819, 0x5_d192e819); Cubic(45, 199, 0xd6990624, 0x5_d6990624);
    Cubic(46, 211, 0xf40e3585, 0x5_f40e3585); Cubic(47, 223, 0x106aa070, 0x6_106aa070);
  }

  lemma Cubic48()
    ensures forall t :: 48 <= t < 56 ==> FromCubeRoot(PrimeAt(t), RoundConstant(t))
  {
    hide FromCubeRoot;
    Cubic(48, 227, 0x19a4c116, 0x6_19a4c116); Cubic(49, 229, 0x1e376c08, 0x6_1e376c08);
    Cubic(50, 233, 0x2748774c, 0x6_2748774c); Cubic(51, 239, 0x34b0bcb5, 0x6_34b0bcb5);
    Cubic(52, 241, 0x391c0cb3, 0x6_391c0cb3); Cubic(53, 251, 0x4ed8aa4a, 0x6_4ed8aa4a);
    Cubic(54, 257, 0x5b9cca4f, 0x6_5b9cca4f); Cubic(55, 263, 0x682e6ff3, 0x6_682e6ff3);
  }

  lemma Cubic56()
    ensures forall t :: 56 <= t < 64 ==> FromCubeRoot(PrimeAt(t), RoundConstant(t))
  {
    hide FromCubeRoot;
    Cubic(56, 269, 0x748f82ee, 0x6_748f82ee); Cubic(57, 271, 0x78a5636f, 0x6_78a5636f);
    Cubic(58, 277, 0x84c87814, 0x6_84c87814); Cubic(59, 281, 0x8cc70208, 0x6_8cc70208);
    Cubic(60, 283, 0x90befffa, 0x6_90befffa); Cubic(61, 293, 0xa4506ceb, 0x6_a4506ceb);
    Cubic(62, 307, 0xbef9a3f7, 0x6_bef9a3f7); Cubic(63, 311, 0xc67178f2, 0x6_c67178f2);
  }

  /** Section 4.2.2 of FIPS 180-4: the round constants are those of the first sixty-four primes. */
  lemma ConstantsAreRoots()
    ensures forall t :: 0 <= t < 64 ==> FromCubeRoot(PrimeAt(t), RoundConstant(t))
  {
    hide FromCubeRoot, PrimeAt, RoundConstant;
    Cubic0();
    Cubic8();
    Cubic16();
    Cubic24();
    Cubic32();
    Cubic40();
    Cubic48();
    Cubic56();
  }

  /** Section 5.3.3: the initial hash value comes from the first eight. */
  lemma InitialHashIsRoots()
    ensures var v := InitialHash();
            && FromSquareRoot(PrimeAt(0), v.a) && FromSquareRoot(PrimeAt(1), v.b) && FromSquareRoot(PrimeAt(2), v.c)
            && FromSquareRoot(PrimeAt(3), v.d) && FromSquareRoot(PrimeAt(4), v.e) && FromSquareRoot(PrimeAt(5), v.f)
            && FromSquareRoot(PrimeAt(6), v.g) && FromSquareRoot(PrimeAt(7), v.h)
  {
    hide FromSquareRoot;
    Square(2, 0x6a09e667, 0x1_6a09e667);
    Square(3, 0xbb67ae85, 0x1_bb67ae85);
    Square(5, 0x3c6ef372, 0x2_3c6ef372);
    Square(7, 0xa54ff53a, 0x2_a54ff53a);
    Square(11, 0x510e527f, 0x3_510e527f);
    Square(13, 0x9b05688c, 0x3_9b05688c);
    Square(17, 0x1f83d9ab, 0x4_1f83d9ab);
    Square(19, 0x5be0cd19, 0x4_5be0cd19);
  }

  lemma CubeGrows(r: nat, s: nat)
    requires r < s
    ensures (r + 1) * (r + 1) <= s * s && (r + 1) * (r + 1) * (r + 1) <= s * s * s
  {
    var n := r + 1;
    Larger(n, s, n);
    Larger(n, s, s);
    var a, b := n * n, s * s;
    Larger(a, b, n);
    Larger(n, s, b);
  }

  lemma Larger(x: nat, y: nat, z: nat)
    requires x <= y
    ensures x * z <= y * z
  {
  }

  /** So a number and its root determine the constant. */
  lemma OneConstant(p: nat, k: word, l: word)
    ensures FromCubeRoot(p, k) && FromCubeRoot(p, l) ==> k == l
    ensures FromSquareRoot(p, k) && FromSquareRoot(p, l) ==> k == l
  {
    hide CubeRoot, SquareRoot;
    assert k as int == l as int ==> k == l by {
      assert (k as int) as word == k && (l as int) as word == l;
    }
    if FromCubeRoot(p, k) && FromCubeRoot(p, l) {
      var r: nat :| CubeRoot(p, r) && r % 0x1_0000_0000 == k as int;
      var s: nat :| CubeRoot(p, s) && s % 0x1_0000_0000 == l as int;
      OneRoot(p, r, s);
    }
    if FromSquareRoot(p, k) && FromSquareRoot(p, l) {
      var r: nat :| SquareRoot(p, r) && r % 0x1_0000_0000 == k as int;
      var s: nat :| SquareRoot(p, s) && s % 0x1_0000_0000 == l as int;
      OneRoot(p, r, s);
    }
  }

  lemma OneRoot(p: nat, r: nat, s: nat)
    ensures CubeRoot(p, r) && CubeRoot(p, s) ==> r == s
    ensures SquareRoot(p, r) && SquareRoot(p, s) ==> r == s
  {
    if r < s {
      CubeGrows(r, s);
    } else if s < r {
      CubeGrows(s, r);
    }
  }
}
