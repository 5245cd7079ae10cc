/** Conversion of an integer to binary32 under round-to-nearest, ties to even
    (IEEE 754-2019, section 4.3.1), and the chunk counts the shared-memory
    buffer derives from a message size on each side. */
module Binary32 {
  import opened Arith

  const SIGNIFICANDS := 0x100_0000  // 2^24: a binary32 significand has 24 bits
  const CHUNK := 0x40_0000          // 2^22: bytes that fit in the shared slot

  function Pow2(k: nat): (p: nat)
    ensures p > 0
  {
    if k == 0 then 1 else 2 * Pow2(k - 1)
  }

  /** Log2 of the gap between neighbouring binary32 values at n. */
  function UlpExp(n: nat): nat
  {
    if n < SIGNIFICANDS then 0 else 1 + UlpExp(n / 2)
  }

  function Ulp(n: nat): (u: nat)
    ensures u > 0
  {
    Pow2(UlpExp(n))
  }

  /** (float)n */
  function Round(n: nat): nat
  {
    var u := Ulp(n);
    var q, r := n / u, n % u;
    if 2 * r < u || (2 * r == u && q % 2 == 0) then q * u else (q + 1) * u
  }

  /** The non-negative integers that binary32 represents exactly. */
  ghost predicate Representable(y: nat) {
    exists m: nat, k: nat :: IsFloat(y, m, k)
  }

  ghost predicate IsFloat(y: nat, m: nat, k: nat) {
    m < SIGNIFICANDS && y == m * Pow2(k)
  }

  lemma {:induction false} UlpBounds(n: nat)
    ensures n < SIGNIFICANDS * Ulp(n)
    ensures Ulp(n) > 1 ==> SIGNIFICANDS / 2 * Ulp(n) <= n
  {
    if n >= SIGNIFICANDS {
      UlpBounds(n / 2);
      assert Ulp(n) == 2 * Ulp(n / 2);
      if n / 2 < SIGNIFICANDS {
        assert Ulp(n / 2) == 1;
      } else {
        assert UlpExp(n / 2) >= 1;
        assert Ulp(n / 2) > 1;
      }
    }
  }

  lemma {:induction false} Pow2Sum(a: nat, b: nat)
    ensures Pow2(a + b) == Pow2(a) * Pow2(b)
  {
    if a > 0 {
      Pow2Sum(a - 1, b);
      assert Pow2(a + b) == 2 * (Pow2(a - 1) * Pow2(b)) == Pow2(a) * Pow2(b);
    }
  }

  /** Round(n) is one of the two multiples of the gap around n, the nearer one, and the even one on a tie. */
  lemma RoundBetween(n: nat)
    ensures var u := Ulp(n); var q := n / u;
            && q * u <= n < (q + 1) * u
            && (Round(n) == q * u || Round(n) == (q + 1) * u)
            && (Round(n) == q * u ==> n - q * u <= (q + 1) * u - n)
            && (Round(n) == (q + 1) * u ==> (q + 1) * u - n <= n - q * u)
  {
    var u := Ulp(n);
    var q, r := n / u, n % u;
    assert n == q * u + r;
    assert (q + 1) * u == q * u + u;
  }

  lemma {:induction false} Pow2Monotone(a: nat, b: nat)
    requires a <= b
    ensures Pow2(a) <= Pow2(b)
  {
    if a < b { Pow2Monotone(a, b - 1); }
  }

  /** A value whose gap is finer than the gap at n lies below the multiples of that gap around n. */
  lemma BelowGap(y: nat, m: nat, k: nat, n: nat)
    requires IsFloat(y, m, k) && k < UlpExp(n)
    ensures y < n / Ulp(n) * Ulp(n)
  {
    var p, u := Pow2(k), Ulp(n);
    Pow2Monotone(k + 1, UlpExp(n));
    assert 2 * p <= u;
    MultipleOrder(m, SIGNIFICANDS - 1, p);
    UlpBounds(n);
    QuotientAtLeast(SIGNIFICANDS / 2, u, n);
    MultipleOrder(SIGNIFICANDS / 2, n / u, u);
  }

  /** A value whose gap is no finer than 2^e is a multiple of 2^e. */
  lemma CoarseIsMultiple(y: nat, m: nat, k: nat, e: nat) returns (t: nat)
    requires IsFloat(y, m, k) && k >= e
    ensures y == t * Pow2(e)
  {
    Pow2Sum(k - e, e);
    t := m * Pow2(k - e);
    Regroup(m, Pow2(k - e), Pow2(e));
  }

  lemma MultipleNotBetween(q: nat, t: nat, u: nat)
    ensures t * u <= q * u || (q + 1) * u <= t * u
  {
    if t <= q { MultipleOrder(t, q, u); } else { MultipleOrder(q + 1, t, u); }
  }

  /** A representable integer is never strictly between two neighbouring multiples of the gap at n. */
  lemma NoneBetween(n: nat, y: nat)
    requires Representable(y)
    ensures var u := Ulp(n); var q := n / u; y <= q * u || (q + 1) * u <= y
  {
    var m: nat, k: nat :| IsFloat(y, m, k);
    var u, e := Ulp(n), UlpExp(n);
    if k >= e {
      var t := CoarseIsMultiple(y, m, k, e);
      MultipleNotBetween(n / u, t, u);
    } else {
      BelowGap(y, m, k, n);
    }
  }

  lemma Regroup(a: nat, b: nat, c: nat)
    ensures a * (b * c) == (a * b) * c
  {
  }

  /** Independent reading of the standard: Round(n) is representable and no representable integer is nearer to n. */
  lemma RoundIsNearest(n: nat, y: nat)
    requires Representable(y)
    ensures Representable(Round(n))
    ensures y <= n ==> Round(n) - n <= n - y && n - Round(n) <= n - y
    ensures y >= n ==> Round(n) - n <= y - n && n - Round(n) <= y - n
  {
    RoundRepresentable(n);
    RoundBetween(n);
    NoneBetween(n, y);
  }

  lemma RoundRepresentable(n: nat)
    ensures Representable(Round(n))
  {
    RoundBetween(n);
    UlpBounds(n);
    var u, e := Ulp(n), UlpExp(n);
    var q := n / u;
    if q >= SIGNIFICANDS { MultipleOrder(SIGNIFICANDS, q, u); }
    if Round(n) == q * u {
      assert IsFloat(Round(n), q, e);
    } else if q + 1 < SIGNIFICANDS {
      assert IsFloat(Round(n), q + 1, e);
    } else {
      Pow2Sum(24, e);
      assert Pow2(24) == SIGNIFICANDS by { assert Pow2(12) == 4096; Pow2Sum(12, 12); }
      assert Pow2(24 + e) == SIGNIFICANDS * u;
      assert IsFloat(Round(n), 1, 24 + e);
    }
  }

  lemma TieIsEven(n: nat)
    requires var u := Ulp(n); n - n / u * u == (n / u + 1) * u - n
    ensures Round(n) / Ulp(n) % 2 == 0
  {
    var u := Ulp(n);
    var q := n / u;
    assert n == q * u + n % u && (q + 1) * u == q * u + u;
    QuotientExact(q, u);
    QuotientExact(q + 1, u);
  }

  /** When another representable integer is equally near, Round(n) is the one with the even significand. */
  lemma TiesToEven(n: nat, y: nat)
    requires Representable(y) && y != Round(n)
    requires y <= n ==> n - y == Round(n) - n
    requires y >= n ==> y - n == n - Round(n)
    ensures Round(n) / Ulp(n) % 2 == 0
  {
    RoundBetween(n);
    NoneBetween(n, y);
    TieIsEven(n);
  }

  /** Iterations of the writer's loop, which counts by subtraction. */
  function WriterChunks(n: nat): nat
  {
    if n == 0 then 0 else 1 + WriterChunks(n - (if n < CHUNK then n else CHUNK))
  }

  /** ceil((float)n / 2^22): dividing a binary32 value by a power of two is exact here. */
  function ReaderChunks(n: nat): nat
  {
    (Round(n) + CHUNK - 1) / CHUNK
  }

  lemma {:induction false} WriterChunksIsCeiling(n: nat)
    ensures WriterChunks(n) == (n + CHUNK - 1) / CHUNK
  {
    if n > CHUNK { WriterChunksIsCeiling(n - CHUNK); }
  }

  /** Bytes the writer puts in its last chunk. */
  function LastChunk(n: nat): (r: nat)
    requires n > 0
    ensures 1 <= r <= CHUNK
    ensures n == CHUNK * (WriterChunks(n) - 1) + r
  {
    WriterChunksIsCeiling(n);
    n - CHUNK * (WriterChunks(n) - 1)
  }

  /** The last chunk is so short that converting the size to binary32 rounds it away. */
  predicate Swallowed(n: nat)
    requires n > 0
  {
    var u, r := Ulp(n), LastChunk(n);
    2 * r < u || (2 * r == u && (n - r) / u % 2 == 0)
  }

  lemma {:induction false} UlpExpBelow(n: nat, k: nat)
    requires n < SIGNIFICANDS * Pow2(k)
    ensures UlpExp(n) <= k
  {
    if n >= SIGNIFICANDS {
      if k == 0 { assert false; } else { UlpExpBelow(n / 2, k - 1); }
    }
  }

  /** The two counts agree exactly when the last chunk survives rounding; otherwise the reader is one chunk short. */
  lemma ChunkCountsAgree(n: nat)
    requires 1 <= n <= 0x4000_0000_0000  // 2^46
    ensures ReaderChunks(n) == WriterChunks(n) <==> !Swallowed(n)
    ensures Swallowed(n) ==> ReaderChunks(n) == WriterChunks(n) - 1
  {
    var u := Ulp(n);
    WriterChunksIsCeiling(n);
    ChunkIsPow2();
    if n == 0x4000_0000_0000 {
      TopOfRange();
    } else {
      UlpExpBelow(n, 22);
      var c := Pow2(22 - UlpExp(n));
      Pow2Sum(22 - UlpExp(n), UlpExp(n));
      RoundedChunks(n, u, c);
    }
  }

  lemma {:induction false} UlpExpIs(n: nat, k: nat)
    requires k > 0 && SIGNIFICANDS / 2 * Pow2(k) <= n < SIGNIFICANDS * Pow2(k)
    ensures UlpExp(n) == k
  {
    if k > 1 { UlpExpIs(n / 2, k - 1); }
  }

  lemma TopOfRange()
    ensures var n := 0x4000_0000_0000; !Swallowed(n) && ReaderChunks(n) == WriterChunks(n)
  {
    var n := 0x4000_0000_0000;
    WriterChunksIsCeiling(n);
    assert Pow2(23) == 0x80_0000 by { assert Pow2(11) == 2048; assert Pow2(12) == 4096; Pow2Sum(11, 12); }
    UlpExpIs(n, 23);
  }

  lemma RoundAt(n: nat, u: nat, q: nat, m: nat)
    requires u == Ulp(n) && m < u && n == q * u + m
    ensures Round(n) == q * u + if 2 * m < u || (2 * m == u && q % 2 == 0) then 0 else u
  {
    QuotientIs(n, q, m, u);
  }

  /** Where Round lands when whole chunks are a multiple of the gap: a gaps in whole chunks, then r more bytes. */
  lemma RoundWithinChunk(n: nat, u: nat, a: nat, c: nat, r: nat)
    requires u == Ulp(n) && n == a * u + r && 1 <= r <= c * u
    ensures r >= u ==> a * u < Round(n) <= a * u + c * u
    ensures r < u ==> Round(n) == a * u + if 2 * r < u || (2 * r == u && a % 2 == 0) then 0 else u
  {
    if r < u {
      RoundAt(n, u, a, r);
    } else {
      var d, m := r / u, r % u;
      LastGap(r, u, c, d, m);
      assert (a + d) * u == a * u + d * u;
      RoundAt(n, u, a + d, m);
    }
  }

  lemma LastGap(r: nat, u: nat, c: nat, d: nat, m: nat)
    requires u > 0 && u <= r <= c * u && d == r / u && m == r % u
    ensures r == d * u + m && m < u && d * u >= u
    ensures m > 0 ==> d * u + u <= c * u
  {
    QuotientAtLeast(1, u, r);
    MultipleOrder(1, d, u);
    assert (d + 1) * u == d * u + u;
    if m > 0 { MultipleOrder(if d >= c then c else d + 1, if d >= c then d else c, u); }
  }

  lemma ChunkIsPow2()
    ensures Pow2(22) == CHUNK
  {
    assert Pow2(11) == 2048;
    Pow2Sum(11, 11);
  }

  lemma RoundedChunks(n: nat, u: nat, c: nat)
    requires n > 0 && u == Ulp(n) && CHUNK == c * u
    ensures ReaderChunks(n) == WriterChunks(n) - if Swallowed(n) then 1 else 0
  {
    var k, r := WriterChunks(n) - 1, LastChunk(n);
    var a := c * k;
    RegroupChunks(c, k, u);
    QuotientExact(a, u);
    RoundWithinChunk(n, u, a, c, r);
    MultipleOrder(1, c, u);
  }

  lemma RegroupChunks(c: nat, k: nat, u: nat)
    ensures (c * u) * k == (c * k) * u
  {
  }

  /** Up to 2^24 bytes the counts always agree; one byte more and the reader is a chunk short. */
  lemma CountsUpTo2To24(n: nat)
    requires n > 0
    ensures n <= SIGNIFICANDS ==> !Swallowed(n) && ReaderChunks(n) == WriterChunks(n)
    ensures Swallowed(SIGNIFICANDS + 1)
    ensures ReaderChunks(SIGNIFICANDS + 1) == 4 && WriterChunks(SIGNIFICANDS + 1) == 5
  {
    if n <= SIGNIFICANDS {
      WriterChunksIsCeiling(n);
      ChunkCountsAgree(n);
    }
    WriterChunksIsCeiling(SIGNIFICANDS + 1);
    UlpExpIs(SIGNIFICANDS + 1, 1);
    ChunkCountsAgree(SIGNIFICANDS + 1);
  }
}
