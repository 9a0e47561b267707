/**
 The 64-bit object ids of the database: milliseconds, shard and a sequence number
 packed by shifts and ors into a signed word.
 */
module ObjectIds {

  const WORD: int := 0x1_0000_0000_0000_0000
  const HALF: int := 0x8000_0000_0000_0000

  // ---------- bigint arithmetic ----------

  /** The unsigned reading of a bigint. */
  function Pattern(n: int): nat { n % WORD }

  /** The bigint with a bit pattern. */
  function Signed(p: nat): int { if p % WORD < HALF then p % WORD else p % WORD - WORD }

  function Pow2(k: nat): nat { if k == 0 then 1 else 2 * Pow2(k - 1) }

  /** Bits shifted beyond the word are lost. */
  function ShiftLeft(n: int, k: nat): int { Signed(Pattern(n) * Pow2(k)) }

  function OrBits(a: nat, b: nat): nat {
    if a == 0 && b == 0 then 0
    else 2 * OrBits(a / 2, b / 2) + if a % 2 == 1 || b % 2 == 1 then 1 else 0
  }

  function Or(a: int, b: int): int { Signed(OrBits(Pattern(a), Pattern(b))) }

  /** Or of values that share no bits is a sum. */
  lemma {:induction false} OrIsSum(high: nat, low: nat, k: nat)
    requires low < Pow2(k)
    ensures OrBits(high * Pow2(k), low) == high * Pow2(k) + low
    decreases k
  {
    if k == 0 {
      OrZero(high);
    } else {
      var half := high * Pow2(k - 1);
      assert high * Pow2(k) == 2 * half by { assert Pow2(k) == 2 * Pow2(k - 1); }
      OrIsSum(high, low / 2, k - 1);
    }
  }

  lemma {:induction false} OrZero(a: nat)
    ensures OrBits(a, 0) == a
  {
    if a > 0 { OrZero(a / 2); }
  }

  // ---------- the generator ----------

  const OUR_EPOCH: int := 1530540000666
  const SHARD: int := 1

  /** What the packing amounts to: 41 bits of elapsed milliseconds, 13 of shard, 10 of sequence. */
  function ObjectId(millis: int, sequence: nat): int {
    Signed(((millis - OUR_EPOCH) % 0x200_0000_0000) * 0x80_0000 + SHARD * 0x400 + sequence % 0x400)
  }

  /** For the first 2^40 milliseconds, some 35 years, the id is a plain sum. */
  lemma FirstDecades(millis: int, sequence: nat)
    ensures 0 <= millis - 1530540000666 < 0x100_0000_0000 ==>
              ObjectId(millis, sequence) == (millis - 1530540000666) * 8388608 + 1024 + sequence % 1024
  {
  }

  class Generator {
    var sequence: nat

    constructor ()
      ensures sequence == 0
    {
      sequence := 0;
    }

    method NextObjectId(millis: int) returns (result: int)
      modifies this
      ensures sequence == old(sequence) + 1
      ensures result == ObjectId(millis, sequence)
      ensures 0 <= millis - 1530540000666 < 0x100_0000_0000 ==>
                result == (millis - 1530540000666) * 8388608 + 1024 + sequence % 1024
    {
      hide Or, ShiftLeft, Signed;
      FirstDecades(millis, sequence + 1);
      sequence := sequence + 1;
      var seqId := sequence % 1024;
      result := ShiftLeft(millis - OUR_EPOCH, 23);
      result := Or(result, ShiftLeft(SHARD, 10));
      result := Or(result, seqId);
      PackedIsSum(millis - OUR_EPOCH, seqId);
      assert SHARD * 0x400 == 0x400;
    }
  }

  lemma Powers()
    ensures Pow2(10) == 0x400 && Pow2(13) == 0x2000 && Pow2(23) == 0x80_0000
  {
    assert Pow2(5) == 32;
    assert Pow2(10) == 0x400;
    assert Pow2(15) == 0x8000;
    assert Pow2(20) == 0x10_0000;
  }

  /** A shift by 23 keeps the low 41 bits. */
  lemma ShiftKeepsLow(e: int)
    ensures Pattern(ShiftLeft(e, 23)) == (e % 0x200_0000_0000) * 0x80_0000
  {
    Powers();
    var p := Pattern(e);
    var q, r := p / 0x200_0000_0000, p % 0x200_0000_0000;
    assert p * 0x80_0000 == q * WORD + r * 0x80_0000;
    assert 0 <= r * 0x80_0000 < WORD;
    ModOfSum(q, r * 0x80_0000);
    assert e % 0x200_0000_0000 == r by { NestedMod(e); }
  }

  lemma ModOfSum(q: int, r: int)
    requires 0 <= r < WORD
    ensures (q * WORD + r) % WORD == r
  {
  }

  lemma ModOfMultiple(k: int, r: int)
    ensures (k * 0x200_0000_0000 + r) % 0x200_0000_0000 == r % 0x200_0000_0000
  {
    var a, b := r / 0x200_0000_0000, r % 0x200_0000_0000;
    assert k * 0x200_0000_0000 + r == (k + a) * 0x200_0000_0000 + b;
  }

  lemma NestedMod(e: int)
    ensures (e % WORD) % 0x200_0000_0000 == e % 0x200_0000_0000
  {
    ModOfMultiple((e / WORD) * 0x80_0000, e % WORD);
    assert e == (e / WORD) * WORD + e % WORD;
  }

  lemma OrOfPatterns(a: int, b: int, p: nat)
    requires p < WORD && OrBits(Pattern(a), Pattern(b)) == p
    ensures Or(a, b) == Signed(p) && Pattern(Or(a, b)) == p
  {
  }

  lemma PackedIsSum(e: int, s: nat)
    requires s < 1024
    ensures Or(Or(ShiftLeft(e, 23), ShiftLeft(SHARD, 10)), s)
         == Signed((e % 0x200_0000_0000) * 0x80_0000 + 0x400 + s)
  {
    hide Or, OrBits, Pow2, ShiftLeft, Signed;
    var t := e % 0x200_0000_0000;
    var shifted, shard := ShiftLeft(e, 23), ShiftLeft(SHARD, 10);
    assert Pattern(shifted) == t * 0x80_0000 by { ShiftKeepsLow(e); }
    assert Pattern(shard) == 0x400 by { ShardBits(); }
    assert Pow2(23) == 0x80_0000 && Pow2(10) == 0x400 by { Powers(); }
    OrIsSum(t, 0x400, 23);
    OrOfPatterns(shifted, shard, t * 0x80_0000 + 0x400);
    assert t * 0x80_0000 + 0x400 == (t * 0x2000 + 1) * 0x400;
    OrIsSum(t * 0x2000 + 1, s, 10);
    OrOfPatterns(Or(shifted, shard), s, t * 0x80_0000 + 0x400 + s);
  }

  lemma ShardBits()
    ensures Pattern(ShiftLeft(SHARD, 10)) == 0x400
  {
    Powers();
  }

  // ---------- what ids tell apart ----------

  lemma DivideBy23(q: int, r: int)
    requires 0 <= r < 0x80_0000
    ensures (q * 0x80_0000 + r) / 0x80_0000 == q
  {
  }

  lemma DivideBy10(q: int, r: int)
    requires 0 <= r < 0x400
    ensures (q * 0x400 + r) / 0x400 == q && (q * 0x400 + r) % 0x400 == r
  {
  }

  lemma ModBy13(q: int, r: int)
    requires 0 <= r < 0x2000
    ensures (q * 0x2000 + r) % 0x2000 == r
  {
  }

  /** The bits of an id. */
  lemma PatternOfId(millis: int, sequence: nat)
    ensures var t, s := (millis - OUR_EPOCH) % 0x200_0000_0000, sequence % 0x400;
            Pattern(ObjectId(millis, sequence)) == t * 0x80_0000 + 0x400 + s
  {
    var t, s := (millis - OUR_EPOCH) % 0x200_0000_0000, sequence % 0x400;
    PatternOfSigned(t * 0x80_0000 + 0x400 + s);
  }

  lemma PatternOfSigned(p: nat)
    requires p < WORD
    ensures Pattern(Signed(p)) == p
  {
  }

  /** The three parts of an id are read back from its bits. */
  lemma PartsReadBack(millis: int, sequence: nat)
    ensures var p := Pattern(ObjectId(millis, sequence));
            && p / 0x80_0000 == (millis - OUR_EPOCH) % 0x200_0000_0000
            && p / 0x400 % 0x2000 == SHARD
            && p % 0x400 == sequence % 0x400
  {
    hide Pattern, ObjectId;
    var t, s := (millis - OUR_EPOCH) % 0x200_0000_0000, sequence % 0x400;
    PatternOfId(millis, sequence);
    PartsOfSum(t, s);
  }

  lemma PartsOfSum(t: nat, s: nat)
    requires s < 0x400
    ensures var p := t * 0x80_0000 + 0x400 + s;
            p / 0x80_0000 == t && p / 0x400 % 0x2000 == 1 && p % 0x400 == s
  {
    DivideBy23(t, 0x400 + s);
    DivideBy10(t * 0x2000 + 1, s);
    assert (t * 0x2000 + 1) * 0x400 + s == t * 0x80_0000 + 0x400 + s;
    ModBy13(t, 1);
  }

  /** Two ids are equal exactly when the elapsed times agree in 41 bits and the sequence numbers mod 1024. */
  lemma EqualIff(m1: int, s1: nat, m2: int, s2: nat)
    ensures ObjectId(m1, s1) == ObjectId(m2, s2) <==>
              (m1 - OUR_EPOCH) % 0x200_0000_0000 == (m2 - OUR_EPOCH) % 0x200_0000_0000 && s1 % 0x400 == s2 % 0x400
  {
    hide Pattern;
    PartsReadBack(m1, s1);
    PartsReadBack(m2, s2);
  }

  /** An id is negative exactly when bit 40 of the elapsed time is set. */
  lemma NonNegativeIff(millis: int, sequence: nat)
    ensures ObjectId(millis, sequence) >= 0 <==> (millis - OUR_EPOCH) % 0x200_0000_0000 < 0x100_0000_0000
    ensures 0 - HALF <= ObjectId(millis, sequence) < HALF
  {
    var t, s := (millis - OUR_EPOCH) % 0x200_0000_0000, sequence % 0x400;
    assert t * 0x80_0000 + 0x400 + s < WORD;
  }

  /** The years the layout was made for. */
  predicate InRange(millis: int) { 0 <= millis - OUR_EPOCH < 0x100_0000_0000 }

  lemma LaterIsGreater(m1: int, s1: nat, m2: int, s2: nat)
    requires InRange(m1) && InRange(m2) && m1 < m2
    ensures 0 <= ObjectId(m1, s1) < ObjectId(m2, s2)
  {
    var t, u := m1 - OUR_EPOCH, m2 - OUR_EPOCH;
    assert t % 0x200_0000_0000 == t && u % 0x200_0000_0000 == u;
  }

  // ---------- runs of the generator ----------

  /** The id of the i-th call of a run that starts after `start` calls, with the clock readings of the calls. */
  function IdAt(clocks: seq<int>, start: nat, i: nat): int
    requires i < |clocks|
  {
    ObjectId(clocks[i], start + i + 1)
  }

  predicate ClockRuns(clocks: seq<int>) {
    && (forall c <- clocks :: InRange(c))
    && (forall i, j :: 0 <= i < j < |clocks| ==> clocks[i] <= clocks[j])
  }

  /**
   With a clock that does not go back, ids grow from one millisecond to the next,
   and two ids of a run collide exactly when they were drawn in the same millisecond
   a multiple of 1024 calls apart.
   */
  lemma RunOfIds(clocks: seq<int>, start: nat, i: nat, j: nat)
    requires ClockRuns(clocks) && i < j < |clocks|
    ensures clocks[i] < clocks[j] ==> IdAt(clocks, start, i) < IdAt(clocks, start, j)
    ensures IdAt(clocks, start, i) == IdAt(clocks, start, j) <==> clocks[i] == clocks[j] && (j - i) % 0x400 == 0
  {
    assert clocks[i] in clocks && clocks[j] in clocks;
    if clocks[i] < clocks[j] {
      LaterIsGreater(clocks[i], start + i + 1, clocks[j], start + j + 1);
    } else {
      EqualIff(clocks[i], start + i + 1, clocks[j], start + j + 1);
      Congruent(start + i + 1, start + j + 1);
    }
  }

  lemma Congruent(a: nat, b: nat)
    requires a <= b
    ensures a % 0x400 == b % 0x400 <==> (b - a) % 0x400 == 0
  {
  }

  /** So up to 1024 calls in every millisecond give distinct ids. */
  lemma IdsAreDistinct(clocks: seq<int>, start: nat)
    requires ClockRuns(clocks)
    requires forall i, j :: 0 <= i < j < |clocks| && clocks[i] == clocks[j] ==> j - i < 1024
    ensures forall i, j :: 0 <= i < j < |clocks| ==> IdAt(clocks, start, i) != IdAt(clocks, start, j)
  {
    forall i, j | 0 <= i < j < |clocks| ensures IdAt(clocks, start, i) != IdAt(clocks, start, j) {
      RunOfIds(clocks, start, i, j);
    }
  }
}
