/** One's complement arithmetic of the Internet checksum (RFC 1071, sections 1 and 2):
    the deferred-carry sum that the packet code accumulates, the carry-folding loop,
    and the end-around-carry sum they stand for. */
module OnesComplement {

  type Byte = b: int | 0 <= b < 0x100
  type Word = w: int | 0 <= w < 0x1_0000
  type DWord = d: int | 0 <= d < 0x1_0000_0000

  const ALL_ONES: Word := 0xFFFF

  /** The big-endian 16-bit word at offset `at`. */
  function WordAt(b: seq<Byte>, at: nat): Word
    requires at + 1 < |b|
  {
    b[at] as int * 0x100 + b[at + 1] as int
  }

  /** Addition in the 32-bit accumulator. */
  function Add32(x: DWord, y: DWord): (sum: DWord)
    ensures x + y < 0x1_0000_0000 <==> sum as int == x + y
  {
    (x as int + y) % 0x1_0000_0000
  }

  /** The plain sum of `n` consecutive words, carries deferred. */
  function WordSum(b: seq<Byte>, start: nat, n: nat): nat
    requires start + 2 * n <= |b|
  {
    if n == 0 then 0 else WordSum(b, start, n - 1) + WordAt(b, start + 2 * (n - 1))
  }

  /** 16-bit one's complement addition: the carry goes back into the low end. */
  function EndAroundAdd(x: Word, y: Word): Word
  {
    if x + y > ALL_ONES then x + y - ALL_ONES else x + y
  }

  /** The words added one at a time with end-around carry. */
  function EndAroundSum(b: seq<Byte>, start: nat, n: nat): Word
    requires start + 2 * n <= |b|
  {
    if n == 0 then 0 else EndAroundAdd(EndAroundSum(b, start, n - 1), WordAt(b, start + 2 * (n - 1)))
  }

  /** The 16-bit value a deferred-carry sum stands for: its residue modulo 65535, where
      only zero itself is written 0. */
  function Residue(sum: nat): Word
  {
    if sum == 0 then 0 else (sum - 1) % ALL_ONES + 1
  }

  lemma ModPeriod(x: int, k: int)
    ensures (x + ALL_ONES * k) % ALL_ONES == x % ALL_ONES
  {
  }

  /** A residue is fixed by three facts: it is a 16-bit word, it is congruent to the sum,
      and it is zero only for a zero sum. */
  lemma ResidueUnique(sum: nat, r: Word)
    ensures r == Residue(sum) <==> r % ALL_ONES == sum % ALL_ONES && (r == 0 <==> sum == 0)
  {
  }

  /** All ones stands for the positive multiples of 65535. */
  lemma ResidueAllOnes(sum: nat)
    ensures Residue(sum) == ALL_ONES <==> sum != 0 && sum % ALL_ONES == 0
  {
  }

  /** Congruent non-zero sums have the same residue. */
  lemma ResidueCongruent(x: nat, k: nat)
    requires x > 0
    ensures Residue(x + ALL_ONES * k) == Residue(x)
  {
    ModPeriod(x - 1, k);
  }

  /** Adding in two steps is the same as adding and then reducing. */
  lemma ResidueAdd(x: nat, w: Word)
    ensures Residue(x + w) == EndAroundAdd(Residue(x), w)
  {
  }

  /** Deferring the carries computes the same word as RFC 1071's addition with
      end-around carry, for any number of words. */
  lemma {:induction false} DeferredCarries(b: seq<Byte>, start: nat, n: nat)
    requires start + 2 * n <= |b|
    ensures Residue(WordSum(b, start, n)) == EndAroundSum(b, start, n)
  {
    if n > 0 {
      DeferredCarries(b, start, n - 1);
      ResidueAdd(WordSum(b, start, n - 1), WordAt(b, start + 2 * (n - 1)));
    }
  }

  /** The largest sum that `n` words can give. */
  lemma {:induction false} WordSumBound(b: seq<Byte>, start: nat, n: nat)
    requires start + 2 * n <= |b|
    ensures WordSum(b, start, n) <= n * ALL_ONES
  {
    if n > 0 {
      WordSumBound(b, start, n - 1);
    }
  }

  /** The 32-bit accumulator never wraps: not for any segment whose length fits the 16-bit
      IP length field, with the pseudo-header (four address words, the protocol number and
      the segment length) added on top. */
  lemma AccumulatorFits(b: seq<Byte>, start: nat, len: Word, addresses: nat, protocol: Byte)
    requires start + 2 * ((len + 1) / 2) <= |b|
    requires addresses <= 4 * ALL_ONES
    ensures WordSum(b, start, (len + 1) / 2) + addresses + protocol + len < 0x1_0000_0000
  {
    WordSumBound(b, start, (len + 1) / 2);
  }

  /** The sum reads nothing but its words. */
  lemma {:induction false} WordSumSame(b: seq<Byte>, c: seq<Byte>, start: nat, n: nat)
    requires start + 2 * n <= |b| && start + 2 * n <= |c|
    requires forall i :: start <= i < start + 2 * n ==> b[i] == c[i]
    ensures WordSum(b, start, n) == WordSum(c, start, n)
  {
    if n > 0 {
      WordSumSame(b, c, start, n - 1);
    }
  }

  /** Replacing one aligned word moves the sum by exactly the difference. */
  lemma {:induction false} WordSumReplace(b: seq<Byte>, c: seq<Byte>, start: nat, n: nat, k: nat)
    requires start + 2 * n <= |b| && start + 2 * n <= |c|
    requires k < n
    requires forall i :: start <= i < start + 2 * n && i != start + 2 * k && i != start + 2 * k + 1 ==> b[i] == c[i]
    ensures WordSum(c, start, n) == WordSum(b, start, n) - WordAt(b, start + 2 * k) + WordAt(c, start + 2 * k)
  {
    if k == n - 1 {
      WordSumSame(b, c, start, n - 1);
    } else {
      WordSumReplace(b, c, start, n - 1, k);
    }
  }

  /** Adding the complement of a sum's residue gives all ones: the checksum a receiver accepts. */
  lemma ComplementVerifies(sum: nat)
    ensures Residue(sum + (ALL_ONES - Residue(sum))) == ALL_ONES
  {
    if sum > 0 {
      var q := (sum - 1) / ALL_ONES;
      assert sum == q * ALL_ONES + Residue(sum);
      assert sum + (ALL_ONES - Residue(sum)) == ALL_ONES + ALL_ONES * q;
      ResidueCongruent(ALL_ONES, q);
    }
  }

  /** The two one's complement representations of zero. */
  predicate BothZeros(v: Word, w: Word)
  {
    (v == 0 && w == ALL_ONES) || (v == ALL_ONES && w == 0)
  }

  /** Two sums that differ in one word fold to the same value exactly when the words are
      equal, or are the two representations of zero over a non-zero rest. */
  lemma ResidueSeparates(rest: nat, v: Word, w: Word)
    ensures Residue(rest + v) == Residue(rest + w)
       <==> v == w || (BothZeros(v, w) && rest > 0)
  {
    if BothZeros(v, w) && rest > 0 {
      ResidueCongruent(rest, 1);
    }
  }

  /** Adds the high half to the low half for as long as there is a high half. The result is
      congruent to the sum, and zero only for a zero sum. */
  method FoldCarries(accumulated: DWord) returns (folded: Word)
    ensures folded == Residue(accumulated)
    ensures folded % ALL_ONES == accumulated % ALL_ONES && (folded == 0 <==> accumulated == 0)
  {
    var sum := accumulated;
    while sum / 0x1_0000 != 0
      invariant 0 <= sum < 0x1_0000_0000
      invariant Residue(sum) == Residue(accumulated)
      decreases sum
    {
      var low, high := sum % 0x1_0000, sum / 0x1_0000;
      assert sum == (low + high) + ALL_ONES * high;
      ResidueCongruent(low + high, high);
      sum := low + high;
    }
    folded := sum;
    ResidueUnique(accumulated, folded);
  }
}
