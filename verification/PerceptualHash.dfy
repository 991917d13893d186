/** Perceptual-hash arithmetic of the near-duplicate auditor: right shift, mask,
    xor popcount, the pigeonhole bucket keys and the rotation-minimum distance. */
module PerceptualHash {
  import opened Order

  const HASH_BITS: nat := 64
  const MAX_THRESHOLD: nat := 7

  const HASH_LIMIT: nat := 0x1_0000_0000_0000_0000

  /** `v >> n` */
  function ShiftRight(v: nat, n: nat): nat {
    if n == 0 then v else ShiftRight(v / 2, n - 1)
  }

  /** `v & ((1 << w) - 1)` */
  function LowBits(v: nat, w: nat): nat {
    if w == 0 then 0 else v % 2 + 2 * LowBits(v / 2, w - 1)
  }

  /** `(a ^ b).bit_count()` */
  function BitDistance(a: nat, b: nat): nat
    decreases a + b
  {
    if a == 0 && b == 0 then 0
    else (if a % 2 != b % 2 then 1 else 0) + BitDistance(a / 2, b / 2)
  }

  predicate IsHash(v: int) {
    0 <= v < HASH_LIMIT
  }

  /** Width of block `i` when 64 bits are cut into `t + 1` blocks. */
  function Width(t: nat, i: nat): nat {
    HASH_BITS / (t + 1) + if i < HASH_BITS % (t + 1) then 1 else 0
  }

  function Offset(t: nat, i: nat): nat {
    if i == 0 then 0 else Offset(t, i - 1) + Width(t, i - 1)
  }

  /** The first `i` blocks cover `i` equal shares and one extra bit for each of the leading blocks. */
  lemma {:induction false} OffsetIs(t: nat, i: nat)
    requires i <= t + 1
    ensures Offset(t, i) == i * (HASH_BITS / (t + 1)) + if i < HASH_BITS % (t + 1) then i else HASH_BITS % (t + 1)
  {
    if i > 0 {
      OffsetIs(t, i - 1);
      OneMore(i, HASH_BITS / (t + 1));
    }
  }

  lemma OneMore(i: nat, share: nat)
    requires i > 0
    ensures i * share == (i - 1) * share + share
  {
  }

  /** The last block ends at bit 64: the blocks cover the whole hash, and none is empty. */
  lemma {:induction false} BlocksCoverHash(t: nat, i: nat)
    requires t <= MAX_THRESHOLD && i <= t
    ensures Offset(t, t + 1) == HASH_BITS && Width(t, i) >= 1
  {
    OffsetIs(t, t + 1);
  }

  type Key = (nat, nat)

  function KeyAt(v: nat, t: nat, i: nat): Key {
    (i, LowBits(ShiftRight(v, Offset(t, i)), Width(t, i)))
  }

  function Keys(v: nat, t: nat): (keys: seq<Key>)
    ensures |keys| == t + 1
    ensures forall i :: 0 <= i <= t ==> keys[i] == KeyAt(v, t, i)
  {
    seq(t + 1, i requires 0 <= i => KeyAt(v, t, i))
  }

  /** The widths list and the running offset of the source, one key per block. */
  method BucketKeys(value: nat, threshold: nat) returns (keys: seq<Key>)
    requires threshold <= MAX_THRESHOLD
    ensures keys == Keys(value, threshold)
  {
    var widths := seq(threshold + 1, _ => HASH_BITS / (threshold + 1));
    for index := 0 to HASH_BITS % (threshold + 1)
      invariant |widths| == threshold + 1
      invariant forall i :: 0 <= i <= threshold ==>
        widths[i] == HASH_BITS / (threshold + 1) + if i < index then 1 else 0
    {
      widths := widths[index := widths[index] + 1];
    }
    assert forall i :: 0 <= i <= threshold ==> widths[i] == Width(threshold, i);
    keys := [];
    var offset: nat := 0;
    for index := 0 to |widths|
      invariant offset == Offset(threshold, index)
      invariant |keys| == index
      invariant forall i :: 0 <= i < index ==> keys[i] == KeyAt(value, threshold, i)
    {
      keys := keys + [(index, LowBits(ShiftRight(value, offset), widths[index]))];
      offset := offset + widths[index];
    }
  }

  lemma {:induction false} ShiftCompose(v: nat, m: nat, n: nat)
    ensures ShiftRight(v, m + n) == ShiftRight(ShiftRight(v, m), n)
  {
    if m > 0 {
      ShiftCompose(v / 2, m - 1, n);
    }
  }

  lemma {:induction false} DistanceIsZeroOnlyOnEqual(a: nat, b: nat)
    ensures BitDistance(a, b) == 0 <==> a == b
    decreases a + b
  {
    if a != 0 || b != 0 {
      DistanceIsZeroOnlyOnEqual(a / 2, b / 2);
    }
  }

  /** Popcount splits at every bit position. */
  lemma {:induction false} DistanceSplits(a: nat, b: nat, w: nat)
    ensures BitDistance(a, b) ==
            BitDistance(LowBits(a, w), LowBits(b, w)) + BitDistance(ShiftRight(a, w), ShiftRight(b, w))
    decreases w
  {
    if w > 0 {
      DistanceSplits(a / 2, b / 2, w - 1);
      var x, y := LowBits(a, w), LowBits(b, w);
      assert x / 2 == LowBits(a / 2, w - 1) && x % 2 == a % 2;
      assert y / 2 == LowBits(b / 2, w - 1) && y % 2 == b % 2;
      if x == 0 && y == 0 {
        assert a % 2 == b % 2;
      }
    }
  }

  lemma {:induction false} SuffixDistance(a: nat, b: nat, t: nat, i: nat)
    requires i <= t + 1
    requires forall k :: i <= k <= t ==> KeyAt(a, t, k) != KeyAt(b, t, k)
    ensures BitDistance(ShiftRight(a, Offset(t, i)), ShiftRight(b, Offset(t, i))) >= t + 1 - i
    decreases t + 1 - i
  {
    if i <= t {
      SuffixDistance(a, b, t, i + 1);
      var off, w := Offset(t, i), Width(t, i);
      var x, y := ShiftRight(a, off), ShiftRight(b, off);
      ShiftCompose(a, off, w);
      ShiftCompose(b, off, w);
      DistanceSplits(x, y, w);
      assert KeyAt(a, t, i) != KeyAt(b, t, i);
      DistanceIsZeroOnlyOnEqual(LowBits(x, w), LowBits(y, w));
    }
  }

  /** Two hashes within distance `t` agree on at least one of the `t + 1` keys. */
  lemma PigeonholeKey(a: nat, b: nat, t: nat) returns (key: Key)
    requires BitDistance(a, b) <= t
    ensures key in Keys(a, t) && key in Keys(b, t)
  {
    if forall k :: 0 <= k <= t ==> KeyAt(a, t, k) != KeyAt(b, t, k) {
      SuffixDistance(a, b, t, 0);
    }
    var k :| 0 <= k <= t && KeyAt(a, t, k) == KeyAt(b, t, k);
    key := KeyAt(a, t, k);
    assert Keys(a, t)[k] == key && Keys(b, t)[k] == key;
  }

  /** The shortest xor popcount from one hash to a non-empty list. */
  function NearestDistance(a: nat, right: seq<nat>): nat
    requires |right| > 0
  {
    var first := BitDistance(a, right[0]);
    if |right| == 1 then first
    else
      var rest := NearestDistance(a, right[1..]);
      if first <= rest then first else rest
  }

  /** Minimum over every rotation of both signatures. */
  function SignatureDistance(left: seq<nat>, right: seq<nat>): nat
    requires |left| > 0 && |right| > 0
  {
    var first := NearestDistance(left[0], right);
    if |left| == 1 then first
    else
      var rest := SignatureDistance(left[1..], right);
      if first <= rest then first else rest
  }

  lemma {:induction false} NearestDistanceIsLeast(a: nat, right: seq<nat>)
    requires |right| > 0
    ensures exists b :: b in right && BitDistance(a, b) == NearestDistance(a, right)
    ensures forall b :: b in right ==> NearestDistance(a, right) <= BitDistance(a, b)
  {
    assert right == [right[0]] + right[1..];
    if |right| > 1 {
      NearestDistanceIsLeast(a, right[1..]);
    }
  }

  /** The signature distance is attained by some pair of rotations and undercut by none. */
  lemma {:induction false} SignatureDistanceIsLeast(left: seq<nat>, right: seq<nat>)
    requires |left| > 0 && |right| > 0
    ensures exists a, b :: a in left && b in right && BitDistance(a, b) == SignatureDistance(left, right)
    ensures forall a, b :: a in left && b in right ==> SignatureDistance(left, right) <= BitDistance(a, b)
  {
    NearestDistanceIsLeast(left[0], right);
    assert left == [left[0]] + left[1..];
    if |left| > 1 {
      SignatureDistanceIsLeast(left[1..], right);
    }
  }

  /** The distance only sees which hashes occur, so deduplicating a signature is harmless. */
  lemma {:induction false} DistanceOfSets(l1: seq<nat>, l2: seq<nat>, r1: seq<nat>, r2: seq<nat>)
    requires |l1| > 0 && |l2| > 0 && |r1| > 0 && |r2| > 0
    requires forall v :: v in l1 <==> v in l2
    requires forall v :: v in r1 <==> v in r2
    ensures SignatureDistance(l1, r1) == SignatureDistance(l2, r2)
  {
    SignatureDistanceIsLeast(l1, r1);
    SignatureDistanceIsLeast(l2, r2);
  }

  lemma {:induction false} BitDistanceSymmetric(a: nat, b: nat)
    ensures BitDistance(a, b) == BitDistance(b, a)
    decreases a + b
  {
    if a != 0 || b != 0 {
      BitDistanceSymmetric(a / 2, b / 2);
    }
  }

  lemma {:induction false} SignatureDistanceSymmetric(left: seq<nat>, right: seq<nat>)
    requires |left| > 0 && |right| > 0
    ensures SignatureDistance(left, right) == SignatureDistance(right, left)
  {
    SignatureDistanceIsLeast(left, right);
    SignatureDistanceIsLeast(right, left);
    var a, b :| a in left && b in right && BitDistance(a, b) == SignatureDistance(left, right);
    var c, d :| c in right && d in left && BitDistance(c, d) == SignatureDistance(right, left);
    BitDistanceSymmetric(a, b);
    BitDistanceSymmetric(c, d);
  }

  // ---- what the distance counts ----

  function PowerOfTwo(i: nat): nat {
    if i == 0 then 1 else 2 * PowerOfTwo(i - 1)
  }

  /** The binary digit of `v` at position `i`. */
  function Digit(v: nat, i: nat): nat {
    PowerIsPositive(i);
    v / PowerOfTwo(i) % 2
  }

  lemma {:induction false} PowerIsPositive(i: nat)
    ensures PowerOfTwo(i) >= 1
  {
    if i > 0 {
      PowerIsPositive(i - 1);
    }
  }

  /** The positions below `n` at which two numbers differ. */
  function DifferBelow(a: nat, b: nat, n: nat): set<nat> {
    set i | 0 <= i < n && Digit(a, i) != Digit(b, i)
  }

  /** The positions at which two 64-bit hashes differ. */
  function Differing(a: nat, b: nat): set<nat> {
    DifferBelow(a, b, 64)
  }

  lemma NonZeroMultiple(k: int, d: int)
    requires d >= 0
    ensures k == 0 || k * d >= d || k * d <= -d
  {
    if k >= 1 {
      assert (k - 1) * d >= 0;
    } else if k <= -1 {
      assert (-1 - k) * d >= 0;
    }
  }

  lemma QuotientIs(v: nat, d: nat, q: nat, r: nat)
    requires d > 0 && v == q * d + r && r < d
    ensures v / d == q
  {
    var k := v / d - q;
    assert v == v / d * d + v % d;
    assert k * d == v / d * d - q * d;
    NonZeroMultiple(k, d);
  }

  /** Halving moves every digit down by one position. */
  lemma DigitOfHalf(v: nat, i: nat)
    ensures Digit(v / 2, i) == Digit(v, i + 1)
  {
    var p := PowerOfTwo(i);
    PowerIsPositive(i);
    var q, r := v / 2 / p, v / 2 % p;
    assert v / 2 == q * p + r;
    assert v == q * (2 * p) + (2 * r + v % 2);
    QuotientIs(v, 2 * p, q, 2 * r + v % 2);
  }

  lemma DigitsMoveUp(a: nat, b: nat, n: nat, i: nat)
    ensures i in DifferBelow(a / 2, b / 2, n) <==> i + 1 in DifferBelow(a, b, n + 1)
  {
    DigitOfHalf(a, i);
    DigitOfHalf(b, i);
  }

  /** The differing positions are those of the halves, moved up, and the lowest one if the last digits differ. */
  lemma DifferingSplits(a: nat, b: nat, n: nat)
    ensures |DifferBelow(a, b, n + 1)| == |DifferBelow(a / 2, b / 2, n)| + if a % 2 != b % 2 then 1 else 0
  {
    var low, all := DifferBelow(a / 2, b / 2, n), DifferBelow(a, b, n + 1);
    forall i: nat
      ensures i in low <==> i + 1 in all
    {
      DigitsMoveUp(a, b, n, i);
    }
    assert 0 in all <==> a % 2 != b % 2;
    MovedUp(low, all);
  }

  lemma MovedUp(low: set<nat>, all: set<nat>)
    requires forall i: nat :: i in low <==> i + 1 in all
    ensures |all| == |low| + if 0 in all then 1 else 0
  {
    var high, up := all - {0}, (i: nat) => i + 1;
    forall j | j in high
      ensures exists i :: i in low && up(i) == j
    {
      var i: nat := j - 1;
      assert i in low && up(i) == j;
    }
    forall i | i in low
      ensures up(i) in high
    {
      assert i + 1 in all;
    }
    ImageSize(low, high, up);
    ZeroApart(all);
  }

  lemma ZeroApart(all: set<nat>)
    ensures |all| == |all - {0}| + if 0 in all then 1 else 0
  {
    if 0 in all {
      assert all == (all - {0}) + {0};
    } else {
      assert all == all - {0};
    }
  }

  /** The distance counts the differing digits. */
  lemma {:induction false} DistanceCounts(a: nat, b: nat, n: nat)
    requires a < PowerOfTwo(n) && b < PowerOfTwo(n)
    ensures BitDistance(a, b) == |DifferBelow(a, b, n)|
  {
    if n == 0 {
      assert DifferBelow(a, b, 0) == {};
    } else {
      DistanceCounts(a / 2, b / 2, n - 1);
      DifferingSplits(a, b, n - 1);
    }
  }

  /** `(a ^ b).bit_count()` of two hashes is the number of positions at which their binary digits differ. */
  lemma {:induction false} DistanceIsDifferingDigits(a: nat, b: nat)
    requires IsHash(a) && IsHash(b)
    ensures BitDistance(a, b) == |Differing(a, b)|
  {
    HashesAreBelowPower();
    DistanceCounts(a, b, 64);
  }

  lemma HashesAreBelowPower()
    ensures PowerOfTwo(64) == HASH_LIMIT
  {
    assert PowerOfTwo(4) == 16;
    PowersMultiply(4, 4);
    PowersMultiply(8, 8);
    PowersMultiply(16, 16);
    PowersMultiply(32, 32);
  }

  lemma {:induction false} PowersMultiply(i: nat, j: nat)
    ensures PowerOfTwo(i + j) == PowerOfTwo(i) * PowerOfTwo(j)
  {
    if i > 0 {
      PowersMultiply(i - 1, j);
    }
  }

  /** `d` is the least number of differing digits between a hash of one list and a hash of the other. */
  ghost predicate IsLeastDifference(left: seq<nat>, right: seq<nat>, d: nat) {
    && (exists a, b :: a in left && b in right && |Differing(a, b)| == d)
    && (forall a, b :: a in left && b in right ==> d <= |Differing(a, b)|)
  }

  ghost predicate AllHashes(signature: seq<nat>) {
    forall v :: v in signature ==> IsHash(v)
  }

  /** The signature distance is the least number of differing digits over every pair of rotations. */
  lemma {:induction false} SignatureDistanceCounts(left: seq<nat>, right: seq<nat>)
    requires |left| > 0 && |right| > 0 && AllHashes(left) && AllHashes(right)
    ensures IsLeastDifference(left, right, SignatureDistance(left, right))
  {
    SignatureDistanceIsLeast(left, right);
    forall a, b | a in left && b in right
      ensures BitDistance(a, b) == |Differing(a, b)|
    {
      DistanceIsDifferingDigits(a, b);
    }
  }
}
