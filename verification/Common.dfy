/** Small value types and ring arithmetic shared by every component of the model. */
module Common {

  newtype byte = b: int | 0 <= b < 256

  datatype Option<+T> = None | Some(value: T)

  /** An unsigned 64-bit word: what is left of a number when it wraps. */
  function U64(x: int): nat {
    x % 0x1_0000_0000_0000_0000
  }

  /** The remainder that stands for a power-of-two mask, by repeated subtraction. */
  function Residue(n: nat, capacity: nat): (r: nat)
    requires capacity > 0
    ensures r < capacity
    decreases n
  {
    if n < capacity then n else Residue(n - capacity, capacity)
  }

  lemma {:induction false} ResidueIsRemainder(n: nat, capacity: nat)
    requires capacity > 0
    ensures Residue(n, capacity) == n % capacity
    decreases n
  {
    if n >= capacity {
      var q, r := (n - capacity) / capacity, (n - capacity) % capacity;
      ResidueIsRemainder(n - capacity, capacity);
      assert n == q * capacity + r + capacity == (q + 1) * capacity + r;
      RemainderUnique(n, capacity, q + 1, r);
    }
  }

  lemma RemainderUnique(n: nat, capacity: nat, q: int, r: nat)
    requires r < capacity && n == q * capacity + r
    ensures n % capacity == r
  {
    var d := n / capacity - q;
    assert d * capacity == r - n % capacity;
    assert d >= 1 ==> d * capacity >= capacity;
    assert d <= -1 ==> d * capacity <= -(capacity as int);
  }

  /** Two numbers of one residue that lie less than one lap apart are equal. */
  lemma {:induction false} ResidueInjective(a: nat, b: nat, capacity: nat)
    requires capacity > 0
    requires a <= b < a + capacity
    requires Residue(a, capacity) == Residue(b, capacity)
    ensures a == b
    decreases a
  {
    if a >= capacity {
      ResidueInjective(a - capacity, b - capacity, capacity);
    }
  }

  lemma ResidueNextLap(n: nat, capacity: nat)
    requires capacity > 0
    ensures Residue(n + capacity, capacity) == Residue(n, capacity)
  {
  }

  /** A sequence with a function applied to every element. */
  function Mapped<A, B>(f: A -> B, s: seq<A>): (r: seq<B>)
    ensures |r| == |s|
    ensures forall i {:trigger r[i]} {:trigger s[i]} :: 0 <= i < |s| ==> r[i] == f(s[i])
  {
    seq(|s|, i requires 0 <= i < |s| => f(s[i]))
  }

  /** A key.  What stands behind `forall k :: Look(k) ==> ...` is unfolded only in proofs that
      mention it, so that those which just hand an invariant on stay small. */
  ghost predicate Look(k: nat) {
    true
  }

  // ----- powers of two ------------------------------------------------------------------

  ghost function Pow2(k: nat): nat {
    if k == 0 then 1 else 2 * Pow2(k - 1)
  }

  /** The smallest power of two that is at least n. */
  ghost predicate RoundedUp(v: nat, n: nat) {
    && v >= n && (exists k: nat :: v == Pow2(k))
    && forall j: nat {:trigger Pow2(j)} :: Pow2(j) >= n ==> v <= Pow2(j)
  }

  lemma {:induction false} Pow2Grows(j: nat, k: nat)
    requires j <= k
    ensures Pow2(j) <= Pow2(k)
    decreases k
  {
    if j < k {
      Pow2Grows(j, k - 1);
    }
  }

  /** Doubling from a power of two that is too small, the first one that is not too small. */
  lemma FirstIsSmallest(k: nat, n: nat)
    requires Pow2(k) >= n && (k == 0 || Pow2(k - 1) < n)
    ensures RoundedUp(Pow2(k), n)
  {
    forall j: nat | Pow2(j) >= n ensures Pow2(k) <= Pow2(j) {
      if j < k {
        Pow2Grows(j, k - 1);
      } else {
        Pow2Grows(k, j);
      }
    }
  }

  method RoundUpPow2(n: nat) returns (v: nat)
    ensures RoundedUp(v, n) && v >= 1
  {
    v := 1;
    ghost var k: nat := 0;
    while v < n
      invariant v >= 1 && v == Pow2(k) && (k == 0 || Pow2(k - 1) < n)
      decreases n - v
    {
      v, k := 2 * v, k + 1;
    }
    FirstIsSmallest(k, n);
  }
}
