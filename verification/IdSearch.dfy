/** The wrap-around search for an unused id that the command directory and the coordinator
    share: count up modulo the width of the counter until an id is not taken. */
module IdSearch {
  import opened Basics

  /** The id reached after `k` increments. */
  function Nth(start: nat, k: nat, modulus: nat): (id: nat)
    requires modulus > 0
    ensures id < modulus
  {
    (start + k) % modulus
  }

  lemma NextNth(start: nat, k: nat, modulus: nat)
    requires modulus > 0
    ensures Nth(start, k + 1, modulus) == (Nth(start, k, modulus) + 1) % modulus
  {
    var n := start + k;
    var q, r := n / modulus, n % modulus;
    assert n == q * modulus + r;
    if r + 1 < modulus {
      Remainder(n + 1, q, r + 1, modulus);
      Remainder(r + 1, 0, r + 1, modulus);
    } else {
      Remainder(n + 1, q + 1, 0, modulus);
      Remainder(r + 1, 1, 0, modulus);
    }
  }

  lemma Remainder(n: nat, q: int, r: nat, modulus: nat)
    requires r < modulus && n == q * modulus + r
    ensures n % modulus == r
  {
    var d := n / modulus - q;
    assert n == n / modulus * modulus + n % modulus;
    assert d * modulus == n / modulus * modulus - q * modulus;
    MulOutside(d, modulus);
    MulOutside(-d, modulus);
    assert -d * modulus == -(d * modulus);
  }

  /** `k` increments are needed to reach an id that is not taken, and no fewer. */
  predicate FirstFree(start: nat, k: nat, modulus: nat, taken: set<nat>)
    requires modulus > 0
  {
    && 1 <= k <= modulus
    && Nth(start, k, modulus) !in taken
    && forall j :: 1 <= j < k ==> Nth(start, j, modulus) in taken
  }

  /** The same without counting: all ids from the last one up to this one, or up to the end and
      on from 0, are taken, and this one is not. */
  predicate NextFree(last: nat, id: nat, modulus: nat, taken: set<nat>) {
    && id < modulus && id !in taken
    && if last < id then forall j :: last < j < id ==> j in taken
       else (forall j :: last < j < modulus ==> j in taken) && (forall j :: 0 <= j < id ==> j in taken)
  }

  lemma FirstFreeIsNext(last: nat, k: nat, modulus: nat, taken: set<nat>)
    requires last < modulus && FirstFree(last, k, modulus, taken)
    ensures NextFree(last, Nth(last, k, modulus), modulus, taken)
  {
    var id := Nth(last, k, modulus);
    NthIs(last, k, modulus);
    forall j: nat | last < j < modulus && (last < id ==> j < id) ensures j in taken {
      NthIs(last, j - last, modulus);
    }
    if id <= last {
      forall j: nat | 0 <= j < id ensures j in taken {
        NthIs(last, modulus - last + j, modulus);
      }
    }
  }

  /** Within one cycle there is at most one wrap. */
  lemma NthIs(last: nat, k: nat, modulus: nat)
    requires last < modulus && k <= modulus
    ensures Nth(last, k, modulus) == if last + k < modulus then last + k else last + k - modulus
  {
    if last + k < modulus {
      Remainder(last + k, 0, last + k, modulus);
    } else {
      Remainder(last + k, 1, last + k - modulus, modulus);
    }
  }

  /** The ids passed while counting. */
  ghost function Passed(start: nat, k: nat, modulus: nat): (ids: set<nat>)
    requires modulus > 0
  {
    set j | 1 <= j <= k :: Nth(start, j, modulus)
  }

  lemma StepsDiffer(start: nat, i: nat, j: nat, modulus: nat)
    requires 0 < i < j && j - i < modulus
    ensures Nth(start, i, modulus) != Nth(start, j, modulus)
  {
    var a, b := start + i, start + j;
    var q := b / modulus - a / modulus;
    assert a == a / modulus * modulus + a % modulus && b == b / modulus * modulus + b % modulus;
    assert q * modulus == b / modulus * modulus - a / modulus * modulus;
    MulOutside(q, modulus);
  }

  lemma MulOutside(q: int, m: nat)
    ensures q <= 0 ==> q * m <= 0
    ensures q >= 1 ==> q * m >= m
  {
    assert q * m == m + (q - 1) * m;
  }

  /** Counting up never meets the same id twice within one cycle. */
  lemma {:induction false} PassedSize(start: nat, k: nat, modulus: nat)
    requires k <= modulus && modulus > 0
    ensures |Passed(start, k, modulus)| == k
  {
    if k > 0 {
      PassedSize(start, k - 1, modulus);
      var fewer, last := Passed(start, k - 1, modulus), Nth(start, k, modulus);
      assert Passed(start, k, modulus) == fewer + {last};
      if last in fewer {
        var j :| 1 <= j <= k - 1 && Nth(start, j, modulus) == last;
        StepsDiffer(start, j, k, modulus);
      }
    }
  }

  /** While only taken ids have been passed, the search is not through the cycle yet: this
      is why it ends, and it needs fewer taken ids than the counter has values. */
  lemma SearchGoesOn(start: nat, k: nat, modulus: nat, taken: set<nat>)
    requires modulus > 0 && |taken| < modulus && k <= modulus
    requires forall j :: 1 <= j <= k ==> Nth(start, j, modulus) in taken
    ensures k < modulus
  {
    PassedSize(start, k, modulus);
    SubsetSize(Passed(start, k, modulus), taken);
  }

  lemma FirstFreeUnique(start: nat, k: nat, l: nat, modulus: nat, taken: set<nat>)
    requires modulus > 0 && FirstFree(start, k, modulus, taken) && FirstFree(start, l, modulus, taken)
    ensures k == l
  {
  }

  /** The loop can end exactly if some id is free, and then it ends at the first one: every id
      is reached, and with all of them taken its test holds for ever. */
  lemma SearchEndsIff(start: nat, modulus: nat, taken: set<nat>)
    requires modulus > 0
    ensures (exists k: nat :: 1 <= k && Nth(start, k, modulus) !in taken) <==>
      exists id: nat :: id < modulus && id !in taken
    ensures (exists k: nat :: 1 <= k && Nth(start, k, modulus) !in taken) <==>
      exists k: nat :: FirstFree(start, k, modulus, taken)
  {
    if id: nat :| id < modulus && id !in taken {
      var k := ReachedAfter(start, id, modulus);
      LeastFree(start, k, modulus, taken);
    }
  }

  /** How many increments lead to an id. */
  lemma ReachedAfter(start: nat, id: nat, modulus: nat) returns (k: nat)
    requires id < modulus
    ensures 1 <= k <= modulus && Nth(start, k, modulus) == id
  {
    var q, r := start / modulus, start % modulus;
    assert start == q * modulus + r;
    if r < id {
      k := id - r;
      Remainder(start + k, q, id, modulus);
    } else {
      k := modulus + id - r;
      assert (q + 1) * modulus == q * modulus + modulus;
      Remainder(start + k, q + 1, id, modulus);
    }
  }

  lemma {:induction false} LeastFree(start: nat, k: nat, modulus: nat, taken: set<nat>)
    requires 1 <= k <= modulus && Nth(start, k, modulus) !in taken
    ensures exists l: nat :: FirstFree(start, l, modulus, taken)
  {
    if j: nat :| 1 <= j < k && Nth(start, j, modulus) !in taken {
      LeastFree(start, j, modulus, taken);
    } else {
      assert FirstFree(start, k, modulus, taken);
    }
  }
}
