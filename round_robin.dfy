/**
 * The pairings of a roster as the fixture generators enumerate them: two nested
 * ascending indices, the outer i from 0 and the inner j from i + 1, up to the roster size.
 */
module RoundRobin {

  type Pair = (nat, nat)

  /** The pairs (i, j), (i, j + 1), ..., (i, n - 1): what one pass of the inner loop emits. */
  function Row(i: nat, j: nat, n: nat): (r: seq<Pair>)
    ensures |r| == if j <= n then n - j else 0
    ensures forall k :: 0 <= k < |r| ==> r[k] == (i, j + k)
    decreases n - j
  {
    if j < n then [(i, j)] + Row(i, j + 1, n) else []
  }

  /** The pairs emitted by the outer loop from index i on. */
  function PairsFrom(i: nat, n: nat): (r: seq<Pair>)
    ensures forall k :: 0 <= k < |r| ==> i <= r[k].0 < r[k].1 < n
    decreases n - i
  {
    if i < n then Row(i, i + 1, n) + PairsFrom(i + 1, n) else []
  }

  /** Every pair of indices i < j of an n-element roster, in the order the loops visit them. */
  function Pairs(n: nat): seq<Pair> {
    PairsFrom(0, n)
  }

  /** The inner loop's bookkeeping: a row grows by one pair at its end. */
  lemma RowSnoc(i: nat, j0: nat, j: nat)
    requires j0 <= j
    ensures Row(i, j0, j + 1) == Row(i, j0, j) + [(i, j)]
  {
    var a, b := Row(i, j0, j + 1), Row(i, j0, j) + [(i, j)];
    assert |a| == |b|;
    forall k | 0 <= k < |a|
      ensures a[k] == b[k]
    {
    }
  }

  /** The outer loop's bookkeeping: after row i, the rows from i + 1 remain. */
  lemma PairsAdvance(n: nat, i: nat, before: seq<Pair>, after: seq<Pair>)
    requires i <= n && Pairs(n) == before + PairsFrom(i, n)
    requires i < n ==> after == before + Row(i, i + 1, n)
    requires i == n ==> after == before
    ensures i < n ==> Pairs(n) == after + PairsFrom(i + 1, n)
    ensures i == n ==> after == Pairs(n)
  {
    if i < n {
      assert PairsFrom(i, n) == Row(i, i + 1, n) + PairsFrom(i + 1, n);
      assert before + PairsFrom(i, n) == after + PairsFrom(i + 1, n);
    } else {
      assert PairsFrom(i, n) == [];
    }
  }

  /** Lexicographic order on index pairs. */
  predicate PairLess(a: Pair, b: Pair) {
    a.0 < b.0 || (a.0 == b.0 && a.1 < b.1)
  }

  lemma {:induction false} PairsFromLength(i: nat, n: nat)
    requires i <= n
    ensures |PairsFrom(i, n)| == (n - i) * (n - i - 1) / 2
    decreases n - i
  {
    if i < n {
      PairsFromLength(i + 1, n);
      var m := n - i;
      assert (m - 1) * (m - 2) + 2 * (m - 1) == m * (m - 1);
    }
  }

  /** An n-team roster gives n(n-1)/2 pairings, and none at all below two teams. */
  lemma PairsCount(n: nat)
    ensures |Pairs(n)| == n * (n - 1) / 2
    ensures n < 2 ==> Pairs(n) == []
  {
    PairsFromLength(0, n);
  }

  lemma {:induction false} PairsFromSorted(i: nat, n: nat)
    ensures forall a, b :: 0 <= a < b < |PairsFrom(i, n)| ==> PairLess(PairsFrom(i, n)[a], PairsFrom(i, n)[b])
    decreases n - i
  {
    if i < n {
      PairsFromSorted(i + 1, n);
      var row, rest := Row(i, i + 1, n), PairsFrom(i + 1, n);
      var all := row + rest;
      forall a, b | 0 <= a < b < |all| ensures PairLess(all[a], all[b]) {
        if b < |row| {
        } else if a < |row| {
          assert all[a].0 == i && all[b] == rest[b - |row|];
        } else {
          assert all[a] == rest[a - |row|] && all[b] == rest[b - |row|];
        }
      }
    }
  }

  lemma {:induction false} PairsFromComplete(i: nat, n: nat, a: nat, b: nat)
    requires i <= a < b < n
    ensures (a, b) in PairsFrom(i, n)
    decreases n - i
  {
    var row, rest := Row(i, i + 1, n), PairsFrom(i + 1, n);
    if a == i {
      assert row[b - i - 1] == (a, b);
      assert (row + rest)[b - i - 1] == (a, b);
    } else {
      PairsFromComplete(i + 1, n, a, b);
      var k :| 0 <= k < |rest| && rest[k] == (a, b);
      assert (row + rest)[|row| + k] == (a, b);
    }
  }

  /**
   * The enumeration visits every pair i < j of the roster exactly once, in
   * lexicographic order, and nothing else.
   */
  lemma PairsEnumeration(n: nat)
    ensures forall k :: 0 <= k < |Pairs(n)| ==> Pairs(n)[k].0 < Pairs(n)[k].1 < n
    ensures forall a, b :: 0 <= a < b < |Pairs(n)| ==> PairLess(Pairs(n)[a], Pairs(n)[b])
    ensures forall a, b :: 0 <= a < b < |Pairs(n)| ==> Pairs(n)[a] != Pairs(n)[b]
    ensures forall i: nat, j: nat :: i < j < n ==> (i, j) in Pairs(n)
  {
    PairsFromSorted(0, n);
    forall i: nat, j: nat | i < j < n ensures (i, j) in Pairs(n) {
      PairsFromComplete(0, n, i, j);
    }
  }

  /** For a four-team roster the order is (0,1), (0,2), (0,3), (1,2), (1,3), (2,3). */
  lemma PairsOfFour()
    ensures Pairs(4) == [(0, 1), (0, 2), (0, 3), (1, 2), (1, 3), (2, 3)]
  {
    assert Row(3, 4, 4) == [];
    assert Row(2, 3, 4) == [(2, 3)];
    assert Row(1, 2, 4) == [(1, 2), (1, 3)];
    assert Row(0, 1, 4) == [(0, 1), (0, 2), (0, 3)];
    assert PairsFrom(4, 4) == [];
    assert PairsFrom(3, 4) == [];
    assert PairsFrom(2, 4) == [(2, 3)];
  }
}
