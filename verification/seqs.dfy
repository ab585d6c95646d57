/** Sequence helpers used by the directory searches and the balance totals. */
module Seqs {
  import opened Wrappers

  /** Index of the first element satisfying `p`, if any: the shape of every
      "loop and return on the first match" search in the ledger. */
  function FirstIndex<T>(s: seq<T>, p: T -> bool): (r: Option<nat>)
    ensures r.Some? ==> r.value < |s| && p(s[r.value])
    ensures r.Some? ==> forall k :: 0 <= k < r.value ==> !p(s[k])
    ensures r.None? <==> forall k :: 0 <= k < |s| ==> !p(s[k])
  {
    if s == [] then None
    else if p(s[0]) then Some(0)
    else match FirstIndex(s[1..], p)
      case None => None
      case Some(k) => Some(k + 1)
  }

  /** The first-match index is determined by the two facts that characterise it. */
  lemma FirstIndexUnique<T>(s: seq<T>, p: T -> bool, k: nat)
    requires k < |s| && p(s[k])
    requires forall m :: 0 <= m < k ==> !p(s[m])
    ensures FirstIndex(s, p) == Some(k)
  {
  }

  function Sum(s: seq<real>): real
  {
    if s == [] then 0.0 else s[0] + Sum(s[1..])
  }

  /** Replacing one element changes the sum by exactly the difference. */
  lemma {:induction false} SumUpdate(s: seq<real>, i: nat, v: real)
    requires i < |s|
    ensures Sum(s[i := v]) == Sum(s) - s[i] + v
  {
    if i == 0 {
      assert s[i := v][1..] == s[1..];
    } else {
      SumUpdate(s[1..], i - 1, v);
      assert s[i := v][1..] == s[1..][i - 1 := v];
    }
  }

  /** Moving an amount from one position to another keeps the sum. */
  lemma SumTransfer(before: seq<real>, after: seq<real>, p: nat, q: nat, amount: real)
    requires |after| == |before| && p < |before| && q < |before| && p != q
    requires after[p] == before[p] - amount && after[q] == before[q] + amount
    requires forall k :: 0 <= k < |before| && k != p && k != q ==> after[k] == before[k]
    ensures Sum(after) == Sum(before)
  {
    SumUpdate(before, p, before[p] - amount);
    SumUpdate(before[p := before[p] - amount], q, before[q] + amount);
    assert after == before[p := before[p] - amount][q := before[q] + amount];
  }

  /** Concatenation of the inner sequences, in order. */
  function Flatten<T>(nested: seq<seq<T>>): seq<T>
  {
    if nested == [] then [] else Flatten(nested[..|nested| - 1]) + nested[|nested| - 1]
  }

  /** The flattening read from the front: the first row, then the rest. */
  lemma {:induction false} FlattenCons<T>(nested: seq<seq<T>>)
    requires nested != []
    ensures Flatten(nested) == nested[0] + Flatten(nested[1..])
  {
    var n := |nested|;
    if n > 1 {
      FlattenCons(nested[..n - 1]);
      assert nested[..n - 1][1..] == nested[1..][..n - 2];
      assert nested[..n - 1][0] == nested[0];
      assert nested[1..][n - 2] == nested[n - 1];
    } else {
      assert nested[..0] == [];
      assert nested[1..] == [];
    }
  }

  /** Where the elements of row `i` start in the flattened sequence. */
  function Offset<T>(nested: seq<seq<T>>, i: nat): nat
    requires i <= |nested|
  {
    |Flatten(nested[..i])|
  }

  lemma {:induction false} FlattenPrefix<T>(nested: seq<seq<T>>, i: nat)
    requires i < |nested|
    ensures Flatten(nested[..i + 1]) == Flatten(nested[..i]) + nested[i]
  {
    assert nested[..i + 1][..i] == nested[..i];
  }

  /** Row `i`, column `j` sits at position Offset(i) + j of the flattening. */
  lemma {:induction false} FlattenAt<T>(nested: seq<seq<T>>, i: nat, j: nat)
    requires i < |nested| && j < |nested[i]|
    ensures Offset(nested, i) + j < |Flatten(nested)|
    ensures Flatten(nested)[Offset(nested, i) + j] == nested[i][j]
  {
    var n := |nested|;
    assert nested[..n] == nested;
    if i == n - 1 {
    } else {
      FlattenAt(nested[..n - 1], i, j);
      assert nested[..n - 1][..i] == nested[..i];
    }
  }

  /** Every position of the flattening comes from some row and column. */
  lemma {:induction false} FlattenCover<T>(nested: seq<seq<T>>, p: nat) returns (i: nat, j: nat)
    requires p < |Flatten(nested)|
    ensures i < |nested| && j < |nested[i]|
    ensures p == Offset(nested, i) + j
    ensures Flatten(nested)[p] == nested[i][j]
  {
    var n := |nested|;
    var init := nested[..n - 1];
    assert nested[..n] == nested;
    if p < |Flatten(init)| {
      i, j := FlattenCover(init, p);
      assert init[..i] == nested[..i];
    } else {
      i, j := n - 1, p - |Flatten(init)|;
    }
  }

  ghost predicate NestedDistinct<T>(nested: seq<seq<T>>)
  {
    forall i1, j1, i2, j2 ::
      (0 <= i1 < |nested| && 0 <= j1 < |nested[i1]| &&
       0 <= i2 < |nested| && 0 <= j2 < |nested[i2]| &&
       (i1 != i2 || j1 != j2)) ==> nested[i1][j1] != nested[i2][j2]
  }

  /** Elements that are pairwise distinct row by row stay pairwise distinct
      once flattened: every element is listed exactly once. */
  lemma FlattenDistinct<T>(nested: seq<seq<T>>)
    requires NestedDistinct(nested)
    ensures forall p, q :: 0 <= p < q < |Flatten(nested)| ==> Flatten(nested)[p] != Flatten(nested)[q]
  {
    forall p, q | 0 <= p < q < |Flatten(nested)|
      ensures Flatten(nested)[p] != Flatten(nested)[q]
    {
      var i1, j1 := FlattenCover(nested, p);
      var i2, j2 := FlattenCover(nested, q);
    }
  }

  /** An empty last row adds nothing to the flattening. */
  lemma FlattenAppendEmpty<T>(nested: seq<seq<T>>)
    ensures Flatten(nested + [[]]) == Flatten(nested)
  {
    assert (nested + [[]])[..|nested|] == nested;
  }

  /** Appending x to row k adds x and nothing else to the flattening. */
  lemma FlattenAppendTo<T>(nested: seq<seq<T>>, k: nat, x: T)
    requires k < |nested|
    ensures forall y :: y in Flatten(nested[k := nested[k] + [x]]) ==> y == x || y in Flatten(nested)
  {
    var grown := nested[k := nested[k] + [x]];
    forall y | y in Flatten(grown)
      ensures y == x || y in Flatten(nested)
    {
      FlattenMembership(grown, y);
      var i, j :| 0 <= i < |grown| && 0 <= j < |grown[i]| && grown[i][j] == y;
      if i != k || j < |nested[k]| {
        assert nested[i][j] == y;
        FlattenMembership(nested, y);
      }
    }
  }

  /** An element is in the flattening exactly when it is in one of the rows. */
  lemma FlattenMembership<T>(nested: seq<seq<T>>, x: T)
    ensures x in Flatten(nested) <==> exists i, j :: 0 <= i < |nested| && 0 <= j < |nested[i]| && nested[i][j] == x
  {
    if x in Flatten(nested) {
      var p :| 0 <= p < |Flatten(nested)| && Flatten(nested)[p] == x;
      var i, j := FlattenCover(nested, p);
    }
    if exists i, j :: 0 <= i < |nested| && 0 <= j < |nested[i]| && nested[i][j] == x {
      var i, j :| 0 <= i < |nested| && 0 <= j < |nested[i]| && nested[i][j] == x;
      FlattenAt(nested, i, j);
    }
  }
}
