/**
 * Unspent outputs and transactions as values (the `UTXO` and `Transaction` dataclasses compare by
 * field values), with the list operations the generator applies to them.
 */
module Utxo {
  datatype UTXO = UTXO(transactionId: string, trIndex: int, owner: string, amount: int)

  datatype Transaction = Transaction(transactionId: string, inputs: seq<UTXO>, outputs: seq<UTXO>)

  /** The total amount of the outputs in s. */
  function Sum(s: seq<UTXO>): int
  {
    if s == [] then 0 else Sum(s[..|s| - 1]) + s[|s| - 1].amount
  }

  /** a is s with some elements left out: its elements occur in s in the same order. */
  predicate Subsequence(a: seq<UTXO>, s: seq<UTXO>)
    decreases |s|
  {
    if a == [] then true
    else if s == [] then false
    else (a[0] == s[0] && Subsequence(a[1..], s[1..])) || Subsequence(a, s[1..])
  }

  lemma {:induction false} SubsequenceReflexive(s: seq<UTXO>)
    ensures Subsequence(s, s)
  {
    if s != [] {
      SubsequenceReflexive(s[1..]);
    }
  }

  lemma {:induction false} SubsequenceTransitive(a: seq<UTXO>, b: seq<UTXO>, c: seq<UTXO>)
    requires Subsequence(a, b) && Subsequence(b, c)
    ensures Subsequence(a, c)
    decreases |c|
  {
    if a != [] {
      if Subsequence(b, c[1..]) {
        SubsequenceTransitive(a, b, c[1..]);
      } else if a[0] == b[0] && Subsequence(a[1..], b[1..]) {
        SubsequenceTransitive(a[1..], b[1..], c[1..]);
      } else {
        SubsequenceTransitive(a, b[1..], c[1..]);
      }
    }
  }

  /** The outputs of s that `owner` owns, in order. */
  function OwnedBy(s: seq<UTXO>, owner: string): (r: seq<UTXO>)
    ensures forall k :: 0 <= k < |r| ==> r[k].owner == owner
    ensures forall x :: x in s && x.owner == owner ==> x in r
    ensures forall x {:trigger multiset(r)[x]} :: multiset(r)[x] == if x.owner == owner then multiset(s)[x] else 0
    ensures Subsequence(r, s)
  {
    if s == [] then []
    else
      assert s == [s[0]] + s[1..];
      var rest := OwnedBy(s[1..], owner);
      if s[0].owner == owner then
        assert ([s[0]] + rest)[1..] == rest;
        [s[0]] + rest
      else
        rest
  }

  /** `owner_utxos[0]`: the first of the list's outputs that the owner owns. */
  lemma {:induction false} OwnedByHead(s: seq<UTXO>, owner: string)
    requires OwnedBy(s, owner) != []
    ensures exists k :: 0 <= k < |s| && s[k] == OwnedBy(s, owner)[0] &&
                        s[k].owner == owner && forall j :: 0 <= j < k ==> s[j].owner != owner
  {
    if s[0].owner != owner {
      OwnedByHead(s[1..], owner);
      var k :| 0 <= k < |s[1..]| && s[1..][k] == OwnedBy(s[1..], owner)[0] &&
                s[1..][k].owner == owner && forall j :: 0 <= j < k ==> s[1..][j].owner != owner;
      assert s[k + 1] == s[1..][k];
      forall j | 0 <= j < k + 1
        ensures s[j].owner != owner
      {
        if j > 0 {
          assert s[j] == s[1..][j - 1];
        }
      }
    } else {
      assert s[0] == OwnedBy(s, owner)[0];
    }
  }

  /** The position of the first element of s equal to x. */
  function FirstIndex(s: seq<UTXO>, x: UTXO): (k: nat)
    requires x in s
    ensures k < |s| && s[k] == x && x !in s[..k]
  {
    if s[0] == x then 0
    else
      var k := FirstIndex(s[1..], x) + 1;
      assert s[..k] == [s[0]] + s[1..][..k - 1];
      k
  }

  /** Python's list `remove`: drops the first element equal to x (the caller guarantees x occurs). */
  function RemoveFirst(s: seq<UTXO>, x: UTXO): (r: seq<UTXO>)
    requires x in s
    ensures exists k :: 0 <= k < |s| && s[k] == x && x !in s[..k] && r == s[..k] + s[k + 1..]
    ensures multiset(r) == multiset(s) - multiset{x}
    ensures |r| == |s| - 1
  {
    var k := FirstIndex(s, x);
    DropMultiset(s, k);
    s[..k] + s[k + 1..]
  }

  /** Leaving out position k takes one occurrence of s[k] out of the multiset. */
  lemma DropMultiset(s: seq<UTXO>, k: nat)
    requires k < |s|
    ensures multiset(s[..k] + s[k + 1..]) == multiset(s) - multiset{s[k]}
  {
    assert s == s[..k] + [s[k]] + s[k + 1..];
  }

  /** Leaving out one position keeps the others in order. */
  lemma {:induction false} DropSubsequence(s: seq<UTXO>, k: nat)
    requires k < |s|
    ensures Subsequence(s[..k] + s[k + 1..], s)
  {
    var a := s[..k] + s[k + 1..];
    if k == 0 {
      assert a == s[1..];
      SubsequenceReflexive(s[1..]);
    } else {
      DropSubsequence(s[1..], k - 1);
      assert a[0] == s[0];
      assert a[1..] == s[1..][..k - 1] + s[1..][k..];
    }
  }

  /** Removing one element keeps the others in order. */
  lemma RemoveFirstSubsequence(s: seq<UTXO>, x: UTXO)
    requires x in s
    ensures Subsequence(RemoveFirst(s, x), s)
  {
    DropSubsequence(s, FirstIndex(s, x));
  }

  /** Removing each of `xs` in turn, as the loop over a transaction's inputs does. */
  function RemoveAll(s: seq<UTXO>, xs: seq<UTXO>): (r: seq<UTXO>)
    requires multiset(xs) <= multiset(s)
    ensures multiset(r) == multiset(s) - multiset(xs)
    decreases |xs|
  {
    if xs == [] then s
    else
      assert xs == [xs[0]] + xs[1..];
      assert xs[0] in multiset(s);
      RemoveAll(RemoveFirst(s, xs[0]), xs[1..])
  }

  /** The outputs that survive the removal keep their relative order. */
  lemma {:induction false} RemoveAllSubsequence(s: seq<UTXO>, xs: seq<UTXO>)
    requires multiset(xs) <= multiset(s)
    ensures Subsequence(RemoveAll(s, xs), s)
    decreases |xs|
  {
    if xs == [] {
      SubsequenceReflexive(s);
    } else {
      RemoveAllStep(s, xs);
      RemoveAllSubsequence(RemoveFirst(s, xs[0]), xs[1..]);
      RemoveFirstSubsequence(s, xs[0]);
      SubsequenceTransitive(RemoveAll(s, xs), RemoveFirst(s, xs[0]), s);
    }
  }

  /** Removing a non-empty list: its first element is live, then the rest is removed from what is left. */
  lemma RemoveAllStep(s: seq<UTXO>, xs: seq<UTXO>)
    requires xs != [] && multiset(xs) <= multiset(s)
    ensures xs[0] in s
    ensures multiset(xs[1..]) <= multiset(RemoveFirst(s, xs[0]))
    ensures RemoveAll(s, xs) == RemoveAll(RemoveFirst(s, xs[0]), xs[1..])
  {
    assert xs == [xs[0]] + xs[1..];
    assert xs[0] in multiset(s);
  }

  /** Every amount in s is positive. */
  predicate AllPositive(s: seq<UTXO>)
  {
    forall k :: 0 <= k < |s| ==> s[k].amount > 0
  }

  /** Ascending by amount. */
  predicate SortedByAmount(s: seq<UTXO>)
  {
    forall i, j :: 0 <= i < j < |s| ==> s[i].amount <= s[j].amount
  }

  /** x placed before the first element whose amount is not smaller than its own. */
  function Insert(x: UTXO, s: seq<UTXO>): (r: seq<UTXO>)
    ensures multiset(r) == multiset(s) + multiset{x}
    ensures |r| == |s| + 1
  {
    if s == [] || x.amount <= s[0].amount then [x] + s
    else
      assert s == [s[0]] + s[1..];
      [s[0]] + Insert(x, s[1..])
  }

  /**
   * Python's sort by amount: it is stable, and so is inserting each
   * element, in order, ahead of the equal amounts that follow it.
   */
  function StableSort(s: seq<UTXO>): (r: seq<UTXO>)
    ensures multiset(r) == multiset(s)
    ensures |r| == |s|
  {
    if s == [] then []
    else
      assert s == [s[0]] + s[1..];
      Insert(s[0], StableSort(s[1..]))
  }

  /** The elements of s with the given amount, in order. */
  function WithAmount(s: seq<UTXO>, a: int): seq<UTXO>
  {
    if s == [] then [] else (if s[0].amount == a then [s[0]] else []) + WithAmount(s[1..], a)
  }

  lemma {:induction false} InsertSorted(x: UTXO, s: seq<UTXO>)
    requires SortedByAmount(s)
    ensures SortedByAmount(Insert(x, s))
  {
    if s != [] && x.amount > s[0].amount {
      InsertSorted(x, s[1..]);
      var r := Insert(x, s);
      assert r == [s[0]] + Insert(x, s[1..]);
      forall k | 0 <= k < |r|
        ensures s[0].amount <= r[k].amount
      {
        if k > 0 {
          assert r[k] in multiset(Insert(x, s[1..]));
          assert r[k] in multiset(s[1..]) + multiset{x};
          if r[k] != x {
            assert r[k] in s[1..];
          }
        }
      }
    }
  }

  /** The result of `StableSort` is in ascending order of amount. */
  lemma {:induction false} StableSortSorted(s: seq<UTXO>)
    ensures SortedByAmount(StableSort(s))
  {
    if s != [] {
      StableSortSorted(s[1..]);
      InsertSorted(s[0], StableSort(s[1..]));
    }
  }

  lemma {:induction false} InsertKeepsEqualOrder(x: UTXO, s: seq<UTXO>, a: int)
    requires SortedByAmount(s)
    ensures WithAmount(Insert(x, s), a) == (if x.amount == a then [x] else []) + WithAmount(s, a)
  {
    if s == [] || x.amount <= s[0].amount {
      assert ([x] + s)[1..] == s;
    } else {
      InsertKeepsEqualOrder(x, s[1..], a);
      assert ([s[0]] + Insert(x, s[1..]))[1..] == Insert(x, s[1..]);
      if x.amount == a {
        NoneWithAmountBelow(s, a);
      }
    }
  }

  lemma NoneWithAmountBelow(s: seq<UTXO>, a: int)
    requires SortedByAmount(s) && s != [] && s[0].amount < a
    ensures s[0].amount != a
  {
  }

  /** Stability: sorting keeps the relative order of UTXOs with equal amounts. */
  lemma {:induction false} StableSortIsStable(s: seq<UTXO>, a: int)
    ensures WithAmount(StableSort(s), a) == WithAmount(s, a)
  {
    if s != [] {
      StableSortIsStable(s[1..], a);
      StableSortSorted(s[1..]);
      InsertKeepsEqualOrder(s[0], StableSort(s[1..]), a);
    }
  }

  lemma {:induction false} SumOfCons(x: UTXO, s: seq<UTXO>)
    ensures Sum([x] + s) == x.amount + Sum(s)
    decreases |s|
  {
    if s != [] {
      var t := [x] + s;
      assert t[..|t| - 1] == [x] + s[..|s| - 1];
      SumOfCons(x, s[..|s| - 1]);
    } else {
      assert ([x] + s)[..0] == [];
    }
  }

  lemma {:induction false} SumOfAppend(s: seq<UTXO>, t: seq<UTXO>)
    ensures Sum(s + t) == Sum(s) + Sum(t)
    decreases |t|
  {
    if t != [] {
      assert (s + t)[..|s + t| - 1] == s + t[..|t| - 1];
      SumOfAppend(s, t[..|t| - 1]);
    } else {
      assert s + t == s;
    }
  }

  /** Removing one occurrence of x takes x's amount off the sum. */
  lemma SumRemoveFirst(s: seq<UTXO>, x: UTXO)
    requires x in s
    ensures Sum(RemoveFirst(s, x)) == Sum(s) - x.amount
  {
    var k := FirstIndex(s, x);
    assert s == s[..k] + ([s[k]] + s[k + 1..]);
    SumOfAppend(s[..k], [s[k]] + s[k + 1..]);
    SumOfCons(s[k], s[k + 1..]);
    SumOfAppend(s[..k], s[k + 1..]);
  }

  /** Removing each of xs takes their total off the sum. */
  lemma {:induction false} SumRemoveAll(s: seq<UTXO>, xs: seq<UTXO>)
    requires multiset(xs) <= multiset(s)
    ensures Sum(RemoveAll(s, xs)) == Sum(s) - Sum(xs)
    decreases |xs|
  {
    if xs != [] {
      assert xs == [xs[0]] + xs[1..];
      assert xs[0] in multiset(s);
      SumRemoveFirst(s, xs[0]);
      SumRemoveAll(RemoveFirst(s, xs[0]), xs[1..]);
      SumOfCons(xs[0], xs[1..]);
    }
  }

  /** Positive amounts stay positive when elements are removed. */
  lemma RemoveAllPositive(s: seq<UTXO>, xs: seq<UTXO>)
    requires multiset(xs) <= multiset(s) && AllPositive(s)
    ensures AllPositive(RemoveAll(s, xs))
  {
    var r := RemoveAll(s, xs);
    forall k | 0 <= k < |r|
      ensures r[k].amount > 0
    {
      assert r[k] in multiset(r);
      assert r[k] in multiset(s);
    }
  }
}
