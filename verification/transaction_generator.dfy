/**
 * `UTXOGenerator`: splits each user's balance into genesis outputs, then emits transactions by
 * greedy smallest-first input selection, updating the live output list in place.
 *
 * Every random draw is a parameter. The specification functions also take the id derivation
 * (`genesisId`, `txId`) as a parameter, so that their lemmas hold whatever the ids are; the
 * methods, which call `HashGenerator`, are tied to them with the ids fixed to `GenesisId` and
 * `TxId`, the hash of the id text.
 */
module TransactionGenerator {
  import opened Wrappers
  import opened Strings
  import opened Hash
  import opened Utxo
  import User

  /**
   * The integer part of x times a uniform draw from (a, b), 0 < a < b < 1: a fraction of x truncated toward zero,
   * so a value between 0 and x.
   */
  predicate Fraction(x: int, v: int)
  {
    if x >= 0 then 0 <= v <= x else x <= v <= 0
  }

  // ---------------------------------------------------------------------------------------
  // Genesis outputs.

  /** The text hashed into the id of user `pk`'s i-th genesis output. */
  function GenesisText(pk: string, i: int): string
  {
    "genesis-" + pk + "-" + IntToString(i)
  }

  /** The id of user `pk`'s i-th genesis output. */
  function GenesisId(pk: string, i: int): string
  {
    Digest(GenesisText(pk, i))
  }

  /**
   * The live outputs `acc` once user u (key pk) has had its balance split from piece i on, with
   * `remaining` of it left: the last piece takes the remainder, earlier pieces a drawn fraction
   * `share(u, i, remaining)` of it, and the first non-positive piece ends the user's outputs.
   */
  function SplitFrom(genesisId: (string, int) -> string, pk: string, u: nat, i: nat, n: int, remaining: int,
                     share: (nat, nat, int) -> int, acc: seq<UTXO>): seq<UTXO>
    decreases if n > i then n - i else 0
  {
    if i >= n then acc
    else
      var amount := if i == n - 1 then remaining else share(u, i, remaining);
      var left := if i == n - 1 then remaining else remaining - amount;
      if amount <= 0 then acc
      else SplitFrom(genesisId, pk, u, i + 1, n, left, share, acc + [UTXO(genesisId(pk, i), i, pk, amount)])
  }

  /** One step of the split: piece i ends the user's outputs or is appended before the rest. */
  lemma SplitFromStep(genesisId: (string, int) -> string, pk: string, u: nat, i: nat, n: int, remaining: int,
                      share: (nat, nat, int) -> int, acc: seq<UTXO>, amount: int, left: int)
    requires i < n
    requires amount == if i == n - 1 then remaining else share(u, i, remaining)
    requires left == if i == n - 1 then remaining else remaining - amount
    ensures amount <= 0 ==> SplitFrom(genesisId, pk, u, i, n, remaining, share, acc) == acc
    ensures amount > 0 ==>
      (SplitFrom(genesisId, pk, u, i, n, remaining, share, acc) ==
       SplitFrom(genesisId, pk, u, i + 1, n, left, share, acc + [UTXO(genesisId(pk, i), i, pk, amount)]))
  {
  }

  /** The outputs the split of one user adds, from piece i on. */
  function Pieces(genesisId: (string, int) -> string, pk: string, u: nat, i: nat, n: int, remaining: int,
                  share: (nat, nat, int) -> int): seq<UTXO>
  {
    SplitFrom(genesisId, pk, u, i, n, remaining, share, [])
  }

  /** Splitting only ever appends to the outputs already there. */
  lemma {:induction false} SplitFromAppends(genesisId: (string, int) -> string, pk: string, u: nat, i: nat, n: int,
                                            remaining: int, share: (nat, nat, int) -> int, acc: seq<UTXO>)
    ensures SplitFrom(genesisId, pk, u, i, n, remaining, share, acc) == acc + Pieces(genesisId, pk, u, i, n, remaining, share)
    decreases if n > i then n - i else 0
  {
    if i < n {
      var amount := if i == n - 1 then remaining else share(u, i, remaining);
      var left := if i == n - 1 then remaining else remaining - amount;
      SplitFromStep(genesisId, pk, u, i, n, remaining, share, acc, amount, left);
      SplitFromStep(genesisId, pk, u, i, n, remaining, share, [], amount, left);
      if amount > 0 {
        var x := UTXO(genesisId(pk, i), i, pk, amount);
        assert [] + [x] == [x];
        SplitFromAppends(genesisId, pk, u, i + 1, n, left, share, acc + [x]);
        SplitFromAppends(genesisId, pk, u, i + 1, n, left, share, [x]);
        assert (acc + [x]) + Pieces(genesisId, pk, u, i + 1, n, left, share) ==
          acc + ([x] + Pieces(genesisId, pk, u, i + 1, n, left, share));
      } else {
        assert acc + [] == acc;
      }
    } else {
      assert acc + [] == acc;
    }
  }

  /** Piece i, when positive, followed by the pieces after it. */
  lemma PiecesStep(genesisId: (string, int) -> string, pk: string, u: nat, i: nat, n: int, remaining: int,
                   share: (nat, nat, int) -> int)
    requires i < n
    ensures var amount := if i == n - 1 then remaining else share(u, i, remaining);
      var left := if i == n - 1 then remaining else remaining - amount;
      Pieces(genesisId, pk, u, i, n, remaining, share) ==
        if amount <= 0 then []
        else [UTXO(genesisId(pk, i), i, pk, amount)] + Pieces(genesisId, pk, u, i + 1, n, left, share)
  {
    var amount := if i == n - 1 then remaining else share(u, i, remaining);
    var left := if i == n - 1 then remaining else remaining - amount;
    if amount > 0 {
      var x := UTXO(genesisId(pk, i), i, pk, amount);
      assert [] + [x] == [x];
      SplitFromAppends(genesisId, pk, u, i + 1, n, left, share, [x]);
    }
  }

  /**
   * Each genesis output of a user is positive, owned by the user, numbered consecutively from
   * the piece it starts at, and carries the id `genesisId` derives from the user and the piece;
   * there are at most n - i of them.
   */
  lemma {:induction false} PiecesShape(genesisId: (string, int) -> string, pk: string, u: nat, i: nat, n: int,
                                       remaining: int, share: (nat, nat, int) -> int)
    ensures var r := Pieces(genesisId, pk, u, i, n, remaining, share);
      |r| <= (if n > i then n - i else 0) &&
      forall k :: 0 <= k < |r| ==>
        r[k].amount > 0 && r[k].owner == pk && r[k].trIndex == i + k &&
        r[k].transactionId == genesisId(pk, i + k)
    decreases if n > i then n - i else 0
  {
    if i < n {
      var amount := if i == n - 1 then remaining else share(u, i, remaining);
      var left := if i == n - 1 then remaining else remaining - amount;
      PiecesStep(genesisId, pk, u, i, n, remaining, share);
      if amount > 0 {
        PiecesShape(genesisId, pk, u, i + 1, n, left, share);
      }
    }
  }

  /**
   * From a non-negative remainder, the pieces add up to at most the remainder, and to exactly
   * the remainder when no piece stopped the split early.
   */
  lemma {:induction false} PiecesSum(genesisId: (string, int) -> string, pk: string, u: nat, i: nat, n: int,
                                     remaining: int, share: (nat, nat, int) -> int)
    requires remaining >= 0
    requires forall k: nat, rem: int :: Fraction(rem, share(u, k, rem))
    ensures Sum(Pieces(genesisId, pk, u, i, n, remaining, share)) <= remaining
    ensures i < n && |Pieces(genesisId, pk, u, i, n, remaining, share)| == n - i ==>
      Sum(Pieces(genesisId, pk, u, i, n, remaining, share)) == remaining
    decreases if n > i then n - i else 0
  {
    if i < n {
      var amount := if i == n - 1 then remaining else share(u, i, remaining);
      assert Fraction(remaining, share(u, i, remaining));
      PiecesStep(genesisId, pk, u, i, n, remaining, share);
      if amount > 0 {
        var x := UTXO(genesisId(pk, i), i, pk, amount);
        if i == n - 1 {
          assert Pieces(genesisId, pk, u, i + 1, n, remaining, share) == [];
          SumOfCons(x, []);
        } else {
          var rest := Pieces(genesisId, pk, u, i + 1, n, remaining - amount, share);
          PiecesSum(genesisId, pk, u, i + 1, n, remaining - amount, share);
          SumOfCons(x, rest);
        }
      }
    }
  }

  /** The live outputs `acc` once the accounts (key, balance) from u on have been split, user after user. */
  function GenesisFrom(genesisId: (string, int) -> string, accounts: seq<(string, int)>, u: nat, n: int,
                       share: (nat, nat, int) -> int, acc: seq<UTXO>): seq<UTXO>
    decreases |accounts| - u
  {
    if u >= |accounts| then acc
    else GenesisFrom(genesisId, accounts, u + 1, n, share, SplitFrom(genesisId, accounts[u].0, u, 0, n, accounts[u].1, share, acc))
  }

  /** The balances from account u on, added up. */
  function BalanceFrom(accounts: seq<(string, int)>, u: nat): int
    decreases |accounts| - u
  {
    if u >= |accounts| then 0 else accounts[u].1 + BalanceFrom(accounts, u + 1)
  }

  /**
   * Splitting keeps every output positive, and with non-negative balances and every share a
   * fraction of what remains, adds at most the balances split.
   */
  lemma {:induction false} GenesisBounded(genesisId: (string, int) -> string, accounts: seq<(string, int)>, u: nat,
                                          n: int, share: (nat, nat, int) -> int, acc: seq<UTXO>)
    requires forall j :: 0 <= j < |accounts| ==> accounts[j].1 >= 0
    requires forall v: nat, k: nat, rem: int :: Fraction(rem, share(v, k, rem))
    ensures AllPositive(acc) ==> AllPositive(GenesisFrom(genesisId, accounts, u, n, share, acc))
    ensures Sum(GenesisFrom(genesisId, accounts, u, n, share, acc)) <= Sum(acc) + BalanceFrom(accounts, u)
    decreases |accounts| - u
  {
    if u < |accounts| {
      var pk, balance := accounts[u].0, accounts[u].1;
      var last := Pieces(genesisId, pk, u, 0, n, balance, share);
      var next := SplitFrom(genesisId, pk, u, 0, n, balance, share, acc);
      SplitFromAppends(genesisId, pk, u, 0, n, balance, share, acc);
      PiecesShape(genesisId, pk, u, 0, n, balance, share);
      PiecesSum(genesisId, pk, u, 0, n, balance, share);
      SumOfAppend(acc, last);
      assert forall k :: 0 <= k < |next| ==> next[k] == if k < |acc| then acc[k] else last[k - |acc|];
      GenesisBounded(genesisId, accounts, u + 1, n, share, next);
    }
  }

  // ---------------------------------------------------------------------------------------
  // Transactions.

  /**
   * The random draws of `generate_transactions`, by round t:
   * `seed(t)` picks the live output `random.choice` returns, as an index reduced modulo the
   * number of live outputs,
   * `receiver(t, sender)` is the key of the user the receiver loop settles on,
   * `large(t)` is whether the round draws a large amount (a uniform draw below 0.3), and
   * `fraction(t, w, x)` is the truncated fraction of x drawn for the w-th such draw
   * of the round (0: large amount, 1: small amount, 2: reduced amount after a shortfall).
   */
  datatype Draws = Draws(
    seed: nat -> nat,
    receiver: (nat, string) -> string,
    large: nat -> bool,
    fraction: (nat, nat, int) -> int)

  /** The receiver loop only stops on a user whose key differs from the sender's. */
  ghost predicate ReceiversValid(d: Draws, keys: seq<string>)
  {
    forall t: nat, s: string :: d.receiver(t, s) in keys && d.receiver(t, s) != s
  }

  /** Every truncated-fraction draw of x lies between 0 and x. */
  ghost predicate FractionsValid(d: Draws)
  {
    forall t: nat, w: nat, x: int :: Fraction(x, d.fraction(t, w, x))
  }

  /** How many of the sorted outputs the greedy loop takes, having taken the first k. */
  function SelectCount(sorted: seq<UTXO>, target: int, maxInputs: int, k: nat): (c: nat)
    requires k <= |sorted|
    ensures k <= c <= |sorted|
    decreases |sorted| - k
  {
    if k == |sorted| || Sum(sorted[..k]) >= target || k >= maxInputs then k
    else SelectCount(sorted, target, maxInputs, k + 1)
  }

  /** One step of the count: it stops at k, or it is the count from k + 1. */
  lemma SelectCountStep(sorted: seq<UTXO>, target: int, maxInputs: int, k: nat)
    requires k <= |sorted|
    ensures k == |sorted| || Sum(sorted[..k]) >= target || k >= maxInputs ==>
              SelectCount(sorted, target, maxInputs, k) == k
    ensures k < |sorted| && Sum(sorted[..k]) < target && k < maxInputs ==>
              SelectCount(sorted, target, maxInputs, k) == SelectCount(sorted, target, maxInputs, k + 1)
  {
  }

  /** The inputs the greedy loop selects from `sorted`. */
  function Selected(sorted: seq<UTXO>, target: int, maxInputs: int): seq<UTXO>
  {
    sorted[..SelectCount(sorted, target, maxInputs, 0)]
  }

  /** None of the first k prefixes of the sorted outputs stops the greedy loop. */
  ghost predicate Uncovered(sorted: seq<UTXO>, target: int, maxInputs: int, k: nat)
    requires k <= |sorted|
  {
    forall j :: 0 <= j < k ==> Sum(sorted[..j]) < target && j < maxInputs
  }

  /**
   * The greedy selection is the shortest prefix of the sorted outputs that covers the target,
   * reaches `maxInputs` elements, or is the whole list.
   */
  lemma {:induction false} SelectionIsGreedy(sorted: seq<UTXO>, target: int, maxInputs: int, k: nat)
    requires k <= |sorted| && Uncovered(sorted, target, maxInputs, k)
    ensures var c := SelectCount(sorted, target, maxInputs, k);
      (c == |sorted| || Sum(sorted[..c]) >= target || c >= maxInputs) && Uncovered(sorted, target, maxInputs, c)
    decreases |sorted| - k
  {
    if !(k == |sorted| || Sum(sorted[..k]) >= target || k >= maxInputs) {
      assert Uncovered(sorted, target, maxInputs, k + 1);
      SelectionIsGreedy(sorted, target, maxInputs, k + 1);
    }
  }

  /** The selection holds at most `maxInputs` outputs, and none only when nothing can or need be taken. */
  lemma SelectionSize(sorted: seq<UTXO>, target: int, maxInputs: int)
    ensures |Selected(sorted, target, maxInputs)| <= (if maxInputs > 0 then maxInputs else 0)
    ensures Selected(sorted, target, maxInputs) == [] <==> sorted == [] || target <= 0 || maxInputs <= 0
  {
    SelectionIsGreedy(sorted, target, maxInputs, 0);
    var c := SelectCount(sorted, target, maxInputs, 0);
    assert sorted[..0] == [];
    if c > 0 {
      assert Sum(sorted[..c - 1]) < target && c - 1 < maxInputs;
    }
  }

  /** An input's reference: its transaction id, a colon, and its output index. */
  function Ref(u: UTXO): string
  {
    u.transactionId + ":" + IntToString(u.trIndex)
  }

  function Refs(inputs: seq<UTXO>): (r: seq<string>)
    ensures |r| == |inputs| && forall k :: 0 <= k < |r| ==> r[k] == Ref(inputs[k])
  {
    if inputs == [] then [] else [Ref(inputs[0])] + Refs(inputs[1..])
  }

  /** The `tx_str` hashed into a transaction's id. */
  function TxText(sender: string, receiver: string, amount: int, inputs: seq<UTXO>): string
  {
    Join('|', [sender, receiver, IntToString(amount)] + Refs(inputs))
  }

  /**
   * When neither key nor any input id contains '|', the transaction text splits back into the
   * sender, the receiver, the amount and one "id:index" reference per input, in order.
   */
  lemma TxTextSplitsBack(sender: string, receiver: string, amount: int, inputs: seq<UTXO>)
    requires '|' !in sender && '|' !in receiver
    requires forall k :: 0 <= k < |inputs| ==> '|' !in inputs[k].transactionId
    ensures Split(TxText(sender, receiver, amount, inputs), '|') ==
      [sender, receiver, IntToString(amount)] + Refs(inputs)
  {
    var parts := [sender, receiver, IntToString(amount)] + Refs(inputs);
    forall i | 0 <= i < |parts|
      ensures '|' !in parts[i]
    {
      if i == 2 {
        NoBarInNumber(amount);
      } else if i > 2 {
        NoBarInRef(inputs[i - 3]);
      }
    }
    SplitJoin(parts, '|');
  }

  lemma NoBarInRef(u: UTXO)
    requires '|' !in u.transactionId
    ensures '|' !in Ref(u)
  {
    NoBarInNumber(u.trIndex);
  }

  /** The id of a transaction: the hash of its text. */
  function TxId(sender: string, receiver: string, amount: int, inputs: seq<UTXO>): string
  {
    Digest(TxText(sender, receiver, amount, inputs))
  }

  /** The receiver's output, then the change back to the sender when there is any. */
  function Outputs(txid: string, sender: string, receiver: string, amount: int, change: int): seq<UTXO>
  {
    [UTXO(txid, 0, receiver, amount)] + (if change > 0 then [UTXO(txid, 1, sender, change)] else [])
  }

  /** The sender of round t: the owner of the drawn output. */
  function Sender(utxos: seq<UTXO>, t: nat, d: Draws): string
    requires |utxos| >= 1
  {
    utxos[d.seed(t) % |utxos|].owner
  }

  /** The amount round t aims at before selection: a fraction of all the sender holds, or of its first output. */
  function Target(owned: seq<UTXO>, t: nat, d: Draws): int
    requires owned != []
  {
    if d.large(t) then d.fraction(t, 0, Sum(owned)) else d.fraction(t, 1, owned[0].amount)
  }

  /** The amount actually sent: reduced to a fraction of the selected total when that falls short. */
  function Paid(target: int, selectedTotal: int, t: nat, d: Draws): int
  {
    if selectedTotal < target then d.fraction(t, 2, selectedTotal) else target
  }

  /** The transaction round t emits from the live outputs, or None when the round is skipped. */
  function Emit(txId: (string, string, int, seq<UTXO>) -> string, utxos: seq<UTXO>, t: nat, maxInputs: int,
                d: Draws): Option<Transaction>
    requires |utxos| >= 1
  {
    var sender := Sender(utxos, t, d);
    var owned := OwnedBy(utxos, sender);
    assert utxos[d.seed(t) % |utxos|] in owned;
    var inputs := Selected(StableSort(owned), Target(owned, t, d), maxInputs);
    var paid := Paid(Target(owned, t, d), Sum(inputs), t, d);
    if paid < 1 || inputs == [] then None
    else
      var txid := txId(sender, d.receiver(t, sender), paid, inputs);
      Some(Transaction(txid, inputs, Outputs(txid, sender, d.receiver(t, sender), paid, Sum(inputs) - paid)))
  }

  lemma PrefixMultiset(s: seq<UTXO>, k: nat)
    requires k <= |s|
    ensures multiset(s[..k]) <= multiset(s)
  {
    assert s == s[..k] + s[k..];
  }

  /**
   * An emitted transaction spends between one and `maxInputs` live outputs of the sender, a prefix
   * of its outputs sorted smallest first in stable order, and its id is derived from its sender,
   * receiver, amount and inputs.
   */
  lemma EmitInputs(txId: (string, string, int, seq<UTXO>) -> string, utxos: seq<UTXO>, t: nat, maxInputs: int,
                   d: Draws)
    requires |utxos| >= 1
    ensures var e := Emit(txId, utxos, t, maxInputs, d);
      var sender := Sender(utxos, t, d);
      e.Some? ==>
        1 <= |e.value.inputs| <= maxInputs &&
        e.value.inputs <= StableSort(OwnedBy(utxos, sender)) &&
        (forall k :: 0 <= k < |e.value.inputs| ==> e.value.inputs[k].owner == sender) &&
        multiset(e.value.inputs) <= multiset(utxos) &&
        e.value.transactionId == txId(sender, d.receiver(t, sender), e.value.outputs[0].amount, e.value.inputs)
  {
    var e := Emit(txId, utxos, t, maxInputs, d);
    if e.Some? {
      var sender := Sender(utxos, t, d);
      var owned := OwnedBy(utxos, sender);
      var sorted := StableSort(owned);
      var inputs := e.value.inputs;
      SelectionSize(sorted, Target(owned, t, d), maxInputs);
      PrefixMultiset(sorted, |inputs|);
      forall k | 0 <= k < |inputs|
        ensures inputs[k].owner == sender
      {
        assert inputs[k] in multiset(owned);
      }
    }
  }

  /**
   * An emitted transaction pays at least 1 to the drawn receiver, another user's key, at index 0,
   * returns change to the sender at index 1 exactly when the inputs exceed the payment, and, with
   * fractional draws, its outputs add up to its inputs.
   */
  lemma EmitOutputs(txId: (string, string, int, seq<UTXO>) -> string, keys: seq<string>, utxos: seq<UTXO>, t: nat,
                    maxInputs: int, d: Draws)
    requires ReceiversValid(d, keys) && FractionsValid(d) && |utxos| >= 1
    ensures var e := Emit(txId, utxos, t, maxInputs, d);
      var sender := Sender(utxos, t, d);
      e.Some? ==>
        var tx := e.value;
        var paid := tx.outputs[0].amount;
        tx.outputs[0] == UTXO(tx.transactionId, 0, d.receiver(t, sender), paid) &&
        paid >= 1 && 1 <= |tx.outputs| <= 2 &&
        tx.outputs[0].owner in keys && tx.outputs[0].owner != sender &&
        (|tx.outputs| == 2 <==> Sum(tx.inputs) > paid) &&
        (|tx.outputs| == 1 || tx.outputs[1] == UTXO(tx.transactionId, 1, sender, Sum(tx.inputs) - paid)) &&
        Sum(tx.outputs) == Sum(tx.inputs)
  {
    var e := Emit(txId, utxos, t, maxInputs, d);
    if e.Some? {
      var tx := e.value;
      var sender := Sender(utxos, t, d);
      var total := Sum(tx.inputs);
      assert Fraction(total, d.fraction(t, 2, total));
      var paid := tx.outputs[0].amount;
      var first := UTXO(tx.transactionId, 0, d.receiver(t, sender), paid);
      if total > paid {
        SumOfCons(first, [UTXO(tx.transactionId, 1, sender, total - paid)]);
      } else {
        SumOfCons(first, []);
      }
    }
  }

  /** What one round does with the live outputs: the loop body of `generate_transactions`. */
  type RoundFn = (seq<UTXO>, nat) --> Option<Transaction>

  /** A round can be played on any non-empty list and only spends outputs that are live. */
  ghost predicate Spends(round: RoundFn)
  {
    forall u: seq<UTXO>, t: nat :: |u| >= 1 ==>
      round.requires(u, t) && (round(u, t).Some? ==> multiset(round(u, t).value.inputs) <= multiset(u))
  }

  /** A round's transactions are also balanced and add only positive outputs. */
  ghost predicate Sound(round: RoundFn, maxInputs: int)
  {
    Spends(round) &&
    forall u: seq<UTXO>, t: nat :: |u| >= 1 && round(u, t).Some? ==>
      Balanced(round(u, t).value, maxInputs) && AllPositive(round(u, t).value.outputs)
  }

  /** One to `maxInputs` inputs, and outputs that add up to them. */
  predicate Balanced(tx: Transaction, maxInputs: int)
  {
    1 <= |tx.inputs| <= maxInputs && Sum(tx.outputs) == Sum(tx.inputs)
  }

  /** The rounds of `generate_transactions(n_txs, max_inputs)` with the given draws and id derivation. */
  function Rounds(txId: (string, string, int, seq<UTXO>) -> string, maxInputs: int, d: Draws): (r: RoundFn)
    ensures Spends(r)
  {
    forall u: seq<UTXO>, t: nat | |u| >= 1
      ensures var e := Emit(txId, u, t, maxInputs, d); e.Some? ==> multiset(e.value.inputs) <= multiset(u)
    {
      EmitInputs(txId, u, t, maxInputs, d);
    }
    (u: seq<UTXO>, t: nat) requires |u| >= 1 => Emit(txId, u, t, maxInputs, d)
  }

  lemma PairPositive(outs: seq<UTXO>)
    requires 1 <= |outs| <= 2 && outs[0].amount > 0 && (|outs| == 2 ==> outs[1].amount > 0)
    ensures AllPositive(outs)
  {
  }

  /** With a valid receiver and fractional draws, an emitted transaction is balanced and its outputs positive. */
  lemma EmitSound(txId: (string, string, int, seq<UTXO>) -> string, keys: seq<string>, utxos: seq<UTXO>, t: nat,
                  maxInputs: int, d: Draws)
    requires ReceiversValid(d, keys) && FractionsValid(d) && |utxos| >= 1
    ensures var e := Emit(txId, utxos, t, maxInputs, d);
      e.Some? ==> Balanced(e.value, maxInputs) && AllPositive(e.value.outputs)
  {
    EmitInputs(txId, utxos, t, maxInputs, d);
    EmitOutputs(txId, keys, utxos, t, maxInputs, d);
    var e := Emit(txId, utxos, t, maxInputs, d);
    if e.Some? {
      PairPositive(e.value.outputs);
    }
  }

  /** With a valid receiver and fractional draws, every round is sound. */
  lemma RoundsSound(txId: (string, string, int, seq<UTXO>) -> string, keys: seq<string>, maxInputs: int, d: Draws)
    requires ReceiversValid(d, keys) && FractionsValid(d)
    ensures Sound(Rounds(txId, maxInputs, d), maxInputs)
  {
    var round := Rounds(txId, maxInputs, d);
    forall u: seq<UTXO>, t: nat | |u| >= 1 && round(u, t).Some?
      ensures Balanced(round(u, t).value, maxInputs) && AllPositive(round(u, t).value.outputs)
    {
      RoundSound(txId, keys, maxInputs, d, u, t);
    }
  }

  lemma RoundSound(txId: (string, string, int, seq<UTXO>) -> string, keys: seq<string>, maxInputs: int, d: Draws,
                   u: seq<UTXO>, t: nat)
    requires ReceiversValid(d, keys) && FractionsValid(d) && |u| >= 1
    ensures var e := Rounds(txId, maxInputs, d)(u, t);
      e.Some? ==> Balanced(e.value, maxInputs) && AllPositive(e.value.outputs)
  {
    assert Rounds(txId, maxInputs, d)(u, t) == Emit(txId, u, t, maxInputs, d);
    EmitSound(txId, keys, u, t, maxInputs, d);
  }

  /** The live outputs after a transaction: each input removed in turn, then the new outputs appended. */
  function Apply(utxos: seq<UTXO>, tx: Transaction): seq<UTXO>
    requires multiset(tx.inputs) <= multiset(utxos)
  {
    RemoveAll(utxos, tx.inputs) + tx.outputs
  }

  /** The live outputs after the rounds t .. nTxs - 1, and the transactions recorded by then. */
  function Run(round: RoundFn, utxos: seq<UTXO>, txs: seq<Transaction>, t: nat, nTxs: int): (seq<UTXO>, seq<Transaction>)
    requires Spends(round)
    decreases if nTxs > t then nTxs - t else 0
  {
    if t >= nTxs || |utxos| < 1 then (utxos, txs)
    else
      match round(utxos, t)
      case None => Run(round, utxos, txs, t + 1, nTxs)
      case Some(tx) => Run(round, Apply(utxos, tx), txs + [tx], t + 1, nTxs)
  }

  /** Spending a transaction's inputs and adding its outputs changes the live total by outputs minus inputs. */
  lemma ApplyTotal(utxos: seq<UTXO>, tx: Transaction)
    requires multiset(tx.inputs) <= multiset(utxos)
    ensures Sum(Apply(utxos, tx)) == Sum(utxos) - Sum(tx.inputs) + Sum(tx.outputs)
    ensures multiset(Apply(utxos, tx)) == multiset(utxos) - multiset(tx.inputs) + multiset(tx.outputs)
  {
    SumRemoveAll(utxos, tx.inputs);
    SumOfAppend(RemoveAll(utxos, tx.inputs), tx.outputs);
  }

  /** With sound rounds, generating transactions never changes the total value of the live outputs. */
  lemma {:induction false} RunKeepsValue(round: RoundFn, maxInputs: int, utxos: seq<UTXO>, txs: seq<Transaction>,
                                         t: nat, nTxs: int)
    requires Sound(round, maxInputs)
    ensures Sum(Run(round, utxos, txs, t, nTxs).0) == Sum(utxos)
    decreases if nTxs > t then nTxs - t else 0
  {
    if !(t >= nTxs || |utxos| < 1) {
      var e := round(utxos, t);
      if e.Some? {
        ApplyTotal(utxos, e.value);
        RunKeepsValue(round, maxInputs, Apply(utxos, e.value), txs + [e.value], t + 1, nTxs);
      } else {
        RunKeepsValue(round, maxInputs, utxos, txs, t + 1, nTxs);
      }
    }
  }

  /** Spending inputs and adding positive outputs keeps every live amount positive. */
  lemma ApplyPositive(utxos: seq<UTXO>, tx: Transaction)
    requires multiset(tx.inputs) <= multiset(utxos) && AllPositive(utxos) && AllPositive(tx.outputs)
    ensures AllPositive(Apply(utxos, tx))
  {
    RemoveAllPositive(utxos, tx.inputs);
    var kept := RemoveAll(utxos, tx.inputs);
    var next := Apply(utxos, tx);
    assert forall k :: 0 <= k < |next| ==> next[k] == if k < |kept| then kept[k] else tx.outputs[k - |kept|];
  }

  /** If every live output is positive, it stays so. */
  lemma {:induction false} RunKeepsPositive(round: RoundFn, maxInputs: int, utxos: seq<UTXO>, txs: seq<Transaction>,
                                            t: nat, nTxs: int)
    requires Sound(round, maxInputs) && AllPositive(utxos)
    ensures AllPositive(Run(round, utxos, txs, t, nTxs).0)
    decreases if nTxs > t then nTxs - t else 0
  {
    if !(t >= nTxs || |utxos| < 1) {
      var e := round(utxos, t);
      if e.Some? {
        var tx := e.value;
        assert AllPositive(tx.outputs) && multiset(tx.inputs) <= multiset(utxos);
        ApplyPositive(utxos, tx);
        RunKeepsPositive(round, maxInputs, Apply(utxos, tx), txs + [tx], t + 1, nTxs);
      } else {
        RunKeepsPositive(round, maxInputs, utxos, txs, t + 1, nTxs);
      }
    }
  }

  /** Transactions are only ever appended: the recorded ones stay a prefix. */
  lemma {:induction false} RunKeepsRecorded(round: RoundFn, utxos: seq<UTXO>, txs: seq<Transaction>, t: nat, nTxs: int)
    requires Spends(round)
    ensures txs <= Run(round, utxos, txs, t, nTxs).1
    decreases if nTxs > t then nTxs - t else 0
  {
    if !(t >= nTxs || |utxos| < 1) {
      var e := round(utxos, t);
      if e.Some? {
        var more := txs + [e.value];
        assert Run(round, utxos, txs, t, nTxs) == Run(round, Apply(utxos, e.value), more, t + 1, nTxs);
        RunKeepsRecorded(round, Apply(utxos, e.value), more, t + 1, nTxs);
        PrefixTransitive(txs, more, Run(round, Apply(utxos, e.value), more, t + 1, nTxs).1);
      } else {
        RunKeepsRecorded(round, utxos, txs, t + 1, nTxs);
      }
    }
  }

  lemma PrefixTransitive(a: seq<Transaction>, b: seq<Transaction>, c: seq<Transaction>)
    requires a <= b && b <= c
    ensures a <= c
  {
    assert c[..|b|] == b;
    assert c[..|a|] == b[..|a|];
  }

  /** At most one transaction is recorded per remaining round. */
  lemma {:induction false} RunCount(round: RoundFn, utxos: seq<UTXO>, txs: seq<Transaction>, t: nat, nTxs: int)
    requires Spends(round)
    ensures |Run(round, utxos, txs, t, nTxs).1| <= |txs| + (if nTxs > t then nTxs - t else 0)
    decreases if nTxs > t then nTxs - t else 0
  {
    if !(t >= nTxs || |utxos| < 1) {
      var e := round(utxos, t);
      if e.Some? {
        RunCount(round, Apply(utxos, e.value), txs + [e.value], t + 1, nTxs);
      } else {
        RunCount(round, utxos, txs, t + 1, nTxs);
      }
    }
  }

  /** With sound rounds, every transaction recorded after `txs` is balanced. */
  lemma {:induction false} RunBalanced(round: RoundFn, maxInputs: int, utxos: seq<UTXO>, txs: seq<Transaction>,
                                       t: nat, nTxs: int)
    requires Sound(round, maxInputs)
    ensures var after := Run(round, utxos, txs, t, nTxs).1;
      forall k :: |txs| <= k < |after| ==> Balanced(after[k], maxInputs)
    decreases if nTxs > t then nTxs - t else 0
  {
    if !(t >= nTxs || |utxos| < 1) {
      var e := round(utxos, t);
      if e.Some? {
        var next := txs + [e.value];
        var after := Run(round, Apply(utxos, e.value), next, t + 1, nTxs).1;
        RunBalanced(round, maxInputs, Apply(utxos, e.value), next, t + 1, nTxs);
        RunKeepsRecorded(round, Apply(utxos, e.value), next, t + 1, nTxs);
        assert after[|txs|] == next[|txs|] == e.value;
      } else {
        RunBalanced(round, maxInputs, utxos, txs, t + 1, nTxs);
        assert Run(round, utxos, txs, t, nTxs) == Run(round, utxos, txs, t + 1, nTxs);
      }
    }
  }

  // ---------------------------------------------------------------------------------------
  // The generator object.

  /** The greedy input loop: takes sorted outputs until the target is covered or maxInputs are taken. */
  method SelectInputs(sorted: seq<UTXO>, target: int, maxInputs: int) returns (inputs: seq<UTXO>, total: int)
    ensures inputs == Selected(sorted, target, maxInputs)
    ensures total == Sum(inputs)
  {
    inputs := [];
    total := 0;
    var k := 0;
    while k < |sorted|
      invariant 0 <= k <= |sorted|
      invariant inputs == sorted[..k] && total == Sum(inputs)
      invariant SelectCount(sorted, target, maxInputs, k) == SelectCount(sorted, target, maxInputs, 0)
    {
      SelectCountStep(sorted, target, maxInputs, k);
      if total >= target || |inputs| >= maxInputs {
        break;
      }
      assert sorted[..k + 1] == inputs + [sorted[k]];
      assert (inputs + [sorted[k]])[..k] == inputs;
      inputs := inputs + [sorted[k]];
      total := total + sorted[k].amount;
      k := k + 1;
    }
    SelectCountStep(sorted, target, maxInputs, k);
  }

  /** `hash_generator` of the transaction text. */
  method MakeTxId(sender: string, receiver: string, amount: int, inputs: seq<UTXO>) returns (txid: string)
    ensures txid == TxId(sender, receiver, amount, inputs)
  {
    txid := HashGenerator(TxText(sender, receiver, amount, inputs));
  }

  class UTXOGenerator {
    const users: seq<User.User>
    var utxos: seq<UTXO>
    var transactions: seq<Transaction>

    constructor (users: seq<User.User>)
      ensures this.users == users && utxos == [] && transactions == []
    {
      this.users := users;
      utxos := [];
      transactions := [];
    }

    /** The users' keys, in order. */
    function Keys(): seq<string>
    {
      seq(|users|, k requires 0 <= k < |users| => users[k].publicKey)
    }

    /** The users' (key, balance) pairs, in order. */
    function Accounts(): seq<(string, int)>
      reads users
    {
      seq(|users|, k requires 0 <= k < |users| reads users => (users[k].publicKey, users[k].balance))
    }

    /** `create_genesis_utxos(n_per_user)`: `share` stands for the 10-30% draws. */
    method CreateGenesisUtxos(nPerUser: int := 3, share: (nat, nat, int) -> int)
      modifies this`utxos
      ensures utxos == GenesisFrom(GenesisId, Accounts(), 0, nPerUser, share, [])
    {
      utxos := [];
      for u := 0 to |users|
        invariant GenesisFrom(GenesisId, Accounts(), u, nPerUser, share, utxos) ==
          GenesisFrom(GenesisId, Accounts(), 0, nPerUser, share, [])
      {
        AddPieces(u, nPerUser, share);
      }
    }

    /** The body of `create_genesis_utxos` for user u: its balance split into at most nPerUser outputs. */
    method AddPieces(u: nat, nPerUser: int, share: (nat, nat, int) -> int)
      requires u < |users|
      modifies this`utxos
      ensures utxos == SplitFrom(GenesisId, users[u].publicKey, u, 0, nPerUser, users[u].balance, share, old(utxos))
    {
      var pk := users[u].publicKey;
      var remaining := users[u].balance;
      ghost var start := SplitFrom(GenesisId, pk, u, 0, nPerUser, remaining, share, utxos);
      var i: nat := 0;
      while i < nPerUser
        invariant SplitFrom(GenesisId, pk, u, i, nPerUser, remaining, share, utxos) == start
        decreases nPerUser - i
      {
        var amount;
        ghost var before := remaining;
        if i == nPerUser - 1 {
          amount := remaining;
        } else {
          amount := share(u, i, remaining);
          remaining := remaining - amount;
        }
        SplitFromStep(GenesisId, pk, u, i, nPerUser, before, share, utxos, amount, remaining);
        if amount <= 0 {
          break;
        }
        var id := MakeGenesisId(pk, i);
        utxos := utxos + [UTXO(id, i, pk, amount)];
        i := i + 1;
      }
    }

    /**
     * The draws of one round of `generate_transactions`: the sender, the receiver, the inputs
     * picked smallest first from the sender's outputs, their total, and the amount paid.
     */
    method Choose(t: nat, maxInputs: int, d: Draws)
      returns (sender: string, receiver: string, inputs: seq<UTXO>, total: int, target: int)
      requires |utxos| >= 1
      ensures sender == Sender(utxos, t, d) && receiver == d.receiver(t, sender) && OwnedBy(utxos, sender) != []
      ensures inputs == Selected(StableSort(OwnedBy(utxos, sender)), Target(OwnedBy(utxos, sender), t, d), maxInputs)
      ensures total == Sum(inputs) && target == Paid(Target(OwnedBy(utxos, sender), t, d), total, t, d)
    {
      var seedUtxo := utxos[d.seed(t) % |utxos|];
      sender := seedUtxo.owner;
      var owned := OwnedBy(utxos, sender);
      assert seedUtxo in owned;
      receiver := d.receiver(t, sender);
      target := if d.large(t) then d.fraction(t, 0, Sum(owned)) else d.fraction(t, 1, owned[0].amount);
      assert target == Target(owned, t, d);
      var sorted := StableSort(owned);
      inputs, total := SelectInputs(sorted, target, maxInputs);
      if total < target {
        target := d.fraction(t, 2, total);
      }
    }

    /** One round of `generate_transactions` up to building the transaction; the live outputs are not touched. */
    method Attempt(t: nat, maxInputs: int, d: Draws) returns (tx: Option<Transaction>)
      requires |utxos| >= 1
      ensures tx == Emit(TxId, utxos, t, maxInputs, d)
    {
      var sender, receiver, inputs, total, target := Choose(t, maxInputs, d);
      if target < 1 || |inputs| == 0 {
        return None;
      }
      var txid := MakeTxId(sender, receiver, target, inputs);
      var change := total - target;
      var outputs := [UTXO(txid, 0, receiver, target)];
      if change > 0 {
        outputs := outputs + [UTXO(txid, 1, sender, change)];
      }
      assert outputs == Outputs(txid, sender, receiver, target, change);
      return Some(Transaction(txid, inputs, outputs));
    }

    /** Removes each input from the live outputs, one at a time, in order. */
    method RemoveInputs(inputs: seq<UTXO>)
      requires multiset(inputs) <= multiset(utxos)
      modifies this`utxos
      ensures utxos == RemoveAll(old(utxos), inputs)
    {
      var k := 0;
      while k < |inputs|
        invariant 0 <= k <= |inputs|
        invariant multiset(inputs[k..]) <= multiset(utxos)
        invariant RemoveAll(utxos, inputs[k..]) == RemoveAll(old(utxos), inputs)
      {
        RemoveAllStep(utxos, inputs[k..]);
        assert inputs[k..][1..] == inputs[k + 1..];
        utxos := RemoveFirst(utxos, inputs[k]);
        k := k + 1;
      }
      assert inputs[k..] == [];
    }

    /**
     * `generate_transactions(n_txs, max_inputs)`. When a round is played (some rounds are asked
     * for and some output is live), the receiver draw must name another user's key.
     */
    method GenerateTransactions(nTxs: int := 1000, maxInputs: int := 3, d: Draws)
      requires nTxs > 0 && |utxos| >= 1 ==> ReceiversValid(d, Keys())
      modifies this`utxos, this`transactions
      ensures (utxos, transactions) == Run(Rounds(TxId, maxInputs, d), old(utxos), old(transactions), 0, nTxs)
    {
      ghost var round := Rounds(TxId, maxInputs, d);
      var t := 0;
      while t < nTxs
        invariant Run(round, utxos, transactions, t, nTxs) == Run(round, old(utxos), old(transactions), 0, nTxs)
        decreases nTxs - t
      {
        if |utxos| < 1 {
          break;
        }
        PlayRound(t, maxInputs, d);
        t := t + 1;
      }
    }

    /** One pass of the loop of `generate_transactions` once some output is live: round t's transaction, if any, is applied and recorded. */
    method PlayRound(t: nat, maxInputs: int, d: Draws)
      requires |utxos| >= 1
      modifies this`utxos, this`transactions
      ensures match Rounds(TxId, maxInputs, d)(old(utxos), t)
        case None => utxos == old(utxos) && transactions == old(transactions)
        case Some(tx) =>
          multiset(tx.inputs) <= multiset(old(utxos)) &&
          utxos == Apply(old(utxos), tx) && transactions == old(transactions) + [tx]
    {
      ghost var round := Rounds(TxId, maxInputs, d);
      var tx := Attempt(t, maxInputs, d);
      assert tx == round(utxos, t);
      if tx.Some? {
        RemoveInputs(tx.value.inputs);
        transactions := transactions + [tx.value];
        utxos := utxos + tx.value.outputs;
      }
    }
  }

  /** The id of genesis output i of key pk: the hash of "genesis-", the key, "-" and i. */
  method MakeGenesisId(pk: string, i: int) returns (id: string)
    ensures id == GenesisId(pk, i)
  {
    id := HashGenerator("genesis-" + pk + "-" + IntToString(i));
  }
}
