/** A ledger user: a name, an 8-character public key and an integer balance that never goes negative by adjustment. */
module User {
  import opened Wrappers

  datatype BalanceError = InsufficientFunds(balance: int, amount: int)   // ValueError

  /** The dictionary `to_dict` returns. */
  datatype UserRecord = UserRecord(name: string, publicKey: string, balance: int)

  /** The outcome of adding `amount` to `balance` under `adjust_balance`'s guard. */
  function Adjusted(balance: int, amount: int): (r: Result<int, BalanceError>)
    ensures r.Ok? <==> balance + amount >= 0
    ensures r.Ok? ==> r.value == balance + amount && r.value >= 0
    ensures r.Err? ==> r.error == InsufficientFunds(balance, amount)
  {
    if balance + amount < 0 then Err(InsufficientFunds(balance, amount)) else Ok(balance + amount)
  }

  class User {
    const name: string
    const publicKey: string
    var balance: int

    constructor (name: string, publicKey: string, balance: int)
      ensures this.name == name && this.publicKey == publicKey && this.balance == balance
    {
      this.name := name;
      this.publicKey := publicKey;
      this.balance := balance;
    }

    /** `to_dict()`: the three fields, unchanged. */
    function ToDict(): (d: UserRecord)
      reads this
      ensures d.name == name && d.publicKey == publicKey && d.balance == balance
    {
      UserRecord(name, publicKey, balance)
    }

    /** `adjust_balance(amount)`: refuses a change that would take the balance below zero. */
    method AdjustBalance(amount: int) returns (r: Result<(), BalanceError>)
      modifies this`balance
      ensures r.Ok? <==> Adjusted(old(balance), amount).Ok?
      ensures r.Ok? ==> balance == Adjusted(old(balance), amount).value
      ensures r.Err? ==> r.error == Adjusted(old(balance), amount).error && balance == old(balance)
      ensures balance >= 0 || balance == old(balance)
    {
      if balance + amount < 0 {
        return Err(InsufficientFunds(balance, amount));
      }
      balance := balance + amount;
      return Ok(());
    }
  }

  /** Adjusting a non-negative balance by `amount` and then by `-amount` restores it. */
  lemma AdjustUndo(balance: int, amount: int)
    requires balance >= 0 && Adjusted(balance, amount).Ok?
    ensures Adjusted(Adjusted(balance, amount).value, -amount) == Ok(balance)
  {
  }

  /** The balance after applying `adjust_balance` with each amount in turn, skipping the refused ones. */
  function AdjustAll(balance: int, amounts: seq<int>): int
    decreases |amounts|
  {
    if amounts == [] then balance
    else
      var next := Adjusted(balance, amounts[0]);
      AdjustAll(if next.Ok? then next.value else balance, amounts[1..])
  }

  /** From a non-negative balance, any sequence of adjustments keeps it non-negative. */
  lemma {:induction false} AdjustAllNonNegative(balance: int, amounts: seq<int>)
    requires balance >= 0
    ensures AdjustAll(balance, amounts) >= 0
    decreases |amounts|
  {
    if amounts != [] {
      var next := Adjusted(balance, amounts[0]);
      AdjustAllNonNegative(if next.Ok? then next.value else balance, amounts[1..]);
    }
  }
}
