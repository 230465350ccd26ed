/**
 * `UserGenerator`: builds `n` users named "#i First Last", keyed by the hash of the name,
 * with balances drawn from [min_bal, max_bal]. The random choices are parameters.
 */
module UserGenerator {
  import opened Wrappers
  import opened Strings
  import opened Hash
  import User

  datatype GenerateError = EmptyBalanceRange   // `random.randint` raises ValueError when min_bal > max_bal

  const FirstNames: seq<string> :=
    ["Aistis", "Benas", "Domas", "Jokubas", "Fabrielius", "Algirdas", "Jonas", "Kęstutis", "Linas", "Mindaugas"]
  const LastNames: seq<string> :=
    ["Kazlauskas", "Petraitis", "Jankauskas", "Stankevičius", "Paulauskas", "Vilkas", "Bublys", "Baronas"]

  /** The display name of user `idx`. */
  function NameOf(idx: int, first: string, last: string): string
  {
    "#" + IntToString(idx) + " " + first + " " + last
  }

  class UserGenerator {
    const n: int
    const minBal: int
    const maxBal: int
    const firstNames: seq<string>
    const lastNames: seq<string>
    var users: seq<User.User>

    constructor (nUsers: int := 1000, minBal: int := 100, maxBal: int := 1_000_000)
      ensures n == nUsers && this.minBal == minBal && this.maxBal == maxBal && users == []
      ensures firstNames == FirstNames && lastNames == LastNames
    {
      n := nUsers;
      this.minBal := minBal;
      this.maxBal := maxBal;
      users := [];
      firstNames := FirstNames;
      lastNames := LastNames;
    }

    /** `_make_name(idx)`: `firstPick` and `lastPick` are the positions `random.choice` draws. */
    method MakeName(idx: int, firstPick: nat, lastPick: nat) returns (name: string)
      requires firstPick < |firstNames| && lastPick < |lastNames|
      ensures name == NameOf(idx, firstNames[firstPick], lastNames[lastPick])
    {
      name := "#" + IntToString(idx) + " " + firstNames[firstPick] + " " + lastNames[lastPick];
    }

    /** `_make_public_key_8(name)`: the hash of the name, 8 lowercase hex characters. */
    method MakePublicKey8(name: string) returns (pk: string)
      ensures pk == Digest(name)
      ensures |pk| == 8 && forall i :: 0 <= i < 8 ==> pk[i] in HexAlphabet
    {
      pk := HashGenerator(name);
    }

    /** `_make_balance()`: `draw` is the value `random.randint` returns when the range is not empty. */
    method MakeBalance(draw: int) returns (r: Result<int, GenerateError>)
      requires minBal <= maxBal ==> minBal <= draw <= maxBal
      ensures r.Ok? <==> minBal <= maxBal
      ensures r.Ok? ==> r.value == draw && minBal <= r.value <= maxBal
      ensures r.Err? ==> r.error == EmptyBalanceRange
    {
      if minBal > maxBal {
        return Err(EmptyBalanceRange);
      }
      return Ok(draw);
    }

    /** What user number i (1-based) is built from, given the draws. */
    predicate Built(u: User.User, i: int, firstPick: int -> nat, lastPick: int -> nat, balanceDraw: int -> int)
      reads u
      requires 1 <= i <= n
      requires firstPick(i) < |firstNames| && lastPick(i) < |lastNames|
    {
      u.name == NameOf(i, firstNames[firstPick(i)], lastNames[lastPick(i)]) &&
      u.publicKey == Digest(u.name) &&
      u.balance == balanceDraw(i) && minBal <= u.balance <= maxBal
    }

    /**
     * `generate()`: empties `users`, then appends users 1..n in order. When the balance range is
     * empty the first balance draw raises, leaving `users` empty.
     */
    method Generate(firstPick: int -> nat, lastPick: int -> nat, balanceDraw: int -> int)
      returns (r: Result<seq<User.User>, GenerateError>)
      requires forall i :: 1 <= i <= n ==> firstPick(i) < |firstNames| && lastPick(i) < |lastNames|
      requires forall i :: 1 <= i <= n && minBal <= maxBal ==> minBal <= balanceDraw(i) <= maxBal
      modifies this`users
      ensures n >= 1 && minBal > maxBal ==> r == Err(EmptyBalanceRange) && users == []
      ensures !(n >= 1 && minBal > maxBal) ==>
        r == Ok(users) && |users| == (if n < 0 then 0 else n) &&
        forall k :: 0 <= k < |users| ==>
          fresh(users[k]) && Built(users[k], k + 1, firstPick, lastPick, balanceDraw)
    {
      users := [];
      var i := 1;
      while i <= n
        invariant 1 <= i <= (if n >= 0 then n + 1 else 1) && |users| == i - 1
        invariant minBal > maxBal ==> i == 1
        invariant forall k :: 0 <= k < |users| ==>
          fresh(users[k]) && Built(users[k], k + 1, firstPick, lastPick, balanceDraw)
      {
        var name := MakeName(i, firstPick(i), lastPick(i));
        var pk := MakePublicKey8(name);
        var bal := MakeBalance(balanceDraw(i));
        if bal.Err? {
          return Err(bal.error);
        }
        var u := new User.User(name, pk, bal.value);
        assert Built(u, i, firstPick, lastPick, balanceDraw);
        users := users + [u];
        i := i + 1;
      }
      return Ok(users);
    }
  }

  /** With names free of spaces, splitting a user name on ' ' gives "#idx", the first and the last name. */
  lemma NameSplitsBack(idx: int, first: string, last: string)
    requires ' ' !in first && ' ' !in last
    ensures Split(NameOf(idx, first, last), ' ') == ["#" + IntToString(idx), first, last]
  {
    var tag := "#" + IntToString(idx);
    assert ' ' !in tag by {
      assert forall k :: 1 <= k < |tag| ==> tag[k] == IntToString(idx)[k - 1];
    }
    JoinThree(tag, first, last);
    SplitJoin([tag, first, last], ' ');
  }

  lemma JoinThree(a: string, b: string, c: string)
    ensures Join(' ', [a, b, c]) == a + " " + b + " " + c
  {
    assert [b, c][1..] == [c];
    assert Join(' ', [c]) == c;
    assert Join(' ', [b, c]) == b + " " + c;
    assert [a, b, c][1..] == [b, c];
  }

  /** Different user numbers give different names, whatever names are drawn. */
  lemma NamesDistinct(i: int, j: int, f1: string, l1: string, f2: string, l2: string)
    requires i >= 0 && j >= 0 && i != j
    requires ' ' !in f1 && ' ' !in l1 && ' ' !in f2 && ' ' !in l2
    ensures NameOf(i, f1, l1) != NameOf(j, f2, l2)
  {
    NameSplitsBack(i, f1, l1);
    NameSplitsBack(j, f2, l2);
    var ti, tj := IntToString(i), IntToString(j);
    assert ("#" + ti)[1..] == ti && ("#" + tj)[1..] == tj;
    NatToStringRoundTrip(i);
    NatToStringRoundTrip(j);
    assert ti != tj;
  }

  /** None of the fixed first and last names contains a space. */
  lemma FixedNamesHaveNoSpaces()
    ensures forall k :: 0 <= k < |FirstNames| ==> ' ' !in FirstNames[k]
    ensures forall k :: 0 <= k < |LastNames| ==> ' ' !in LastNames[k]
  {
  }
}
