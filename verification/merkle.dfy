/**
 * `compute_merkle_root_from_tx_list`: one leaf digest per transaction record, then levels
 * paired left to right (an odd last node is paired with itself) until one digest remains.
 */
module Merkle {
  import opened Wrappers
  import opened Strings
  import opened Hash

  /**
   * An element of the transaction list: a record (a Python dict read from the transaction
   * CSV, every value a string) or anything else.
   */
  datatype Item = Record(fields: map<string, string>) | NonRecord

  datatype MerkleError =
    | NoneInput      // `tx_list` is None: ValueError
    | NotARecord     // an element is not a dict: TypeError
    | NoLeaves       // the list is empty: ValueError

  /** What the function returns: the root alone, or with `show_tree` the root and every level. */
  datatype MerkleOutput =
    | RootOnly(root: string)
    | RootWithLevels(root: string, levels: seq<seq<string>>)

  /** A field of the record, or the empty string when it is missing. */
  function Get(fields: map<string, string>, key: string): string
  {
    if key in fields then fields[key] else ""
  }

  /** The non-empty parts, in order. */
  function NonEmpty(parts: seq<string>): (r: seq<string>)
    ensures forall i :: 0 <= i < |r| ==> r[i] != ""
    ensures |r| <= |parts|
    ensures forall p {:trigger multiset(r)[p]} :: multiset(r)[p] == if p == "" then 0 else multiset(parts)[p]
  {
    if parts == [] then []
    else
      assert parts == [parts[0]] + parts[1..];
      if parts[0] == "" then NonEmpty(parts[1..])
      else [parts[0]] + NonEmpty(parts[1..])
  }

  /** Filtering keeps the order: the filter of a concatenation is the concatenation of the filters. */
  lemma {:induction false} NonEmptyAppend(a: seq<string>, b: seq<string>)
    ensures NonEmpty(a + b) == NonEmpty(a) + NonEmpty(b)
  {
    if a != [] {
      NonEmptyAppend(a[1..], b);
      assert (a + b)[1..] == a[1..] + b;
    } else {
      assert a + b == b;
    }
  }

  /** The input references of a record: the non-empty `;`-separated pieces of its `inputs`. */
  function InputRefs(fields: map<string, string>): (r: seq<string>)
    ensures forall i :: 0 <= i < |r| ==> r[i] != "" && ';' !in r[i]
    ensures forall p {:trigger multiset(r)[p]} :: multiset(r)[p] == if p == "" then 0 else multiset(Split(Get(fields, "inputs"), ';'))[p]
  {
    var inputs := Get(fields, "inputs");
    var pieces := if inputs != "" then Split(inputs, ';') else [];
    NonEmptyFromPieces(pieces, ';');
    NonEmpty(pieces)
  }

  lemma {:induction false} NonEmptyFromPieces(pieces: seq<string>, sep: char)
    requires forall i :: 0 <= i < |pieces| ==> sep !in pieces[i]
    ensures forall i :: 0 <= i < |NonEmpty(pieces)| ==> sep !in NonEmpty(pieces)[i]
  {
    if pieces != [] {
      NonEmptyFromPieces(pieces[1..], sep);
    }
  }

  /** The fields of the leaf string, in order. */
  function LeafParts(fields: map<string, string>): seq<string>
  {
    [Get(fields, "sender"), Get(fields, "receiver"), Get(fields, "amount")] + InputRefs(fields)
  }

  /** The parts of `_leaf_hash` joined by `|`. */
  function LeafString(fields: map<string, string>): string
  {
    Join('|', LeafParts(fields))
  }

  /** `_leaf_hash(item)`. */
  function LeafHash(item: Item): Result<string, MerkleError>
  {
    match item
    case NonRecord => Err(NotARecord)
    case Record(fields) => Ok(Digest(LeafString(fields)))
  }

  /** `_leaf_hash` of every element, in order: fails as soon as one element is not a record. */
  function Leaves(items: seq<Item>): (r: Result<seq<string>, MerkleError>)
    ensures r.Ok? <==> forall i :: 0 <= i < |items| ==> items[i].Record?
    ensures r.Err? ==> r.error == NotARecord
    ensures r.Ok? ==> |r.value| == |items|
    ensures r.Ok? ==> forall i :: 0 <= i < |items| ==> r.value[i] == Digest(LeafString(items[i].fields))
  {
    if items == [] then Ok([])
    else
      match LeafHash(items[0])
      case Err(e) => Err(e)
      case Ok(h) =>
        match Leaves(items[1..])
        case Err(e) => Err(e)
        case Ok(rest) => Ok([h] + rest)
  }

  /** `left + right` for the pair starting at position i; an odd last node pairs with itself. */
  function PairText(level: seq<string>, i: nat): string
    requires i < |level|
  {
    var left := level[i];
    var right := if i + 1 < |level| then level[i + 1] else left;
    left + right
  }

  /** The parent of the pair starting at position i. */
  function Parent(level: seq<string>, i: nat): string
    requires i < |level|
  {
    Digest(PairText(level, i))
  }

  /** The level above `level` for a node hash h: the hashes of its pairs, left to right. */
  function NextLevelBy(h: string -> string, level: seq<string>): (r: seq<string>)
    ensures |r| == (|level| + 1) / 2
  {
    if |level| == 0 then []
    else if |level| == 1 then [h(level[0] + level[0])]
    else [h(level[0] + level[1])] + NextLevelBy(h, level[2..])
  }

  /** The level above `level`: the parents of its pairs, left to right. */
  function NextLevel(level: seq<string>): (r: seq<string>)
    ensures |r| == (|level| + 1) / 2
  {
    NextLevelBy(Digest, level)
  }

  /** Entry j of the level above is the hash of the pair at 2j, whatever the node hash. */
  lemma {:induction false} NextLevelByAt(h: string -> string, level: seq<string>, j: nat)
    requires j < (|level| + 1) / 2
    ensures NextLevelBy(h, level)[j] == h(PairText(level, 2 * j))
  {
    if j > 0 {
      assert NextLevelBy(h, level)[j] == NextLevelBy(h, level[2..])[j - 1];
      NextLevelByAt(h, level[2..], j - 1);
      assert PairText(level[2..], 2 * (j - 1)) == PairText(level, 2 * j);
    }
  }

  /** Entry j of the next level is the parent of the pair at 2j. */
  lemma NextLevelAt(level: seq<string>, j: nat)
    requires j < (|level| + 1) / 2
    ensures NextLevel(level)[j] == Parent(level, 2 * j)
  {
    NextLevelByAt(Digest, level, j);
  }

  /** The root above `level`. */
  function RootOf(level: seq<string>): string
    requires |level| >= 1
    decreases |level|
  {
    if |level| == 1 then level[0] else RootOf(NextLevel(level))
  }

  /** Every level from `level` up to the root, leaves first. */
  function LevelsOf(level: seq<string>): (r: seq<seq<string>>)
    requires |level| >= 1
    ensures |r| >= 1 && r[0] == level
    decreases |level|
  {
    if |level| == 1 then [level] else [level] + LevelsOf(NextLevel(level))
  }

  /**
   * The levels of the tree: every level but the last has more than one digest and the next
   * level is built from it; the last level is the root alone.
   */
  lemma {:induction false} LevelsShape(level: seq<string>)
    requires |level| >= 1
    ensures var r := LevelsOf(level);
      r[|r| - 1] == [RootOf(level)] &&
      forall i :: 0 <= i < |r| - 1 ==> |r[i]| > 1 && r[i + 1] == NextLevel(r[i])
    decreases |level|
  {
    if |level| > 1 {
      var next := NextLevel(level);
      LevelsShape(next);
      var r, above := LevelsOf(level), LevelsOf(next);
      assert r == [level] + above;
      forall i | 0 <= i < |r| - 1
        ensures |r[i]| > 1 && r[i + 1] == NextLevel(r[i])
      {
        if i > 0 {
          assert r[i] == above[i - 1] && r[i + 1] == above[i];
        }
      }
    }
  }

  /** `DEFAULT_TREE`: by default only the root is computed. */
  const DefaultTree: bool := false

  /** The result of `compute_merkle_root_from_tx_list(tx_list, show_tree)`. */
  function Commit(txList: Option<seq<Item>>, showTree: bool := DefaultTree): Result<MerkleOutput, MerkleError>
  {
    if txList.None? then Err(NoneInput)
    else
      match Leaves(txList.value)
      case Err(e) => Err(e)
      case Ok(leaves) =>
        if |leaves| == 0 then Err(NoLeaves)
        else if showTree then Ok(RootWithLevels(RootOf(leaves), LevelsOf(leaves)))
        else Ok(RootOnly(RootOf(leaves)))
  }

  /** The inner `for` loop shared by both modes: builds `next_level` by appending parents. */
  method PairUp(level: seq<string>) returns (next: seq<string>)
    ensures next == NextLevel(level)
    ensures |next| == (|level| + 1) / 2
  {
    next := [];
    var i := 0;
    while i < |level|
      invariant i % 2 == 0 && 0 <= i <= |level| + 1
      invariant next + NextLevel(level[if i <= |level| then i else |level|..]) == NextLevel(level)
    {
      var left := level[i];
      var right := if i + 1 < |level| then level[i + 1] else left;
      var parent := HashGenerator(left + right);
      ghost var rest := level[i..];
      if i + 1 < |level| {
        assert rest[2..] == level[i + 2..];
      } else {
        assert level[|level|..] == [];
      }
      next := next + [parent];
      i := i + 2;
    }
  }

  /** `_compute_root_min`: replaces the current level by the next until one digest is left. */
  method ComputeRootMin(leaves: seq<string>) returns (root: string)
    requires |leaves| >= 1
    ensures root == RootOf(leaves)
  {
    var current := leaves;
    while |current| > 1
      invariant |current| >= 1
      invariant RootOf(current) == RootOf(leaves)
      decreases |current|
    {
      current := PairUp(current);
    }
    root := current[0];
  }

  /** The `show_tree` branch: the same loop, appending a copy of every level to `levels`. */
  method ComputeLevels(leaves: seq<string>) returns (root: string, levels: seq<seq<string>>)
    requires |leaves| >= 1
    ensures root == RootOf(leaves) && levels == LevelsOf(leaves)
  {
    ghost var all := LevelsOf(leaves);
    LevelsShape(leaves);
    levels := [leaves];
    var current := leaves;
    while |current| > 1
      invariant 1 <= |levels| <= |all|
      invariant levels == all[..|levels|]
      invariant current == levels[|levels| - 1]
      invariant |levels| < |all| <==> |current| > 1
      decreases |all| - |levels|
    {
      var next := PairUp(current);
      assert next == all[|levels|];
      assert all[..|levels| + 1] == levels + [next];
      levels := levels + [next];
      current := next;
    }
    assert levels == all;
    root := current[0];
  }

  /** `compute_merkle_root_from_tx_list(tx_list, show_tree)`. */
  method ComputeMerkleRootFromTxList(txList: Option<seq<Item>>, showTree: bool := DefaultTree)
    returns (r: Result<MerkleOutput, MerkleError>)
    ensures r == Commit(txList, showTree)
  {
    if txList.None? {
      return Err(NoneInput);
    }
    var leaves := Leaves(txList.value);
    if leaves.Err? {
      return Err(leaves.error);
    }
    if |leaves.value| == 0 {
      return Err(NoLeaves);
    }
    if !showTree {
      var root := ComputeRootMin(leaves.value);
      return Ok(RootOnly(root));
    }
    var root, levels := ComputeLevels(leaves.value);
    return Ok(RootWithLevels(root, levels));
  }

  // ---------------------------------------------------------------------------------------
  // Properties of the commitment.

  /** The function fails exactly on None, on a non-record element, and on an empty list. */
  lemma CommitFails(txList: Option<seq<Item>>, showTree: bool)
    ensures Commit(txList, showTree) == Err(NoneInput) <==> txList.None?
    ensures Commit(txList, showTree) == Err(NotARecord)
        <==> txList.Some? && exists i :: 0 <= i < |txList.value| && txList.value[i].NonRecord?
    ensures Commit(txList, showTree) == Err(NoLeaves) <==> txList == Some([])
  {
  }

  /** Both modes return the same root for the same input, and fail alike. */
  lemma ModesAgree(txList: Option<seq<Item>>)
    ensures Commit(txList, false).Err? <==> Commit(txList, true).Err?
    ensures Commit(txList, false).Err? ==> Commit(txList, false) == Commit(txList, true)
    ensures Commit(txList, false).Ok? ==> Commit(txList, false).value.root == Commit(txList, true).value.root
  {
  }

  /** Tree mode on a non-empty list of records: level 0 is the leaves, each level halves (rounding up), the last is the root alone. */
  lemma TreeShape(items: seq<Item>)
    requires |items| >= 1 && forall i :: 0 <= i < |items| ==> items[i].Record?
    ensures var out := Commit(Some(items), true).value;
      var levels := out.levels;
      |levels| >= 1 && Leaves(items) == Ok(levels[0]) &&
      (forall i :: 0 <= i < |levels| - 1 ==> |levels[i + 1]| == (|levels[i]| + 1) / 2) &&
      levels[|levels| - 1] == [out.root]
  {
    var leaves := Leaves(items).value;
    assert Leaves(items) == Ok(leaves) && |leaves| >= 1;
    assert Commit(Some(items), true) == Ok(RootWithLevels(RootOf(leaves), LevelsOf(leaves)));
    LevelsShape(leaves);
  }

  /** A single-record batch's root is that record's leaf digest: no pairing step runs. */
  lemma SingleLeafRoot(item: Item)
    requires item.Record?
    ensures Commit(Some([item]), false) == Ok(RootOnly(Digest(LeafString(item.fields))))
  {
    assert [item][1..] == [];
  }

  /** Three leaves [a, b, c]: the odd c pairs with itself. */
  lemma OddCarry(a: string, b: string, c: string)
    ensures NextLevel([a, b, c]) == [Digest(a + b), Digest(c + c)]
    ensures RootOf([a, b, c]) == Digest(Digest(a + b) + Digest(c + c))
  {
    var p, q := Digest(a + b), Digest(c + c);
    assert [a, b, c][2..] == [c];
    assert NextLevel([c]) == [q];
    assert NextLevel([a, b, c]) == [p] + [q] == [p, q];
    assert [p, q][2..] == [];
    assert NextLevel([p, q]) == [Digest(p + q)];
    assert RootOf([p, q]) == RootOf([Digest(p + q)]);
  }

  /** Records without `inputs` hash `sender|receiver|amount`, with no trailing separator. */
  lemma LeafWithoutInputs(fields: map<string, string>)
    requires Get(fields, "inputs") == ""
    ensures LeafString(fields) ==
      Get(fields, "sender") + "|" + Get(fields, "receiver") + "|" + Get(fields, "amount")
  {
    var s, r, a := Get(fields, "sender"), Get(fields, "receiver"), Get(fields, "amount");
    assert LeafParts(fields) == [s, r, a];
    assert [s, r, a][1..] == [r, a] && [r, a][1..] == [a];
    assert Join('|', [r, a]) == r + "|" + a;
    assert Join('|', [s, r, a]) == s + "|" + (r + "|" + a);
  }

  /**
   * The leaf string splits back on `|` into sender, receiver, amount and the non-empty
   * input references, when none of the three fields contains `|`.
   */
  lemma LeafStringFields(fields: map<string, string>)
    requires '|' !in Get(fields, "sender") && '|' !in Get(fields, "receiver")
    requires '|' !in Get(fields, "amount") && '|' !in Get(fields, "inputs")
    ensures Split(LeafString(fields), '|') == LeafParts(fields)
  {
    var inputs := Get(fields, "inputs");
    var pieces := if inputs != "" then Split(inputs, ';') else [];
    forall i | 0 <= i < |pieces|
      ensures '|' !in pieces[i]
    {
      SplitPiecesWithin(inputs, ';', '|', i);
    }
    NonEmptyFromPieces(pieces, '|');
    SplitJoin(LeafParts(fields), '|');
  }

  /** A piece of a split string holds no character the string did not hold. */
  lemma {:induction false} SplitPiecesWithin(s: string, sep: char, c: char, i: nat)
    requires c !in s && i < |Split(s, sep)|
    ensures c !in Split(s, sep)[i]
  {
    if s != [] {
      var rest := Split(s[1..], sep);
      if s[0] == sep {
        if i > 0 { SplitPiecesWithin(s[1..], sep, c, i - 1); }
      } else if i == 0 {
        SplitPiecesWithin(s[1..], sep, c, 0);
      } else {
        SplitPiecesWithin(s[1..], sep, c, i);
      }
    }
  }

  /** A one-record batch without inputs has the digest of `sender|receiver|amount` as its root. */
  lemma SingleRecordExample(sender: string, receiver: string, amount: string)
    ensures Commit(Some([Record(map["sender" := sender, "receiver" := receiver, "amount" := amount])]), false)
         == Ok(RootOnly(Digest(sender + "|" + receiver + "|" + amount)))
  {
    var fields := map["sender" := sender, "receiver" := receiver, "amount" := amount];
    LeafWithoutInputs(fields);
    SingleLeafRoot(Record(fields));
  }
}
