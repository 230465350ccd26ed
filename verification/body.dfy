/**
 * `BlockBody`: a batch of transaction records and its Merkle root. The dataclass
 * constructor and `__post_init__` are modelled together by `Create`, which fills in the
 * root from the transactions when none is supplied.
 */
module Body {
  import opened Wrappers
  import Merkle

  datatype BodyError =
    | NoTransactions                     // `transactions` is None: ValueError
    | MerkleFailed(cause: Merkle.MerkleError)  // raised by the Merkle builder, propagated

  /** `to_dict()`: the two stored fields. */
  datatype BodyRecord = BodyRecord(transactions: seq<Merkle.Item>, merkleRoot: string)

  /** The root `__post_init__` would compute: `compute_merkle_root_from_tx_list(transactions)`. */
  function ComputedRoot(transactions: seq<Merkle.Item>): Result<string, Merkle.MerkleError>
  {
    match Merkle.Commit(Some(transactions))
    case Ok(out) => Ok(out.root)
    case Err(e) => Err(e)
  }

  class BlockBody {
    var transactions: seq<Merkle.Item>
    var merkleRoot: string

    constructor (transactions: seq<Merkle.Item>, merkleRoot: string)
      ensures this.transactions == transactions && this.merkleRoot == merkleRoot
    {
      this.transactions := transactions;
      this.merkleRoot := merkleRoot;
    }

    /**
     * `BlockBody(transactions, merkle_root)`: rejects None, keeps a supplied root as given
     * (unchecked), and otherwise computes the root, propagating the builder's errors.
     */
    static method Create(transactions: Option<seq<Merkle.Item>>, merkleRoot: Option<string>)
      returns (r: Result<BlockBody, BodyError>)
      ensures transactions.None? ==> r == Err(NoTransactions)
      ensures transactions.Some? && merkleRoot.Some? ==>
        r.Ok? && fresh(r.value) && r.value.ToDict() == BodyRecord(transactions.value, merkleRoot.value)
      ensures transactions.Some? && merkleRoot.None? ==>
        match ComputedRoot(transactions.value)
        case Ok(root) => r.Ok? && fresh(r.value) && r.value.ToDict() == BodyRecord(transactions.value, root)
        case Err(e) => r == Err(MerkleFailed(e))
    {
      if transactions.None? {
        return Err(NoTransactions);
      }
      var root: string;
      if merkleRoot.None? {
        var out := Merkle.ComputeMerkleRootFromTxList(transactions);
        if out.Err? {
          return Err(MerkleFailed(out.error));
        }
        root := out.value.root;
      } else {
        root := merkleRoot.value;
      }
      var body := new BlockBody(transactions.value, root);
      return Ok(body);
    }

    /** `to_dict()`. */
    function ToDict(): (d: BodyRecord)
      reads this
      ensures d.transactions == transactions && d.merkleRoot == merkleRoot
    {
      BodyRecord(transactions, merkleRoot)
    }
  }

  /** With no root supplied, an empty batch is refused with the builder's "no leaves" error. */
  lemma EmptyBatchRefused()
    ensures ComputedRoot([]) == Err(Merkle.NoLeaves)
  {
  }

  /** A computed root is the Merkle root of the batch, so header and body commit to the same batch. */
  lemma ComputedRootIsTreeRoot(transactions: seq<Merkle.Item>)
    requires ComputedRoot(transactions).Ok?
    ensures Merkle.Leaves(transactions).Ok? && |transactions| >= 1
    ensures ComputedRoot(transactions).value == Merkle.RootOf(Merkle.Leaves(transactions).value)
  {
  }
}
