/**
 * The sequential parts of the mining coordinator: the block record written to the chain, one
 * candidate's nonce/tries step, the write-once winner claim, a candidate's mining loop with its
 * deadline as a step budget, and the retry schedule of the main loop with each parallel round
 * as an oracle.
 */
module Mining {
  import opened Wrappers
  import opened Strings
  import opened Hash
  import Merkle
  import Header

  // ---------------------------------------------------------------------------------------
  // The block record.

  /** The `"header"` entry of a block record. */
  datatype HeaderRecord = HeaderRecord(prevHash: string, timestamp: int, version: int, merkleRoot: string,
                                       nonce: int, difficulty: int, serialize: string)

  /** The `"body"` entry of a block record. */
  datatype BodyRecord = BodyRecord(merkleRoot: string, transactionsCount: nat, transactions: seq<Merkle.Item>)

  /** The dictionary `build_block_dict` returns. */
  datatype BlockRecord = BlockRecord(blockHash: string, header: HeaderRecord, body: BodyRecord)

  /** The separator between the serialized header and the block hash in the `serialize` entry. */
  const Arrow: string := " ---> "

  /**
   * `build_block_dict(header, block_hash)`: the header's fields, its serialization followed by the
   * block hash, and the attached transactions with their count.
   */
  function BuildBlockDict(h: Header.BlockHeader, blockHash: string): (b: BlockRecord)
    reads h
    ensures b.blockHash == blockHash
    ensures b.header.serialize == h.Serialize() + Arrow + blockHash
    ensures b.header == HeaderRecord(h.prevHash, h.timestamp, h.version, h.merkleRoot, h.nonce, h.difficulty,
                                     b.header.serialize)
    ensures b.body.merkleRoot == b.header.merkleRoot
    ensures b.body.transactions == h.txs && b.body.transactionsCount == |b.body.transactions|
  {
    var txs := h.txs;
    var serialize := h.prevHash + "|" + IntToString(h.timestamp) + "|" + IntToString(h.version) + "|"
      + h.merkleRoot + "|" + IntToString(h.nonce) + "|" + IntToString(h.difficulty);
    BlockRecord(
      blockHash,
      HeaderRecord(h.prevHash, h.timestamp, h.version, h.merkleRoot, h.nonce, h.difficulty,
                   serialize + " ---> " + blockHash),
      BodyRecord(h.merkleRoot, |txs|, txs))
  }

  /**
   * For a non-genesis header recorded with its own hash, the `serialize` entry is the header's
   * serialization followed by the arrow and the digest of that serialization.
   */
  lemma RecordedHashIsDigestOfSerialization(h: Header.BlockHeader)
    requires !h.isGenesis
    ensures BuildBlockDict(h, h.Hash()).header.serialize == h.Serialize() + Arrow + Digest(h.Serialize())
  {
    var text := h.Serialize();
    assert BuildBlockDict(h, h.Hash()).header.serialize == text + Arrow + Digest(text);
  }

  // ---------------------------------------------------------------------------------------
  // One candidate's search.

  /** The fields of a header that `hash()` depends on besides the nonce. */
  datatype Fields = Fields(isGenesis: bool, prevHash: string, timestamp: int, version: int, merkleRoot: string,
                           difficulty: int)

  function FieldsOf(h: Header.BlockHeader): Fields
    reads h`isGenesis, h`prevHash, h`timestamp, h`version, h`merkleRoot, h`difficulty
  {
    Fields(h.isGenesis, h.prevHash, h.timestamp, h.version, h.merkleRoot, h.difficulty)
  }

  /** `hash()` of a header with fields f and nonce n. */
  function HashWith(f: Fields, n: int): (r: string)
    ensures |r| == 8
  {
    if f.isGenesis then Header.GenesisHash
    else Digest(Header.SerializeFields(f.prevHash, f.timestamp, f.version, f.merkleRoot, n, f.difficulty))
  }

  /** Whether the hash of a header with fields f and nonce n passes `validate_hash` at its difficulty. */
  predicate PassesWith(f: Fields, n: int)
  {
    Header.ValidateHash(Some(HashWith(f, n)), f.difficulty)
  }

  /** `hash()` always hashes the header as it stands, nonce included. */
  lemma HashIsHashWith(h: Header.BlockHeader)
    ensures h.Hash() == HashWith(FieldsOf(h), h.nonce)
  {
  }

  /** For a non-genesis header the passing nonces are exactly its proof-of-work targets. */
  lemma PassesIsTarget(h: Header.BlockHeader, n: int)
    requires !h.isGenesis
    ensures PassesWith(FieldsOf(h), n) == h.Target()(n)
  {
  }

  /** A genesis header passes at every nonce when the difficulty is at most 8 and at none above. */
  lemma GenesisPasses(f: Fields, n: int)
    requires f.isGenesis
    ensures PassesWith(f, n) <==> f.difficulty <= 8
  {
    assert forall k :: 0 <= k < 8 ==> Header.GenesisHash[k] == '0';
    if f.difficulty > 8 {
      assert |Header.GenesisHash| < f.difficulty;
    }
  }

  /** The passing nonces of a header with fields f, as a predicate on nonces. */
  function PassFn(f: Fields): int -> bool
  {
    n => PassesWith(f, n)
  }

  /**
   * hashOf and passes give, nonce by nonce, the hash of a header with fields f and whether it
   * passes `validate_hash`: the view of one candidate's search that the mining loop reasons with.
   */
  ghost predicate Searches(f: Fields, hashOf: int -> string, passes: int -> bool)
  {
    forall n {:trigger HashWith(f, n)} :: hashOf(n) == HashWith(f, n) && passes(n) == PassesWith(f, n)
  }

  /** The header's own hash and check are such a view. */
  lemma OwnSearch(f: Fields)
    ensures Searches(f, n => HashWith(f, n), PassFn(f))
  {
  }

  /** The counters of one candidate in a round: one shared dictionary per candidate. */
  class Stat {
    var tries: nat
    var found: bool
    var time: Option<real>

    constructor ()
      ensures tries == 0 && !found && time == None
    {
      tries := 0;
      found := false;
      time := None;
    }
  }

  /** The shared winner slot: the claiming header, its hash and its index. */
  datatype Winner = Winner(header: Header.BlockHeader, hash: string, idx: nat)

  /** The state the candidates of one round share: the winner slot and one counter record each. */
  class Race {
    var winner: Option<Winner>
    const stats: seq<Stat>

    /** Each candidate has a counter record of its own. */
    predicate Distinct()
    {
      forall i, j :: 0 <= i < j < |stats| ==> stats[i] != stats[j]
    }

    /** An empty winner slot and zeroed counters for n candidates, one separate record each. */
    constructor (n: nat)
      ensures winner == None && |stats| == n && Distinct()
      ensures forall i :: 0 <= i < n ==> fresh(stats[i]) && stats[i].tries == 0 && !stats[i].found && stats[i].time == None
    {
      winner := None;
      var counters: seq<Stat> := [];
      while |counters| < n
        invariant |counters| <= n
        invariant forall i :: 0 <= i < |counters| ==>
          fresh(counters[i]) && counters[i].tries == 0 && !counters[i].found && counters[i].time == None
        invariant forall i, j :: 0 <= i < j < |counters| ==> counters[i] != counters[j]
      {
        var c := new Stat();
        counters := counters + [c];
      }
      stats := counters;
    }

    /** The counters of every candidate other than i are as they were. */
    twostate predicate Others(i: nat)
      reads stats
    {
      forall j :: 0 <= j < |stats| && j != i ==>
        stats[j].tries == old(stats[j].tries) && stats[j].found == old(stats[j].found) &&
        stats[j].time == old(stats[j].time)
    }

    /**
     * The locked claim: candidate i takes the winner slot with `header` and `hash` only while
     * the slot is empty, and then records that it found it, after `elapsed` seconds.
     */
    method Claim(i: nat, header: Header.BlockHeader, hash: string, elapsed: real) returns (won: bool)
      requires i < |stats| && Distinct()
      modifies this`winner, stats[i]
      ensures Others(i)
      ensures won <==> old(winner).None?
      ensures stats[i].tries == old(stats[i].tries)
      ensures won ==> winner == Some(Winner(header, hash, i)) && stats[i].found && stats[i].time == Some(elapsed)
      ensures !won ==> winner == old(winner) && stats[i].found == old(stats[i].found) &&
                       stats[i].time == old(stats[i].time)
    {
      won := false;
      if winner.None? {
        winner := Some(Winner(header, hash, i));
        stats[i].found := true;
        stats[i].time := Some(elapsed);
        won := true;
      }
    }

    /** One turn of candidate i: the next nonce and one more try, then the hash and its check. */
    method Step(i: nat, header: Header.BlockHeader, ghost f: Fields, ghost hashOf: int -> string,
                ghost passes: int -> bool) returns (hash: string, ok: bool)
      requires i < |stats| && Distinct() && FieldsOf(header) == f && Searches(f, hashOf, passes)
      modifies header`nonce, stats[i]
      ensures Others(i)
      ensures header.nonce == old(header.nonce) + 1 && stats[i].tries == old(stats[i].tries) + 1
      ensures stats[i].found == old(stats[i].found) && stats[i].time == old(stats[i].time)
      ensures hash == hashOf(header.nonce) && ok == passes(header.nonce)
    {
      header.nonce := header.nonce + 1;
      stats[i].tries := stats[i].tries + 1;
      hash := header.Hash();
      HashIsHashWith(header);
      assert FieldsOf(header) == f;
      ok := Header.ValidateHash(Some(hash), header.difficulty);
      assert ok == PassesWith(f, header.nonce);
    }

    /**
     * `mine_candidate_mp` for candidate i: at most `budget` turns (the deadline), each stopping
     * once the winner slot is taken; the first passing hash is claimed, `elapsed` seconds in.
     * Ends at the least passing nonce above the start, or after the whole budget without one.
     */
    method MineCandidate(i: nat, header: Header.BlockHeader, budget: nat, elapsed: real,
                         ghost f: Fields, ghost hashOf: int -> string, ghost passes: int -> bool)
      returns (steps: nat)
      requires i < |stats| && Distinct() && FieldsOf(header) == f && Searches(f, hashOf, passes)
      modifies header`nonce, this`winner, stats[i]
      ensures Others(i)
      ensures steps <= budget && header.nonce == old(header.nonce) + steps
      ensures stats[i].tries == old(stats[i].tries) + steps
      ensures old(winner).Some? ==>
        steps == 0 && winner == old(winner) &&
        stats[i].found == old(stats[i].found) && stats[i].time == old(stats[i].time)
      ensures old(winner).None? && winner.None? ==>
        steps == budget && Header.FirstWhere(passes, old(header.nonce) + 1, old(header.nonce) + 1 + budget) == None &&
        stats[i].found == old(stats[i].found) && stats[i].time == old(stats[i].time)
      ensures old(winner).None? && winner.Some? ==>
        Header.FirstWhere(passes, old(header.nonce) + 1, old(header.nonce) + 1 + budget) == Some(header.nonce) &&
        winner == Some(Winner(header, hashOf(header.nonce), i)) &&
        stats[i].found && stats[i].time == Some(elapsed)
    {
      ghost var start := header.nonce;
      ghost var hi := start + 1 + budget;
      steps := 0;
      while steps < budget && winner.None?
        invariant steps <= budget && header.nonce == start + steps && FieldsOf(header) == f
        invariant stats[i].tries == old(stats[i].tries) + steps
        invariant old(winner).Some? ==> steps == 0 && winner == old(winner)
        invariant old(winner).None? ==>
          winner.None? && Header.FirstWhere(passes, header.nonce + 1, hi) == Header.FirstWhere(passes, start + 1, hi)
        invariant stats[i].found == old(stats[i].found) && stats[i].time == old(stats[i].time)
        decreases budget - steps
      {
        var hash, ok := Step(i, header, f, hashOf, passes);
        steps := steps + 1;
        Header.FirstWhereStep(passes, header.nonce, hi);
        if ok {
          var _ := Claim(i, header, hash, elapsed);
          break;
        }
      }
      if winner.None? {
        Header.FirstWhereStep(passes, header.nonce + 1, hi);
      }
    }
  }

  /**
   * A non-genesis header at the nonce its search stops at passes its own proof-of-work check,
   * the hash recorded for it is its own hash, and that hash passes `validate_hash`.
   */
  lemma ClaimedHeaderValidates(h: Header.BlockHeader, hashOf: int -> string, passes: int -> bool, lo: int, hi: int)
    requires !h.isGenesis && Searches(FieldsOf(h), hashOf, passes)
    requires Header.FirstWhere(passes, lo, hi) == Some(h.nonce)
    ensures h.ValidateProofOfWork()
    ensures hashOf(h.nonce) == h.Hash() && Header.ValidateHash(Some(h.Hash()), h.difficulty)
  {
    Header.FirstWhereIsLeast(passes, lo, hi);
    HashIsHashWith(h);
    PassesIsTarget(h, h.nonce);
  }

  // ---------------------------------------------------------------------------------------
  // The retry schedule of the main loop.

  /** `max_attempts` in `main`. */
  const MaxAttempts: nat := 6

  /** What one parallel round returns, given its number and time limit: the winner, if any. */
  type RaceOracle = (nat, real) -> Option<Winner>

  /** `time_limit` in round k: the initial limit doubled once per earlier round. */
  function LimitAt(initial: real, k: nat): real
  {
    if k == 0 then initial else 2.0 * LimitAt(initial, k - 1)
  }

  /**
   * Rounds `attempt` .. MaxAttempts - 1 with `limit` as the current time limit: the number of
   * rounds run by the end and the winner of the last one, if it had one.
   */
  function Retry(race: RaceOracle, limit: real, attempt: nat): (nat, Option<Winner>)
    decreases MaxAttempts - attempt
  {
    if attempt >= MaxAttempts then (attempt, None)
    else
      match race(attempt, limit)
      case Some(w) => (attempt + 1, Some(w))
      case None => Retry(race, 2.0 * limit, attempt + 1)
  }

  /**
   * At most `MaxAttempts` rounds are run, round k with the initial limit doubled k times; every
   * round before the last had no winner, the result is the last round's winner, and without a
   * winner all rounds were run.
   */
  lemma {:induction false} RetrySchedule(race: RaceOracle, initial: real, attempt: nat)
    requires attempt <= MaxAttempts
    ensures var (rounds, winner) := Retry(race, LimitAt(initial, attempt), attempt);
      attempt <= rounds <= MaxAttempts &&
      (forall k :: attempt <= k < rounds - 1 ==> race(k, LimitAt(initial, k)).None?) &&
      (winner.Some? ==> rounds > attempt && winner == race(rounds - 1, LimitAt(initial, rounds - 1))) &&
      (winner.None? ==> rounds == MaxAttempts && forall k :: attempt <= k < rounds ==> race(k, LimitAt(initial, k)).None?)
    decreases MaxAttempts - attempt
  {
    if attempt < MaxAttempts && race(attempt, LimitAt(initial, attempt)).None? {
      RetrySchedule(race, initial, attempt + 1);
    }
  }

  /**
   * The mining part of `main`: up to `MaxAttempts` rounds, doubling the time limit after each
   * round without a winner and stopping at the first winner; the winner's block record is then
   * appended to `chain`, which is left as it was when no round had a winner.
   */
  method MineRounds(initialTimeLimit: real, race: RaceOracle, chain: seq<BlockRecord>)
    returns (rounds: nat, winner: Option<Winner>, newChain: seq<BlockRecord>)
    ensures (rounds, winner) == Retry(race, initialTimeLimit, 0)
    ensures winner.Some? ==> newChain == chain + [BuildBlockDict(winner.value.header, winner.value.hash)]
    ensures winner.None? ==> newChain == chain
  {
    var timeLimit := initialTimeLimit;
    var maxAttempts := MaxAttempts;
    winner := None;
    rounds := 0;
    while rounds < maxAttempts
      invariant rounds <= maxAttempts && winner.None?
      invariant Retry(race, timeLimit, rounds) == Retry(race, initialTimeLimit, 0)
      decreases maxAttempts - rounds
    {
      winner := race(rounds, timeLimit);
      rounds := rounds + 1;
      if winner.Some? {
        break;
      }
      timeLimit := timeLimit * 2.0;
    }
    if winner.Some? {
      var block := BuildBlockDict(winner.value.header, winner.value.hash);
      newChain := chain + [block];
    } else {
      newChain := chain;
    }
  }
}
