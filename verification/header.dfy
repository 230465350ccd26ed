/**
 * `BlockHeader`: the six serialized fields, the genesis flag, and the proof-of-work search
 * `mine`, which writes `nonce` in place.
 */
module Header {
  import opened Wrappers
  import opened Strings
  import opened Hash
  import Merkle
  import Body

  /** The fixed digest of a genesis header, and the `prev_hash` of a genesis block. */
  const GenesisHash: string := "00000000"

  datatype MineError = NonceExhausted   // RuntimeError: no nonce below `max_nonce` qualified

  /** Whether a header with these field values and nonce n hashes to a string meeting `difficulty`. */
  predicate PassesAt(prevHash: string, timestamp: int, version: int, merkleRoot: string, difficulty: int, n: int)
  {
    StartsWith(Digest(SerializeFields(prevHash, timestamp, version, merkleRoot, n, difficulty)), Zeros(difficulty))
  }

  /** `PassesAt` for fixed field values, as a predicate on the nonce. */
  function PassesFor(prevHash: string, timestamp: int, version: int, merkleRoot: string, difficulty: int): int -> bool
  {
    n => PassesAt(prevHash, timestamp, version, merkleRoot, difficulty, n)
  }

  /** The digest of the serialization for fixed field values, as a function of the nonce. */
  function HashesFor(prevHash: string, timestamp: int, version: int, merkleRoot: string, difficulty: int): int -> string
  {
    n => Digest(SerializeFields(prevHash, timestamp, version, merkleRoot, n, difficulty))
  }

  /** The first n in [lo, hi) satisfying p, searching upward: the reference for `mine`. */
  function FirstWhere(p: int -> bool, lo: int, hi: int): Option<int>
    decreases hi - lo
  {
    if lo >= hi then None else if p(lo) then Some(lo) else FirstWhere(p, lo + 1, hi)
  }

  /** `FirstWhere` finds the least satisfying n of the range, and nothing only when none satisfies p. */
  lemma {:induction false} FirstWhereIsLeast(p: int -> bool, lo: int, hi: int)
    ensures FirstWhere(p, lo, hi).None? <==> forall n :: lo <= n < hi ==> !p(n)
    ensures FirstWhere(p, lo, hi).Some? ==>
      var k := FirstWhere(p, lo, hi).value;
      lo <= k < hi && p(k) && forall n :: lo <= n < k ==> !p(n)
    decreases hi - lo
  {
    if lo < hi && !p(lo) {
      FirstWhereIsLeast(p, lo + 1, hi);
    }
  }

  /** One step of `FirstWhere`: the search stops at a satisfying lower end and skips any other. */
  lemma FirstWhereStep(p: int -> bool, lo: int, hi: int)
    ensures lo >= hi ==> FirstWhere(p, lo, hi) == None
    ensures lo < hi && p(lo) ==> FirstWhere(p, lo, hi) == Some(lo)
    ensures lo < hi && !p(lo) ==> FirstWhere(p, lo, hi) == FirstWhere(p, lo + 1, hi)
  {
  }

  /** The least satisfying n of the range, or None when there is none, is what `FirstWhere` finds. */
  lemma FirstWhereIs(p: int -> bool, lo: int, hi: int, k: Option<int>)
    requires k.Some? ==> lo <= k.value < hi && p(k.value) && forall n :: lo <= n < k.value ==> !p(n)
    requires k.None? ==> forall n :: lo <= n < hi ==> !p(n)
    ensures FirstWhere(p, lo, hi) == k
  {
    FirstWhereIsLeast(p, lo, hi);
  }

  /** `"0" * n`: Python repeats a string zero times when n is not positive. */
  function Zeros(n: int): (r: string)
    ensures |r| == if n <= 0 then 0 else n
    ensures forall i :: 0 <= i < |r| ==> r[i] == '0'
  {
    if n <= 0 then "" else Zeros(n - 1) + "0"
  }

  /** `s.startswith(prefix)`. */
  predicate StartsWith(s: string, prefix: string)
  {
    |prefix| <= |s| && s[..|prefix|] == prefix
  }

  /**
   * `validate_hash(hash_str, difficulty)`: a string (not None) that starts with `difficulty`
   * zero characters.
   */
  function ValidateHash(hashStr: Option<string>, difficulty: int): (ok: bool)
    ensures ok <==>
              hashStr.Some? &&
              (difficulty <= 0 ||
               (difficulty <= |hashStr.value| && forall i :: 0 <= i < difficulty ==> hashStr.value[i] == '0'))
  {
    hashStr.Some? && StartsWith(hashStr.value, Zeros(difficulty))
  }

  /** The f-string of `serialize`, for given field values. */
  function SerializeFields(prevHash: string, timestamp: int, version: int, merkleRoot: string,
                           nonce: int, difficulty: int): string
  {
    prevHash + "|" + IntToString(timestamp) + "|" + IntToString(version) + "|" + merkleRoot
      + "|" + IntToString(nonce) + "|" + IntToString(difficulty)
  }

  class BlockHeader {
    var prevHash: string
    var timestamp: int
    var version: int
    var merkleRoot: string
    var nonce: int
    var difficulty: int
    var isGenesis: bool
    /** The `_txs` attribute the mining coordinator attaches to a candidate; `[]` when absent. */
    var txs: seq<Merkle.Item>

    /** The dataclass constructor. */
    constructor (prevHash: string, timestamp: int, version: int, merkleRoot: string,
                 nonce: int := 0, difficulty: int := 3, isGenesis: bool := false)
      ensures this.prevHash == prevHash && this.timestamp == timestamp && this.version == version
      ensures this.merkleRoot == merkleRoot && this.nonce == nonce && this.difficulty == difficulty
      ensures this.isGenesis == isGenesis && this.txs == []
    {
      this.prevHash := prevHash;
      this.timestamp := timestamp;
      this.version := version;
      this.merkleRoot := merkleRoot;
      this.nonce := nonce;
      this.difficulty := difficulty;
      this.isGenesis := isGenesis;
      this.txs := [];
    }

    /** `create_with_current_time`: `now` stands for the current time in whole seconds. */
    constructor WithCurrentTime(prevHash: string, merkleRoot: string, now: int,
                                version: int := 1, difficulty: int := 3)
      ensures this.prevHash == prevHash && this.timestamp == now && this.version == version
      ensures this.merkleRoot == merkleRoot && this.nonce == 0 && this.difficulty == difficulty
      ensures !this.isGenesis && this.txs == []
    {
      this.prevHash := prevHash;
      this.timestamp := now;
      this.version := version;
      this.merkleRoot := merkleRoot;
      this.nonce := 0;
      this.difficulty := difficulty;
      this.isGenesis := false;
      this.txs := [];
    }

    /** `create_genesis`: a missing timestamp means `now`. */
    constructor Genesis(now: int, merkleRoot: string := "", version: int := 1, difficulty: int := 3,
                        timestamp: Option<int> := Some(0))
      ensures this.prevHash == GenesisHash && this.nonce == 0 && this.isGenesis
      ensures this.timestamp == (if timestamp.Some? then timestamp.value else now)
      ensures this.merkleRoot == merkleRoot && this.version == version && this.difficulty == difficulty
      ensures this.txs == []
    {
      this.prevHash := GenesisHash;
      this.timestamp := if timestamp.Some? then timestamp.value else now;
      this.version := version;
      this.merkleRoot := merkleRoot;
      this.nonce := 0;
      this.difficulty := difficulty;
      this.isGenesis := true;
      this.txs := [];
    }

    /** `create_from_body`: the header commits to the body's Merkle root. */
    constructor FromBody(prevHash: string, body: Body.BlockBody, now: int,
                         version: int := 1, difficulty: int := 3)
      ensures this.prevHash == prevHash && this.timestamp == now && this.version == version
      ensures this.merkleRoot == body.merkleRoot && this.nonce == 0 && this.difficulty == difficulty
      ensures !this.isGenesis && this.txs == []
    {
      this.prevHash := prevHash;
      this.timestamp := now;
      this.version := version;
      this.merkleRoot := body.merkleRoot;
      this.nonce := 0;
      this.difficulty := difficulty;
      this.isGenesis := false;
      this.txs := [];
    }

    /** `serialize()` as it would read with `nonce` set to n. */
    function SerializeWith(n: int): string
      reads this`prevHash, this`timestamp, this`version, this`merkleRoot, this`difficulty
    {
      SerializeFields(prevHash, timestamp, version, merkleRoot, n, difficulty)
    }

    /** `serialize()`. */
    function Serialize(): string
      reads this
    {
      SerializeWith(nonce)
    }

    /** `hash()`: the genesis sentinel, or the digest of the serialization. */
    function Hash(): (h: string)
      reads this
      ensures |h| == 8
      ensures isGenesis ==> h == GenesisHash
    {
      if isGenesis then GenesisHash else Digest(Serialize())
    }

    /** The nonces that would make `hash()` meet the difficulty, given the other fields as they are now. */
    function Target(): int -> bool
      reads this`prevHash, this`timestamp, this`version, this`merkleRoot, this`difficulty
    {
      PassesFor(prevHash, timestamp, version, merkleRoot, difficulty)
    }

    /** The hashes `hash()` would give, nonce by nonce, with the other fields as they are now. */
    function HashAt(): int -> string
      reads this`prevHash, this`timestamp, this`version, this`merkleRoot, this`difficulty
    {
      HashesFor(prevHash, timestamp, version, merkleRoot, difficulty)
    }

    /** `validate_proof_of_work()`. */
    function ValidateProofOfWork(): (ok: bool)
      reads this
      ensures isGenesis ==> ok
      ensures !isGenesis ==> (ok <==> Target()(nonce))
    {
      if isGenesis then Hash() == GenesisHash else StartsWith(Hash(), Zeros(difficulty))
    }

    /**
     * `mine(max_nonce, start_nonce)`: tries nonces upward from `start_nonce`, writing each
     * into `nonce` before hashing, and returns the first hash that meets the difficulty.
     */
    method Mine(maxNonce: int := 10_000_000, startNonce: int := 0) returns (r: Result<string, MineError>)
      modifies this`nonce
      ensures isGenesis ==> r == Ok(GenesisHash) && nonce == old(nonce)
      ensures !isGenesis ==> (r.Ok? <==> FirstWhere(Target(), startNonce, maxNonce).Some?)
      ensures !isGenesis && r.Ok? ==> nonce == FirstWhere(Target(), startNonce, maxNonce).value && r.value == Hash()
      ensures !isGenesis && r.Err? ==>
        r.error == NonceExhausted && nonce == if startNonce < maxNonce then maxNonce - 1 else old(nonce)
    {
      if isGenesis {
        return Ok(Hash());
      }
      TargetTracks(this);
      ghost var hashOf: int -> string, passes: int -> bool :|
        Tracks(prevHash, timestamp, version, merkleRoot, difficulty, hashOf, passes);
      r := SearchNonces(maxNonce, startNonce, hashOf, passes);
      TracksAgree(this, hashOf, passes, startNonce, maxNonce);
      TracksHash(this, hashOf, passes);
    }

    /** The loop of `mine`, for a predicate that tracks the header's target. */
    method SearchNonces(maxNonce: int, startNonce: int, ghost hashOf: int -> string, ghost passes: int -> bool)
      returns (r: Result<string, MineError>)
      requires !isGenesis && Tracks(prevHash, timestamp, version, merkleRoot, difficulty, hashOf, passes)
      modifies this`nonce
      ensures r.Ok? <==> FirstWhere(passes, startNonce, maxNonce).Some?
      ensures r.Ok? ==> nonce == FirstWhere(passes, startNonce, maxNonce).value && r.value == hashOf(nonce)
      ensures r.Err? ==>
        r.error == NonceExhausted && nonce == if startNonce < maxNonce then maxNonce - 1 else old(nonce)
    {
      var targetPrefix := Zeros(difficulty);
      var n := startNonce;
      while n < maxNonce
        invariant n == startNonce || startNonce < n <= maxNonce
        invariant FirstWhere(passes, n, maxNonce) == FirstWhere(passes, startNonce, maxNonce)
        invariant nonce == if n == startNonce then old(nonce) else n - 1
        invariant Tracks(prevHash, timestamp, version, merkleRoot, difficulty, hashOf, passes)
      {
        var h, ok := TryNonce(n, targetPrefix, hashOf, passes);
        FirstWhereStep(passes, n, maxNonce);
        if ok {
          return Ok(h);
        }
        n := n + 1;
      }
      FirstWhereStep(passes, n, maxNonce);
      return Err(NonceExhausted);
    }

    /** One turn of `mine`: write n into `nonce`, hash, and test the prefix. */
    method TryNonce(n: int, targetPrefix: string, ghost hashOf: int -> string, ghost passes: int -> bool)
      returns (h: string, ok: bool)
      requires !isGenesis && targetPrefix == Zeros(difficulty)
      requires Tracks(prevHash, timestamp, version, merkleRoot, difficulty, hashOf, passes)
      modifies this`nonce
      ensures nonce == n && h == hashOf(n) && ok == passes(n)
    {
      nonce := n;
      h := Hash();
      ok := StartsWith(h, targetPrefix);
      assert ok == PassesAt(prevHash, timestamp, version, merkleRoot, difficulty, n);
    }
  }

  /**
   * hashOf and passes give, nonce by nonce, the hash of a header with these field values and
   * whether it meets the difficulty: the view of the search that the loop of `mine` reasons with.
   */
  ghost predicate Tracks(prevHash: string, timestamp: int, version: int, merkleRoot: string, difficulty: int,
                         hashOf: int -> string, passes: int -> bool)
  {
    forall n {:trigger PassesAt(prevHash, timestamp, version, merkleRoot, difficulty, n)} ::
      hashOf(n) == Digest(SerializeFields(prevHash, timestamp, version, merkleRoot, n, difficulty)) &&
      passes(n) == PassesAt(prevHash, timestamp, version, merkleRoot, difficulty, n)
  }

  /** A header's own hash and target are such a view. */
  lemma TargetTracks(h: BlockHeader)
    ensures Tracks(h.prevHash, h.timestamp, h.version, h.merkleRoot, h.difficulty, h.HashAt(), h.Target())
  {
  }

  /** A view of the header's fields finds what the header's own target finds. */
  lemma TracksAgree(h: BlockHeader, hashOf: int -> string, passes: int -> bool, lo: int, hi: int)
    requires Tracks(h.prevHash, h.timestamp, h.version, h.merkleRoot, h.difficulty, hashOf, passes)
    ensures FirstWhere(passes, lo, hi) == FirstWhere(h.Target(), lo, hi)
    decreases hi - lo
  {
    if lo < hi {
      assert h.Target()(lo) == PassesAt(h.prevHash, h.timestamp, h.version, h.merkleRoot, h.difficulty, lo);
      TracksAgree(h, hashOf, passes, lo + 1, hi);
    }
  }

  /** At the header's own nonce, the view's hash is `hash()`. */
  lemma TracksHash(h: BlockHeader, hashOf: int -> string, passes: int -> bool)
    requires !h.isGenesis && Tracks(h.prevHash, h.timestamp, h.version, h.merkleRoot, h.difficulty, hashOf, passes)
    ensures hashOf(h.nonce) == h.Hash()
  {
    assert PassesAt(h.prevHash, h.timestamp, h.version, h.merkleRoot, h.difficulty, h.nonce) ==
           StartsWith(h.Hash(), Zeros(h.difficulty));
  }

  // ---------------------------------------------------------------------------------------
  // Properties of headers.


  /** `serialize()` is the six fields, in order, joined by `|`. */
  lemma SerializeIsSixFields(h: BlockHeader)
    ensures h.Serialize() == Join('|', [h.prevHash, IntToString(h.timestamp), IntToString(h.version),
                                        h.merkleRoot, IntToString(h.nonce), IntToString(h.difficulty)])
  {
    JoinSix(h.prevHash, IntToString(h.timestamp), IntToString(h.version),
            h.merkleRoot, IntToString(h.nonce), IntToString(h.difficulty));
  }

  lemma JoinSix(a: string, b: string, c: string, d: string, e: string, f: string)
    ensures Join('|', [a, b, c, d, e, f]) == a + "|" + b + "|" + c + "|" + d + "|" + e + "|" + f
  {
    assert [e, f][1..] == [f];
    assert Join('|', [f]) == f;
    var j5 := Join('|', [e, f]);
    assert j5 == e + "|" + f;
    assert [d, e, f][1..] == [e, f];
    var j4 := Join('|', [d, e, f]);
    assert j4 == d + "|" + j5;
    assert [c, d, e, f][1..] == [d, e, f];
    var j3 := Join('|', [c, d, e, f]);
    assert j3 == c + "|" + j4;
    assert [b, c, d, e, f][1..] == [c, d, e, f];
    var j2 := Join('|', [b, c, d, e, f]);
    assert j2 == b + "|" + j3;
    assert [a, b, c, d, e, f][1..] == [b, c, d, e, f];
    assert Join('|', [a, b, c, d, e, f]) == a + "|" + j2;
  }

  /** When the two string fields hold no `|`, splitting the serialization gives the fields back. */
  lemma SerializeSplitsBack(h: BlockHeader)
    requires '|' !in h.prevHash && '|' !in h.merkleRoot
    ensures Split(h.Serialize(), '|') == [h.prevHash, IntToString(h.timestamp), IntToString(h.version),
                                          h.merkleRoot, IntToString(h.nonce), IntToString(h.difficulty)]
  {
    SerializeIsSixFields(h);
    var parts := [h.prevHash, IntToString(h.timestamp), IntToString(h.version),
                  h.merkleRoot, IntToString(h.nonce), IntToString(h.difficulty)];
    NoBarInNumber(h.timestamp);
    NoBarInNumber(h.version);
    NoBarInNumber(h.nonce);
    NoBarInNumber(h.difficulty);
    SplitJoin(parts, '|');
  }

  /** A genesis header hashes to the sentinel whatever its other fields hold. */
  lemma GenesisHashIgnoresFields(h: BlockHeader)
    requires h.isGenesis
    ensures h.Hash() == "00000000"
  {
  }

  /** A non-genesis header hashes to the digest of its serialization. */
  lemma NonGenesisHash(h: BlockHeader)
    requires !h.isGenesis
    ensures h.Hash() == Digest(h.Serialize())
  {
  }

  /** A digest has 8 characters, so no digest starts with more than 8 zeros. */
  lemma NoDigestMeetsDifficultyAboveEight(text: string, difficulty: int)
    requires difficulty > 8
    ensures !ValidateHash(Some(Digest(text)), difficulty)
  {
  }

  /**
   * A header whose nonce is the one `mine` settles on passes its own proof-of-work check, and
   * its hash passes `validate_hash`; no smaller nonce of the range would have.
   */
  lemma MinedHeaderValidates(h: BlockHeader, lo: int, hi: int)
    requires !h.isGenesis && FirstWhere(h.Target(), lo, hi) == Some(h.nonce)
    ensures h.ValidateProofOfWork()
    ensures ValidateHash(Some(h.Hash()), h.difficulty)
    ensures forall n :: lo <= n < h.nonce ==> !h.Target()(n)
  {
    FirstWhereIsLeast(h.Target(), lo, hi);
  }

  /** Above difficulty 8 no nonce passes, so `mine` on a non-genesis header always fails. */
  lemma NothingMinesAboveEight(h: BlockHeader, lo: int, hi: int)
    requires h.difficulty > 8
    ensures FirstWhere(h.Target(), lo, hi) == None
  {
    forall n | lo <= n < hi
      ensures !h.Target()(n)
    {
      NoDigestMeetsDifficultyAboveEight(SerializeFields(h.prevHash, h.timestamp, h.version, h.merkleRoot, n, h.difficulty), h.difficulty);
    }
    FirstWhereIsLeast(h.Target(), lo, hi);
  }
}
