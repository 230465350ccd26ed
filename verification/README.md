# A verified model of a toy proof-of-work ledger

This project models, in Dafny, the deterministic core of a small Python blockchain toy.

- **Hash.** `hash_generator` is a 32-bit multiply/XOR fold over character codes, a 13-bit left rotation and 8 hex digits. Every id in the system goes through it: public keys, UTXO ids, transaction ids, Merkle nodes and block hashes.
- **Merkle builder.** `compute_merkle_root_from_tx_list` hashes one leaf per transaction record. It then pairs each level left to right, an odd last node pairing with itself, in a root-only mode and in a mode that also returns every level.
- **Block header.** `BlockHeader` covers serialization, the hash with its genesis sentinel `00000000`, the bounded nonce search `mine` that writes `nonce` in place, and the `validate_*` checks.
- **Block body.** `BlockBody` fills in its Merkle root when none is given.
- **UTXO generator.** `UTXOGenerator` splits user balances into genesis outputs. It then emits transactions by greedy smallest-first input selection, updating its live output list in place.
- **Mining coordinator.** Only its sequential parts are modelled:
  - the block record `build_block_dict`;
  - a candidate's nonce/tries step and its write-once winner claim;
  - the retry schedule of `main`, which doubles the time limit for up to 6 rounds.
- **Helpers.** `User.adjust_balance`, `UserGenerator.generate`, and the chunking comprehension of `chunk_transactions`.

Modules, one file each:

| module | contents |
|---|---|
| `Wrappers` | `Option` and `Result` |
| `Strings` | Python's `str(int)`, `join` and `split` |
| `Hash` | the hash |
| `User` | the user |
| `Utxo` | UTXOs, transactions, the list operations on them |
| `TransactionGenerator` | the generator |
| `Merkle` | the Merkle builder |
| `Body` | the block body |
| `Header` | the block header |
| `Chunk` | chunking |
| `UserGenerator` | user generation |
| `Mining` | the coordinator |

**How the Python code is represented.**

- **Mutated objects become classes.** This applies to objects whose fields the Python code updates: `User`, `UserGenerator`, `UTXOGenerator`, `BlockHeader`, `BlockBody`, and the shared winner/stats of a mining round. Their methods carry `modifies` clauses. Each method's contract gives the new state: as a specification function where there is one, otherwise as a relation between the old and the new state (the mining race's `Claim`, `Step` and `MineCandidate`, and the fresh users of `Generate`). The lemmas are about those functions and relations.
- **Loops stay loops.** Loops in the source (the hash fold, the Merkle levels, `mine`, the genesis split, the transaction rounds, the input selection and the retry loop) are `while`/`for` loops with invariants.
- **Errors.** Python exceptions become `Result` errors; Python `None` becomes `Option`.
- **Randomness and time are parameters.** Every `random.*` draw and every clock reading is a parameter.
  - In the transaction generator, the draws of round `t` are the record `Draws`.
  - `int(x * uniform(a, b))` is any integer between 0 and x (`Fraction`).
  - `random.choice(self.utxos)` is an index reduced modulo the list length.
- **Integers.** Python integers are unbounded, so the hash is written with unbounded naturals and the source's explicit reduction modulo 2^32. `StepWideIsNarrow` proves that this equals 32-bit wrap-around arithmetic.
- **Characters.** Dafny `char` values are Unicode scalar values. Python's `ord` returns the same number for every such character; a Python `str` may also hold lone surrogates (U+D800–U+DFFF), which a Dafny string cannot.

Points where the code's behaviour is easy to misread:
- The "small" target is a fraction of the sender's first output in list order (`transaction_generator.py:75`), which need not be its smallest output.
- `mine` tries `start_nonce` itself first. It does not increment before the first hash.
- A leaf string joins every non-empty input reference with `|`. A record without inputs has no trailing separator.
- The transaction loop runs `n_txs` rounds and stops early only when no output is left.

## Model

| member | source | states |
|---|---|---|
| Hash.Fold | my_hash_function.py:9-14 | the accumulator starts at 828930167 and stays below 2^32 after every character |
| Hash.Step | my_hash_function.py:13-14 | one character step leaves the accumulator below 2^32 |
| Hash.StepWideIsNarrow | my_hash_function.py:13-14 | XOR and multiply on unbounded integers, reduced only at line 14, equals 32-bit wrap-around arithmetic at every step |
| Hash.MaskIsModulo | my_hash_function.py:17 | `& 0xFFFFFFFF` keeps the low 32 bits, i.e. it is reduction modulo 2^32 |
| Hash.Rotl13 | my_hash_function.py:17 | definition of the final mix: the accumulator shifted left by 13, OR-ed with it shifted right by 19, reduced modulo 2^32; `Rotl13Split` and `RotateRoundTrip` state what it does |
| Hash.Rotl13Split | my_hash_function.py:17 | for a 32-bit value the mix moves the low 19 bits to the top and the high 13 bits to the bottom, staying below 2^32 |
| Hash.RotateRoundTrip | my_hash_function.py:17 | rotating right by 13 undoes the mix, so it is a bijection on 32-bit values |
| Hash.ToHex | my_hash_function.py:19 | the formatting has exactly `width` characters, all lowercase hex digits |
| Hash.HexRoundTrip | my_hash_function.py:19 | reading the 8 hex digits back gives the value, for any value below 16^width |
| Hash.Digest | my_hash_function.py:3-20 | every digest is exactly 8 characters from `0-9a-f` |
| Hash.HashGenerator | my_hash_function.py:3-20 | the loop over the character codes computes `Digest`, 8 lowercase hex characters |
| Hash.DigestSeparatesAccumulators | my_hash_function.py:12-19 | texts whose final accumulators differ get different digests |
| Hash.EmptyDigest | my_hash_function.py:9-19 | the empty text hashes to the rotated seed in hex, `0f0ee62d` |
| Strings.IntToString | Header.py:18 | `str(i)`: at least one character, digits only apart from a leading minus exactly for negative i, and the digits read back give `abs(i)` |
| Strings.NoBarInNumber | Header.py:18 | `str(i)` never contains the field separator, the bar character |
| Strings.NatToStringRoundTrip | user_generator.py:17 | the decimal digits read back give the number |
| Strings.SplitJoin | merkel_root2.py:31 | joining separator-free parts and splitting again gives back the parts |
| Strings.JoinSplit | merkel_root2.py:29 | splitting and joining again gives back the string |
| User.Adjusted | user.py:13-16 | the adjustment succeeds iff `balance + amount >= 0`, giving that sum (non-negative); otherwise it is the funds error with both numbers |
| User.User.constructor | user.py:4-8 | the three fields as given |
| User.User.ToDict | user.py:10-11 | exactly the name, key and balance |
| User.User.AdjustBalance | user.py:13-16 | succeeds iff the new balance is non-negative and then sets it; otherwise returns the error and leaves the balance unchanged; name and key are constants |
| User.AdjustUndo | user.py:13-16 | an accepted adjustment followed by its opposite restores the balance |
| User.AdjustAllNonNegative | user.py:13-16 | from a non-negative balance any sequence of adjustments keeps it non-negative |
| Utxo.OwnedBy | transaction_generator.py:60 | the owner's outputs, each as many times as in the live list and no others, in the live list's order |
| Utxo.OwnedByHead | transaction_generator.py:60-75 | `owner_utxos[0]` is the first live output that the owner owns |
| Utxo.FirstIndex | transaction_generator.py:100 | the position `list.remove` acts on: an occurrence of x with none before it |
| Utxo.RemoveFirst | transaction_generator.py:100 | `list.remove` takes out the first occurrence of x and keeps everything else in order |
| Utxo.RemoveFirstSubsequence | transaction_generator.py:100 | after one removal the rest keep their relative order |
| Utxo.RemoveAll | transaction_generator.py:99-100 | removing the inputs one by one takes out exactly their multiset |
| Utxo.RemoveAllSubsequence | transaction_generator.py:99-100 | the outputs that survive the removals keep their relative order |
| Utxo.SumRemoveAll | transaction_generator.py:99-100 | removing the inputs takes their total off the live sum |
| Utxo.RemoveAllPositive | transaction_generator.py:99-100 | removal keeps every remaining amount positive |
| Utxo.StableSort | transaction_generator.py:82 | the sort is a permutation of the owner's outputs |
| Utxo.StableSortSorted | transaction_generator.py:82 | the sort is ascending by amount |
| Utxo.StableSortIsStable | transaction_generator.py:82 | outputs with equal amounts keep their relative order |
| TransactionGenerator.SplitFrom | transaction_generator.py:32-48 | definition of one user's split: at most `n_per_user` outputs, each a drawn share of the remaining balance and the last one the rest, stopping at the first amount below 1; `SplitFromAppends`, `PiecesShape` and `PiecesSum` state its properties |
| TransactionGenerator.GenesisFrom | transaction_generator.py:29-48 | definition of `create_genesis_utxos`: every user's split appended in user order; `GenesisBounded` states its properties |
| TransactionGenerator.SplitFromAppends | transaction_generator.py:29-48 | splitting a user's balance only appends to the live list |
| TransactionGenerator.PiecesShape | transaction_generator.py:34-48 | a user's genesis outputs are positive, owned by the user, numbered consecutively from 0, with the id derived from key and index, at most `n_per_user` of them |
| TransactionGenerator.PiecesSum | transaction_generator.py:32-44 | for a non-negative balance the pieces add up to at most the balance, and exactly to it when no piece stopped the split |
| TransactionGenerator.GenesisBounded | transaction_generator.py:29-48 | genesis outputs are all positive and total at most the users' balances |
| TransactionGenerator.SelectCount | transaction_generator.py:84-88 | the greedy loop takes between the outputs already taken and all of them |
| TransactionGenerator.SelectionIsGreedy | transaction_generator.py:84-88 | the selection is the shortest sorted prefix that covers the target, reaches `max_inputs` or is everything |
| TransactionGenerator.SelectionSize | transaction_generator.py:84-95 | at most `max_inputs` inputs, and none iff nothing is owned, the target is not positive or `max_inputs` is not positive |
| TransactionGenerator.Refs | transaction_generator.py:105 | one `txid:tr_index` reference per input, in order |
| TransactionGenerator.TxTextSplitsBack | transaction_generator.py:103-106 | the id text splits back into sender, receiver, amount and the input references in selection order |
| TransactionGenerator.TxText | transaction_generator.py:103-106 | definition of the id text: sender, receiver, amount and the input references joined by `|`; `TxTextSplitsBack` reads it back |
| TransactionGenerator.Emit | transaction_generator.py:57-116 | definition of one round from its draws: sender of the drawn output, receiver, target, greedy selection, reduced target after a shortfall, the skip, the id and the outputs; `EmitInputs`, `EmitOutputs` and `EmitSound` state its properties |
| TransactionGenerator.EmitInputs | transaction_generator.py:82-107 | an emitted transaction spends 1..`max_inputs` live outputs of the sender, a prefix of its stably sorted outputs, and its id is derived from sender, receiver, amount and inputs |
| TransactionGenerator.EmitOutputs | transaction_generator.py:91-114 | output 0 pays at least 1 to a receiver other than the sender; change at index 1 exists iff inputs exceed the payment; outputs total the inputs |
| TransactionGenerator.EmitSound | transaction_generator.py:91-114 | an emitted transaction is value-conserving, with 1..`max_inputs` inputs and positive outputs |
| TransactionGenerator.Rounds | transaction_generator.py:57-100 | a round can be played on any non-empty live list and spends only live outputs |
| TransactionGenerator.RoundsSound | transaction_generator.py:57-114 | with a receiver distinct from the sender and fractional draws, every round's transaction is balanced and positive |
| TransactionGenerator.Apply | transaction_generator.py:99-118 | definition of the live list after a transaction: each input removed in turn, then the outputs appended; `ApplyTotal` states its effect on the total and the multiset |
| TransactionGenerator.Run | transaction_generator.py:51-118 | definition of the loop: up to `n_txs` rounds, stopping when no output is live, each emitted transaction applied and recorded; the `Run*` lemmas state its properties |
| TransactionGenerator.ApplyTotal | transaction_generator.py:99-118 | applying a transaction changes the live total by outputs minus inputs and the live multiset accordingly |
| TransactionGenerator.RunKeepsValue | transaction_generator.py:53-118 | generating transactions never changes the total value of the live outputs |
| TransactionGenerator.RunKeepsPositive | transaction_generator.py:53-118 | positive live outputs stay positive |
| TransactionGenerator.RunKeepsRecorded | transaction_generator.py:117 | transactions are only appended; the earlier ones stay a prefix |
| TransactionGenerator.RunCount | transaction_generator.py:53-55 | at most `n_txs` transactions are recorded |
| TransactionGenerator.RunBalanced | transaction_generator.py:53-118 | every recorded transaction has 1..`max_inputs` inputs and outputs totalling its inputs |
| TransactionGenerator.SelectInputs | transaction_generator.py:78-88 | the loop's inputs are the greedy selection and its running total is their sum |
| TransactionGenerator.MakeTxId | transaction_generator.py:103-107 | the id is the hash of the pipe-joined text |
| TransactionGenerator.MakeGenesisId | transaction_generator.py:47 | the id is the hash of `genesis-`, the key, `-` and the index |
| TransactionGenerator.UTXOGenerator.constructor | transaction_generator.py:22-25 | the users as given, no live outputs, no transactions |
| TransactionGenerator.UTXOGenerator.CreateGenesisUtxos | transaction_generator.py:27-48 | clears the live list, then leaves exactly every user's split in user order |
| TransactionGenerator.UTXOGenerator.AddPieces | transaction_generator.py:32-48 | one user's split is appended to the live list |
| TransactionGenerator.UTXOGenerator.Choose | transaction_generator.py:57-92 | the sender owns the drawn output, so its owned list is never empty; the inputs are the greedy selection; the target is reduced after a shortfall |
| TransactionGenerator.UTXOGenerator.Attempt | transaction_generator.py:57-116 | one round's transaction, or none when the amount is below 1 or no input was selected, is exactly `Emit` |
| TransactionGenerator.UTXOGenerator.RemoveInputs | transaction_generator.py:99-100 | the live list after the removal loop is `RemoveAll` of the inputs |
| TransactionGenerator.UTXOGenerator.PlayRound | transaction_generator.py:57-117 | with some output live, round t's transaction, if `Emit` gives one, spends only live outputs, its inputs are removed, its outputs appended and it is recorded; with none, nothing changes |
| TransactionGenerator.UTXOGenerator.GenerateTransactions | transaction_generator.py:51-118 | the live list and the transaction list end as `Run` of the rounds, whose value, positivity and count lemmas apply; the receiver draw is constrained only when a round is played |
| Merkle.LeafString | merkel_root2.py:25-31 | definition of the leaf text: sender, receiver, amount and the non-empty input references joined by `|`, missing fields read as empty; `LeafWithoutInputs` and `LeafStringFields` state its properties |
| Merkle.LeafHash | merkel_root2.py:22-32 | definition of `_leaf_hash`: the type error for a non-record, otherwise the digest of the leaf text |
| Merkle.NonEmpty | merkel_root2.py:30 | every non-empty part is kept, as often as it occurs, and nothing else |
| Merkle.NonEmptyAppend | merkel_root2.py:30 | the filter keeps the parts in their order: filtering a concatenation concatenates the filtered pieces |
| Merkle.InputRefs | merkel_root2.py:28-30 | the references of a record are exactly the non-empty `;`-pieces of its `inputs`, each free of `;` |
| Merkle.Leaves | merkel_root2.py:22-34 | one leaf digest per element, in order, exactly when every element is a record; otherwise the type error |
| Merkle.NextLevelBy | merkel_root2.py:42-48 | a level of n nodes has a parent level of ceil(n/2) nodes |
| Merkle.NextLevel | merkel_root2.py:42-48 | the next level has ceil(n/2) entries |
| Merkle.NextLevelByAt | merkel_root2.py:43-47 | parent j is the hash of the pair starting at 2j, whatever the node hash |
| Merkle.NextLevelAt | merkel_root2.py:43-47 | parent j is the digest of `left + right` at 2j, the odd last node paired with itself |
| Merkle.LevelsOf | merkel_root2.py:56-66 | the levels start with the leaves |
| Merkle.LevelsShape | merkel_root2.py:56-68 | each level before the last has more than one node and the next is built from it; the last is the root alone |
| Merkle.PairUp | merkel_root2.py:42-47 | the inner loop builds the next level, ceil(n/2) parents |
| Merkle.RootOf | merkel_root2.py:40-49 | definition of the root: the next level is built until one digest is left; `ComputeRootMin` and `ComputeLevels` return it |
| Merkle.ComputeRootMin | merkel_root2.py:40-49 | the root-only loop returns the root of the leaves |
| Merkle.ComputeLevels | merkel_root2.py:55-69 | the tree loop returns the same root and every level |
| Merkle.Commit | merkel_root2.py:13-69 | definition of the builder's result: the None, type and no-leaves errors in the source's order, then the root alone or with every level, `show_tree` defaulting to false; `CommitFails`, `ModesAgree` and `TreeShape` state its properties |
| Merkle.ComputeMerkleRootFromTxList | merkel_root2.py:13-69 | the function's result, errors included, is `Commit`; `show_tree` defaults to false |
| Merkle.CommitFails | merkel_root2.py:19-37 | it fails with the None error iff the input is None, the type error iff some element is not a record, and the no-leaves error iff the list is empty |
| Merkle.ModesAgree | merkel_root2.py:40-68 | both modes fail alike, and succeed with the same root |
| Merkle.TreeShape | merkel_root2.py:56-69 | for a non-empty list of records the tree mode succeeds; level 0 is the leaves, each level halves rounding up, the last level is the returned root alone |
| Merkle.SingleLeafRoot | merkel_root2.py:36-53 | a one-record batch's root is that record's leaf digest |
| Merkle.OddCarry | merkel_root2.py:43-47 | for leaves a, b, c the next level is `[H(a+b), H(c+c)]` and the root `H(H(a+b)+H(c+c))` |
| Merkle.LeafWithoutInputs | merkel_root2.py:25-31 | a record without inputs hashes `sender|receiver|amount`, with no trailing separator |
| Merkle.LeafStringFields | merkel_root2.py:25-31 | the leaf string splits back into sender, receiver, amount and the input references |
| Merkle.SingleRecordExample | merkel_root2.py:25-53 | the batch `[{sender, receiver, amount}]` has root `digest("sender|receiver|amount")` |
| Body.BlockBody.constructor | Body.py:11-14 | the two fields as given |
| Body.BlockBody.Create | Body.py:16-21 | None is refused; a given root is kept unchecked; otherwise the computed root is stored, or the builder's error is propagated |
| Body.BlockBody.ToDict | Body.py:28-29 | exactly the stored transactions and root |
| Body.EmptyBatchRefused | Body.py:19-21 | an empty batch with no root fails with the builder's no-leaves error |
| Body.ComputedRootIsTreeRoot | Body.py:19-21 | a computed root is the Merkle root of the batch's leaves |
| Header.Zeros | Header.py:28 | `"0" * n` has max(n, 0) characters, all `0` |
| Header.ValidateHash | Header.py:44-46 | true iff the value is a string whose first `difficulty` characters exist and are all `0` (any string when difficulty is not positive) |
| Header.FirstWhere | Header.py:29-35 | definition of the nonce search: the first value of `[lo, hi)` that passes, or none; `FirstWhereIsLeast` and `FirstWhereIs` state what it finds |
| Header.FirstWhereIsLeast | Header.py:29-35 | the search finds the least passing nonce of the range, and nothing iff none passes |
| Header.FirstWhereIs | Header.py:29-35 | the least passing nonce, or none, is what the search finds |
| Header.FirstWhereStep | Header.py:30-35 | the search stops at a passing nonce and moves on from a failing one |
| Header.BlockHeader.constructor | Header.py:7-15 | the fields as given, with the defaults nonce 0, difficulty 3, not genesis |
| Header.BlockHeader.WithCurrentTime | Header.py:48-51 | timestamp is the current time, nonce 0, not genesis |
| Header.BlockHeader.Genesis | Header.py:53-57 | prev_hash is `00000000`, nonce 0, genesis; timestamp defaults to 0 and a missing one means now |
| Header.BlockHeader.FromBody | Header.py:59-69 | the header commits to the body's Merkle root |
| Header.BlockHeader.Hash | Header.py:20-23 | 8 characters; a genesis header hashes to the sentinel |
| Header.BlockHeader.ValidateProofOfWork | Header.py:38-41 | always true for genesis; otherwise true iff the nonce meets the difficulty |
| Header.BlockHeader.Mine | Header.py:25-36 | genesis returns the sentinel, nonce untouched; otherwise succeeds iff a nonce in [start, max) passes, leaving the least one in `nonce` and returning its hash; on failure `nonce` is max-1, or untouched when start >= max |
| Header.BlockHeader.SearchNonces | Header.py:28-36 | the `while` loop finds the least nonce of [start, max) that passes, leaves it in `nonce` and returns its hash, or fails with `nonce` at max-1 (untouched when start >= max) |
| Header.BlockHeader.TryNonce | Header.py:31-33 | one turn writes n into `nonce`, hashes, and tests the prefix: the hash and verdict for nonce n |
| Header.SerializeFields | Header.py:17-18 | definition of the serialization of given field values, numbers written as `str` does; `SerializeIsSixFields` and `SerializeSplitsBack` state its properties |
| Header.BlockHeader.Serialize | Header.py:17-18 | `serialize()`: the serialization of the header's current fields and nonce |
| Header.SerializeIsSixFields | Header.py:17-18 | the serialization is the six fields joined by `|`, in order |
| Header.SerializeSplitsBack | Header.py:17-18 | it splits back into the six fields when the string fields hold no `|` |
| Header.GenesisHashIgnoresFields | Header.py:20-22 | a genesis header hashes to `00000000` whatever its other fields |
| Header.NonGenesisHash | Header.py:20-23 | a non-genesis header hashes to the digest of its serialization |
| Header.NoDigestMeetsDifficultyAboveEight | Header.py:44-46 | no digest passes a difficulty above 8 |
| Header.MinedHeaderValidates | Header.py:25-41 | at the nonce `mine` settles on, the proof of work and `validate_hash` both pass, and no smaller nonce of the range would have |
| Header.NothingMinesAboveEight | Header.py:25-36 | above difficulty 8 no nonce passes, so `mine` on a non-genesis header always fails |
| Chunk.Chunks | chunk.py:10-18 | step 0 raises, a negative step gives no chunks, a positive step gives ceil(len/n) chunks; the step defaults to 5 |
| Chunk.ChunksConcatenate | chunk.py:18 | the chunks concatenated in order are the rows |
| Chunk.ChunkCountIsCeiling | chunk.py:18 | the count is the least whose chunks reach the end: ceil(len/n) |
| Chunk.ChunkSizes | chunk.py:18 | every chunk but the last has n rows, the last 1..n |
| Chunk.NoEmptyChunk | chunk.py:18 | no chunk is empty, and there are none iff there are no rows |
| UserGenerator.UserGenerator.constructor | user_generator.py:7-14 | the parameters as given, no users, the fixed name lists |
| UserGenerator.UserGenerator.MakeName | user_generator.py:16-17 | `#idx First Last` from the drawn positions of the fixed lists |
| UserGenerator.UserGenerator.MakePublicKey8 | user_generator.py:20-21 | the hash of the name: 8 lowercase hex characters |
| UserGenerator.UserGenerator.MakeBalance | user_generator.py:23-24 | the drawn balance, within [min_bal, max_bal], or the error iff that range is empty |
| UserGenerator.UserGenerator.Generate | user_generator.py:26-33 | clears the list, then holds exactly n new users, user i named from the draws, keyed by the hash of its name, with a balance in range; an empty range fails at the first user |
| UserGenerator.NameSplitsBack | user_generator.py:17 | a name splits on spaces into `#idx`, first and last name |
| UserGenerator.NamesDistinct | user_generator.py:16-29 | different user numbers give different names |
| UserGenerator.FixedNamesHaveNoSpaces | user_generator.py:13-14 | none of the fixed names contains a space |
| Mining.BuildBlockDict | procesas.py:84-104 | the record holds the header fields, `serialize()` + ` ---> ` + the hash, the same root in header and body, and the attached transactions with their count |
| Mining.RecordedHashIsDigestOfSerialization | procesas.py:84-96 | recorded with its own hash, a non-genesis header's `serialize` entry is its serialization, the arrow and the digest of that serialization |
| Mining.HashWith | procesas.py:28 | the hash of a header with given fields and nonce has 8 characters |
| Mining.HashIsHashWith | procesas.py:28 | `header.hash()` depends on the current nonce and the other fields only |
| Mining.PassesIsTarget | procesas.py:29 | for a non-genesis header, passing `validate_hash` is the proof-of-work target |
| Mining.GenesisPasses | procesas.py:29 | a genesis header passes at every nonce iff the difficulty is at most 8 |
| Mining.OwnSearch | procesas.py:28-29 | the header's own hash and check are a valid view of its search |
| Mining.Stat.constructor | procesas.py:44 | a counter record starts at 0 tries, not found, no time |
| Mining.Race.constructor | procesas.py:42-44 | an empty winner slot and zeroed counters, one separate fresh record per candidate |
| Mining.Race.Claim | procesas.py:30-36 | the slot is written only while empty, with header, hash and index, and only then is the claimant marked found with its time; otherwise nothing changes; no other candidate's counters change |
| Mining.Race.Step | procesas.py:26-29 | nonce and tries go up by one together, then the hash of the new nonce and its check; no other candidate's counters change |
| Mining.Race.MineCandidate | procesas.py:23-38 | with the slot taken nothing is tried; otherwise the nonces above the start are tried in order, nonce and tries advance together, and the loop claims the least passing nonce within the budget or exhausts the budget without one; no other candidate's counters change |
| Mining.ClaimedHeaderValidates | procesas.py:29-38 | a claimed header passes its own proof of work, and the recorded hash is its own hash and passes `validate_hash` |
| Mining.LimitAt | procesas.py:127-153 | definition of the limit of round k: the initial limit doubled k times |
| Mining.Retry | procesas.py:127-153 | definition of the retry loop: rounds from `attempt` on, the limit doubled after each round without a winner, stopping at the first winner or after 6 rounds; `RetrySchedule` states its properties |
| Mining.RetrySchedule | procesas.py:127-153 | at most 6 rounds; round k runs with the initial limit doubled k times; all rounds before the last had no winner; without a winner all 6 ran |
| Mining.MineRounds | procesas.py:127-157 | the loop follows that schedule, and a block is appended to the chain only when a winner exists, built from its header and hash |

## Left out

- File and CSV I/O are not modelled: `save_transactions`, `save_minimal_csv`, `load_users_from_file`, `to_text_file`, `write_chunks_to_file`, `append_block_to_chain` and the CSV read of `chunk_transactions`. The chain file is a sequence argument.
- `pick_random_transactions`, `BlockBody.from_csv` and `generate_candidates` are left out: they read CSV files and the clock.
- `remove_transactions_from_csv` and the transaction-id collection after a block is appended are left out; block_body.py is not part of this model.
- `main.py`, the `__main__` blocks, `__repr__` and all printing are not part of this model.
- `try_mine_parallel_multiprocessing` is not modelled: processes, `Manager`, `Lock`, `terminate` and the polling loop are concurrency. Each round of the retry loop is an oracle that returns the winner or none.
- Mining.Race.MineCandidate: runs one candidate on its own. No rival claims the slot between its steps. The deadline test is a step budget, and the elapsed time is a parameter.
- Mining.Race.Claim: the lock is modelled as the method running without interruption.
- Mining.MineRounds: `time_limit` is a real number doubled exactly, not a float. The round's wall-clock duration and the printed statistics are left out.
- TransactionGenerator.FractionsValid: each `int(x * random.uniform(a, b))` is only known to lie between 0 and x. The 10-30%, 60-90%, 30-90% and 50-90% ranges are not modelled, so the lemmas hold for any such draws.
- The draws of `generate_transactions`: `random.random() < 0.3` is a boolean parameter. `random.choice` on the live outputs is an index reduced modulo their number.
- TransactionGenerator.UTXOGenerator.GenerateTransactions: when some round is played (`n_txs > 0` and some output is live), requires the receiver draw to name a user other than the sender. With fewer than two distinct keys the source's re-draw loop never ends (or `random.choice` raises on an empty user list), and such a run is not modelled. Runs that play no round, such as no users, users without a positive balance or `n_txs <= 0`, are modelled.
- TransactionGenerator.UTXOGenerator.Choose: the source skips a round when the sender owns no outputs. The sender always owns the drawn output, so that case cannot happen, and the model proves the owned list non-empty instead.
- TransactionGenerator.UTXOGenerator.CreateGenesisUtxos: the 10-30% share is a parameter.
- Header.BlockHeader.FromBody: the `TypeError` for a body that is not a `BlockBody` is left out, because the parameter's type rules it out.
- Header.BlockHeader.Genesis: the `int(timestamp)` conversion of a non-integer timestamp is left out.
- Header.BlockHeader.WithCurrentTime: the clock reading is the parameter `now`.
- Strings containing surrogate code points (U+D800–U+DFFF) are not modelled: a Dafny string cannot hold them, although a Python `str` can and `ord` hashes them.
- Merkle.Leaves: records are maps from string to string, as the CSV reader produces. So `str(amount)` is the amount field itself, and non-string field values are not modelled.
- Chunk.Chunks: the seeded shuffle before chunking is left out; the rows are taken as given.
- UserGenerator.UserGenerator.Generate: the `random.choice` and `random.randint` results are parameters.
