# rustcoin consensus, modelled in Dafny

This project models the consensus handlers of rustcoin, a minimal
cryptocurrency. It covers `consensus/lib.rs` and the genesis construction in
`rustcoin/main.rs`.

- `verify_new_block` checks a raw block, in this order: a size cap of
  1,000,000 bytes, the 70-byte header's version `[0,1]`, the difficulty
  predicate, the previous-block hash, and the transaction hash. It then walks
  every transaction after the 33-byte coinbase key.
- On success it writes three things: the candidate outputs, a 39-byte coinbase
  record, and the block itself with its hash stored as the tip at key `[1]`.
- `verify_tx` reads a transaction with a fixed binary layout. It checks each
  input against the store. It builds a 41-byte candidate record per output.
  It returns the byte offset reached together with the candidates.
- In standalone mode, `verify_tx` also appends the candidates to the mempool
  blob at key `[1,2]`.
- `construct_genesis` builds the 102-byte genesis block and inserts it.

The model follows the code as written, including these quirks:

- The first input reference is read from offset 2, so it overlaps the
  input-count byte.
- `sum_inputs` is never increased, so only transactions whose output values
  are all zero pass.
- The result of the signature check is discarded.
- The 6-byte output value is read in base 16, not base 256.
- Candidate records are 41 bytes long.
- `add_to_utxo_set` drains its vectors with `append`. Every value it stores is
  therefore empty, and only the first key includes the header.
- In standalone mode the mempool append also drains the candidates, so
  `verify_tx` then returns empty candidates.
- The 102-byte genesis block can never pass `verify_new_block`.

Layout:

- `types.dfy` (module `Types`): bytes, 32-byte digests, the error messages,
  and the `Outcome` of a call. An outcome is `Ok`, `Err` (a returned error) or
  `Panic` (a Rust panic from an out-of-range slice or an `unwrap` of `None`).
- `transaction.dfy` (module `Transaction`): the layout that `verify_tx` walks,
  stated as functions of the store contents and the bytes, with lemmas about
  it.
- `consensus.dfy` (module `Consensus`): the class `Store`. It holds the
  key-value store as a `map` field, `kv`. It has one method per handler. Each
  method is proved against the functions that specify it.
- `rustcoin.dfy` (module `Rustcoin`): the genesis block, `construct_genesis`
  and `init_chain`.

The helpers from the `utils` crate are not part of this model. They are
`const` function fields of `Store`, fixed when it is built, and otherwise
unconstrained:

- `hash`, which returns 32 bytes;
- `hash_satisfies_difficulty`;
- `get_prev_block_hash`, taken to be some function of the store contents;
- `verify_signature`.

## Model

| member | source | states |
|---|---|---|
| `Transaction.ParseInputs` | consensus/lib.rs:159-201 | For `n` inputs from cursor `s`, success lands the cursor at least `33*n` further and within the bytes. The only error it returns is InvalidUtxo; `InputsValidity` states when. |
| `Transaction.ParseOutputs` | consensus/lib.rs:203-229 | After `n` outputs the cursor is exactly `s + 39*n`, within the bytes, with one new candidate per output appended after the earlier ones. The only error is OutputsExceedInputs. |
| `Transaction.TxOutcome` | consensus/lib.rs:145-229 | An accepted transaction consumes at least 3 bytes and no more than it has, so the block loop always advances. Its errors are only TxVersion, InvalidUtxo and OutputsExceedInputs. |
| `Transaction.DecodeValueIsBase16` | consensus/lib.rs:211-214 | The running `cache_sum * 16 + byte` equals the sum of `b_i * 16^(5-i)`: the 6-byte value is read in base 16. |
| `Transaction.DecodeValueZero` | consensus/lib.rs:211-219 | A value decodes to 0 exactly when all its bytes are 0. |
| `Transaction.ValueFitsU64` | consensus/lib.rs:205-215 | A 6-byte value decodes to at most 285,212,655, so `cache_sum` never wraps its `u64`. |
| `Transaction.InputsFollowLayout` | consensus/lib.rs:161-201 | The cursor after a successful input walk equals the layout sum of `33 + sigLen` over the inputs. |
| `Transaction.InputsValidity` | consensus/lib.rs:161-201 | Both directions: the input walk succeeds exactly when the inputs fit the `33 + sigLen` layout and every 32-byte reference is in the store with a 39-byte value. When the layout fits, the walk never panics, so a reference that is absent, or present with another length, gives InvalidUtxo. |
| `Transaction.OutputsLayout` | consensus/lib.rs:207-229 | Candidate `k`, in output order, is `[0,1]` followed by the 39 bytes of output `k` (value then key): 41 bytes. |
| `Transaction.OutputsAcceptOnlyZero` | consensus/lib.rs:160-219 | With `sum_inputs` at 0, outputs that fit in the bytes are accepted exactly when every value is zero. Otherwise the walk fails with OutputsExceedInputs. |
| `Transaction.OutputsStopAtFirstNonzero` | consensus/lib.rs:207-219 | When outputs `0..k-1` fit and are zero, and the 6 value bytes of output `k` fit and decode to a nonzero value, the walk ends in OutputsExceedInputs, whatever bytes follow. |
| `Transaction.AcceptedTxShape` | consensus/lib.rs:145-254 | An accepted transaction has version `[0,1]`, and `pc == 3 + sum(33 + sigLen) + 39 * outputCount`. Its candidates are exactly the output records, in order. |
| `Transaction.AcceptedTxCarriesNoValue` | consensus/lib.rs:160-229 | Every candidate of an accepted transaction is a 41-byte record with version `[0,1]` and an all-zero value. |
| `Transaction.TxAcceptance` | consensus/lib.rs:145-229 | Both directions: a transaction is accepted exactly when it has at least 3 bytes, version `[0,1]`, inputs that walk without error, an output count inside the bytes, outputs that fit in the bytes, and every output value zero. |
| `Transaction.TxRejections` | consensus/lib.rs:145-203 | Fewer than 2 bytes, or exactly `[0,1]`, panics. Another version gives TxVersion. Inputs that fit the layout but reference an unspendable record give InvalidUtxo. Spendable inputs that use every remaining byte leave no output-count byte and panic. |
| `Transaction.FirstReferenceOverlapsCount` | consensus/lib.rs:159-184 | With at least one input, the first reference is `tx[2..34]`, which starts with the count byte. An accepted transaction needs `tx[2..34]` to name a 39-byte record. When it names no record, or a record of another length, the result is InvalidUtxo. |
| `Types.MessageIdentifiesError` | consensus/lib.rs:26-219 | Each error can be recovered from its message string alone. |
| `Types.MessagesDistinct` | consensus/lib.rs:26-219 | Distinct error values stand for distinct message strings, so comparing errors is comparing the strings the source returns. |
| `Consensus.BlockTxCheck` | consensus/lib.rs:145-229 | `verify_tx` in block mode answers every transaction as `TxOutcome` against the store. It consumes at least one byte for every accepted transaction, and fails only with its own errors. |
| `Consensus.TxLoop` | consensus/lib.rs:61-71 | With such a check, a failing walk over the block's transactions fails only with one of `verify_tx`'s errors, passed through unchanged. |
| `Consensus.TxLoopCandidates` | consensus/lib.rs:61-71 | If every transaction the check accepts yields zero-valued candidates, a successful walk keeps the candidates collected so far as a prefix and adds only zero-valued 41-byte records. |
| `Consensus.Store.CheckBlock` | consensus/lib.rs:26-71 | An accepted block has 103 to 1,000,000 bytes and version `[0,1]`. Its header satisfies the difficulty predicate. Bytes 2..34 equal the previous block hash, and bytes 34..66 equal the hash of `block[70..]`. |
| `Consensus.Store.BlockRejections` | consensus/lib.rs:27-56 | The first failing check decides the outcome, in the source's order: BlockTooLarge, then a panic on fewer than 70 bytes, then BlockVersion, InvalidNonce, PrevHashMismatch and TxHashMismatch. |
| `Consensus.Store.CommitEffects` | consensus/lib.rs:73-140 | After the three writes the tip `[1]` holds the block's hash, and the block is stored under that hash. The 39-byte coinbase record is stored under its own hash unless the block overwrote it. Output ids hold empty values unless a later write overwrote them. The keys are exactly the old keys plus those written, and no other key changes. |
| `Consensus.Store.CommittedOutputsUnspendable` | consensus/lib.rs:103-122 | An output id written by a commit, unless the coinbase record or the block overwrote it, is rejected as InvalidUtxo by any input that references it afterwards. |
| `Consensus.Store.AcceptedBlockCarriesNoValue` | consensus/lib.rs:58-73 | Every candidate passed to `add_to_utxo_set` for an accepted block is a zero-valued 41-byte record. |
| `Consensus.Store.ParseTx` | consensus/lib.rs:145-229 | The version check, the input loop and the output loop compute exactly `TxOutcome` against the current store, and write nothing. |
| `Consensus.Store.ReadInputs` | consensus/lib.rs:159-201 | The input loop from cursor 2 computes exactly `ParseInputs` against the current store. It drops the signature check's answer and writes nothing. |
| `Consensus.Store.ReadOutputs` | consensus/lib.rs:203-229 | The output loop, with its inner base-16 value loop, computes exactly `ParseOutputs` with both sums starting at 0. It writes nothing. |
| `Consensus.Store.VerifyTx` | consensus/lib.rs:145-255 | In block mode, or on any error or panic, the result is `TxOutcome` and the store is unchanged. In standalone mode, per `MempoolEffect`: a missing `[1,2]` panics with the store unchanged. Otherwise `[1,2]` becomes the old blob plus all candidates in order, and the candidates come back drained, as empty blobs. |
| `Consensus.Store.AddToUtxoSet` | consensus/lib.rs:103-123 | Every candidate id `hash(utxo_i ++ header-if-first ++ [i mod 256])` maps to the empty blob, and nothing else changes. The candidates come back drained, and the header comes back drained whenever there was a candidate. |
| `Consensus.Store.AddCoinbaseToUtxoSet` | consensus/lib.rs:80-99 | The store gains the record `[0,1] ++ [0,0,0xff,0] ++ dest` under its hash, and nothing else changes. |
| `Consensus.Store.InsertBlock` | consensus/lib.rs:127-141 | The block is stored under its hash, and `[1]` holds that hash. |
| `Consensus.Store.VerifyBlockTxs` | consensus/lib.rs:60-71 | Given a check that answers every transaction as `verify_tx` does in block mode against the current store, the loop from cursor 33 computes exactly `TxLoop` with that check. It leaves the store unchanged. |
| `Consensus.Store.VerifyNewBlock` | consensus/lib.rs:26-77 | On an accepted block, returns `Ok(true)` and the store becomes `Commit` of the old store. On an error, returns that same error; on a panic, panics. In both cases the store is unchanged. |
| `Rustcoin.GenesisLayout` | rustcoin/main.rs:25-42 | The genesis block is 102 bytes. It starts with `[0,1]`, its previous hash, transaction hash and nonce are zero, and its coinbase destination is 32 zero bytes. |
| `Rustcoin.GenesisNeverVerifies` | rustcoin/main.rs:30-42 | `verify_new_block` on the genesis block, against any store, ends in InvalidNonce, PrevHashMismatch or TxHashMismatch, or panics slicing a 33-byte key from 32 bytes (consensus/lib.rs:58). |
| `Rustcoin.ConstructGenesis` | rustcoin/main.rs:25-46 | The appended vectors form the genesis block. The block is stored under its hash, `[1]` points at it, and the returned bytes are the stored bytes. |
| `Rustcoin.InitChain` | rustcoin/main.rs:21-23 | The only effect is the genesis insertion into the store. |

## Left out

- Storage plumbing is not modelled: `Manager::singleton`, the environment, reader and writer handles, the `./db/store` path, and the `.unwrap()` on storage results. A storage failure cannot happen in the model.
- Each put and commit is a sequential map update. Crash atomicity across the separate commits of `add_to_utxo_set`, the coinbase write and `insert_block` is not modelled, nor is the reader opened beside the writer in `verify_tx`.
- The internals of `utils::hash`, `hash_satisfies_difficulty`, `get_prev_block_hash` and `verify_signature` are not part of this model. They are unconstrained function fields, except that `hash` returns 32 bytes.
- The "Invalid mempool values" error (consensus/lib.rs:238) cannot arise: every stored value is a blob in the model.
- A Rust panic is the `Panic` outcome: a slice out of range, or the `unwrap` of a missing `[1,2]`. Unwinding and what a caller does after a panic are not modelled. No write precedes any panic point, so the store is unchanged.
- Fixed-width integers are mathematical. `ValueFitsU64` shows that a decoded value stays below 2^64. `sum_outputs` holds at most one nonzero value before the check fails. Cursor arithmetic on `usize` stays within the input length.
- Some behaviour that the design calls for is absent from the code, so the model leaves it out too: removing spent outputs, letting the signature check decide acceptance, accumulating `sum_inputs`, and selecting or evicting mempool entries.
- `main()` is empty, and the unused imports in rustcoin/main.rs are not modelled.

## Design versus code

The system's design description differs from the code in these places. The model follows the code in each.

- The design asks for stored output records of 39 bytes, with a 4-byte value. The code builds 41-byte candidates with a 6-byte value, and stores them with empty values.
- The design asks that the input total be accumulated and that the signature check decide acceptance. The code does neither.
- The design asks for one atomic commit per block. The code commits each write separately.
- The design names distinct error kinds. The code returns message strings. `Types.Message` gives them verbatim, and `Types.MessagesDistinct` shows that no two errors share a string.
- The design says a block is rejected with an error on every failure. The code panics on short input.
