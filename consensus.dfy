/**
 * The consensus handlers of consensus/lib.rs: verification of new blocks and
 * transactions, and the writes that follow to the key-value store.
 *
 * The store is the `kv` field of a `Store` object. The helpers the source
 * calls from its `utils` crate are given to the object when it is built and
 * left uninterpreted: the block hash, the difficulty predicate, the lookup of
 * the previous block's hash (any function of the store contents) and the
 * signature check.
 */
module Consensus {
  import opened Types
  import opened Transaction

  const MaxBlockSize: nat := 1_000_000
  const HeaderSize: nat := 70
  const CoinbaseKeySize: nat := 33

  /** Key under which the hash of the last accepted block is kept. */
  const TipKey: Bytes := [1]

  /** Key of the mempool blob. */
  const MempoolKey: Bytes := [1, 2]

  /** The fixed block reward written into every coinbase record. */
  const BlockReward: Bytes := [0, 0, 0xff, 0]

  /** The record `add_coinbase_to_utxo_set` stores: version, reward, destination. */
  function CoinbaseRecord(dest: Bytes): Bytes
  {
    Version + BlockReward + dest
  }

  /** What a per-transaction check returns for the bytes from the cursor on. */
  type TxCheck = Bytes -> Outcome<TxReturn>

  /** A check that consumes at least one byte per accepted transaction and fails only with `verify_tx`'s errors. */
  ghost predicate WellBehaved(check: TxCheck)
  {
    forall tx :: (check(tx).Ok? ==> 0 < check(tx).value.pc) && (check(tx).Err? ==> TxError(check(tx).error))
  }

  /** `check` answers for `tx` as `verify_tx` does in block mode against store contents `db`. */
  ghost predicate Checks(check: TxCheck, db: KeyValues, tx: Bytes) {
    check(tx) == TxOutcome(db, tx)
  }

  /** `verify_tx` in block mode against store contents `db`. */
  function BlockTxCheck(db: KeyValues): (check: TxCheck)
    ensures WellBehaved(check)
    ensures forall tx :: Checks(check, db, tx)
  {
    tx => TxOutcome(db, tx)
  }

  /**
   * The transaction loop of `verify_new_block`: from cursor `pc` in the block
   * payload, apply `check` to the rest, collect the candidates into `valid`
   * and advance by the returned `pc`, until the cursor reaches the end.
   */
  function TxLoop(check: TxCheck, allTx: Bytes, pc: nat, valid: seq<Bytes>): (r: Outcome<seq<Bytes>>)
    requires WellBehaved(check)
    ensures r.Err? ==> TxError(r.error)
    decreases |allTx| - pc
  {
    if pc >= |allTx| then Ok(valid)
    else
      match check(allTx[pc..])
      case Ok(t) => TxLoop(check, allTx, pc + t.pc, valid + t.utxos)
      case Err(e) => Err(e)
      case Panic => Panic
  }

  /** Every key of `keys` mapped to the empty blob. */
  function EmptyValued(keys: set<Bytes>): KeyValues
  {
    map k | k in keys :: []
  }

  lemma PutEmpty(db: KeyValues, keys: set<Bytes>, k: Bytes)
    ensures (db + EmptyValued(keys))[k := []] == db + EmptyValued(keys + {k})
  {
  }

  /**
   * The writes of a commit on plain keys: empty values under `ids`, then `cb`
   * under `c`, then `block` under `h`, then `h` under the tip key.
   */
  lemma StoreWrites(db: KeyValues, ids: set<Bytes>, c: Bytes, cb: Bytes, h: Bytes, block: Bytes)
    requires TipKey !in ids && h != TipKey && c != TipKey
    ensures var after := (db + EmptyValued(ids))[c := cb][h := block][TipKey := h];
      && after[TipKey] == h
      && after[h] == block
      && (c != h ==> after[c] == cb)
      && (forall k :: k in ids && k != c && k != h ==> after[k] == [])
      && after.Keys == db.Keys + ids + {c, h, TipKey}
      && (forall k :: k in db && k !in ids && k != c && k != h && k != TipKey ==> after[k] == db[k])
  {
    assert (db + EmptyValued(ids)).Keys == db.Keys + ids;
  }

  /** One round of the transaction loop, given the outcome `o` of its transaction. */
  lemma TxLoopStep(check: TxCheck, allTx: Bytes, pc: nat, valid: seq<Bytes>, o: Outcome<TxReturn>)
    requires WellBehaved(check)
    requires pc < |allTx| && o == check(allTx[pc..])
    ensures o.Ok? ==> TxLoop(check, allTx, pc, valid) == TxLoop(check, allTx, pc + o.value.pc, valid + o.value.utxos)
    ensures o.Err? ==> TxLoop(check, allTx, pc, valid) == Err(o.error)
    ensures o.Panic? ==> TxLoop(check, allTx, pc, valid) == Panic
  {
  }

  /** `u` keeps `valid` as a prefix and adds only zero-valued 41-byte records after it. */
  predicate ZeroExtension(u: seq<Bytes>, valid: seq<Bytes>)
  {
    |valid| <= |u| && u[..|valid|] == valid
    && forall j :: |valid| <= j < |u| ==> ZeroValueCandidate(u[j])
  }

  /**
   * When every transaction `check` accepts yields zero-valued candidates, so
   * does a successful walk over the whole payload.
   */
  lemma {:induction false} TxLoopCandidates(check: TxCheck, allTx: Bytes, pc: nat, valid: seq<Bytes>)
    requires WellBehaved(check)
    requires forall tx :: check(tx).Ok? ==> ZeroCandidates(check(tx).value.utxos)
    requires TxLoop(check, allTx, pc, valid).Ok?
    ensures ZeroExtension(TxLoop(check, allTx, pc, valid).value, valid)
    decreases |allTx| - pc
  {
    if pc < |allTx| {
      var o := check(allTx[pc..]);
      TxLoopStep(check, allTx, pc, valid, o);
      var t := o.value;
      var w := valid + t.utxos;
      TxLoopCandidates(check, allTx, pc + t.pc, w);
      CandidatesExtend(valid, t.utxos, TxLoop(check, allTx, pc + t.pc, w).value);
    }
  }

  /** Candidates collected after a zero-valued batch `ts` extend the ones before it with zero-valued records only. */
  lemma CandidatesExtend(valid: seq<Bytes>, ts: seq<Bytes>, u: seq<Bytes>)
    requires ZeroCandidates(ts)
    requires ZeroExtension(u, valid + ts)
    ensures ZeroExtension(u, valid)
  {
    var w := valid + ts;
    assert u[..|valid|] == w[..|valid|];
    forall j | |valid| <= j < |w| ensures ZeroValueCandidate(u[j]) {
      assert u[j] == w[j] == ts[j - |valid|];
    }
  }

  /** `n` empty blobs: what a vector of `n` blobs holds after each was drained by `append`. */
  function Drained(n: nat): (d: seq<Bytes>)
    ensures |d| == n && forall j :: 0 <= j < n ==> d[j] == []
  {
    seq(n, _ => [])
  }

  /**
   * What standalone `verify_tx` does after accepting a transaction with
   * result `p`, taking store `db` to `db'` and returning `r`: without a
   * mempool blob at `[1,2]` it panics; otherwise the candidates are appended
   * to that blob in order and come back drained, all empty.
   */
  predicate MempoolEffect(db: KeyValues, p: TxReturn, r: Outcome<TxReturn>, db': KeyValues)
  {
    if MempoolKey !in db then r == Panic && db' == db
    else
      && r == Ok(TxReturn(p.pc, Drained(|p.utxos|)))
      && db' == db[MempoolKey := db[MempoolKey] + Concat(p.utxos)]
  }

  class Store {
    /** The contents of the key-value store at `./db/store`. */
    var kv: KeyValues

    /** `utils::hash` (SHA-256). */
    const hash: Bytes -> Digest
    /** `utils::hash_satisfies_difficulty`, applied to the 70-byte header. */
    const satisfiesDifficulty: Bytes -> bool
    /** `utils::get_prev_block_hash`, as a function of the store contents. */
    const prevBlockHash: KeyValues -> Bytes
    /** `utils::verify_signature(owner, signature, message)`. */
    const verifySignature: (Bytes, Bytes, Bytes) -> bool

    constructor (initial: KeyValues, hash: Bytes -> Digest, satisfiesDifficulty: Bytes -> bool,
                 prevBlockHash: KeyValues -> Bytes, verifySignature: (Bytes, Bytes, Bytes) -> bool)
      ensures kv == initial
      ensures this.hash == hash && this.satisfiesDifficulty == satisfiesDifficulty
      ensures this.prevBlockHash == prevBlockHash && this.verifySignature == verifySignature
    {
      kv := initial;
      this.hash := hash;
      this.satisfiesDifficulty := satisfiesDifficulty;
      this.prevBlockHash := prevBlockHash;
      this.verifySignature := verifySignature;
    }

    /**
     * The checks of `verify_new_block` on store contents `db`, in the source's
     * order; on success, the candidate records of all its transactions.
     */
    function CheckBlock(db: KeyValues, block: Bytes): (r: Outcome<seq<Bytes>>)
      ensures r.Ok? ==> HeaderSize + CoinbaseKeySize <= |block| <= MaxBlockSize
      ensures r.Ok? ==> block[..2] == Version && satisfiesDifficulty(block[..HeaderSize])
      ensures r.Ok? ==> block[2..34] == prevBlockHash(db) && block[34..66] == hash(block[HeaderSize..])
    {
      if |block| > MaxBlockSize then Err(BlockTooLarge)
      else if |block| < HeaderSize then Panic
      else
        var header := block[..HeaderSize];
        if header[..2] != Version then Err(BlockVersion)
        else if !satisfiesDifficulty(header) then Err(InvalidNonce)
        else if header[2..34] != prevBlockHash(db) then Err(PrevHashMismatch)
        else
          var allTx := block[HeaderSize..];
          if header[34..66] != hash(allTx) then Err(TxHashMismatch)
          else if |allTx| < CoinbaseKeySize then Panic
          else TxLoop(BlockTxCheck(db), allTx, CoinbaseKeySize, [])
    }

    /**
     * The key `add_to_utxo_set` writes candidate `i` under: the hash of the
     * candidate, the header (only for `i == 0`: the first append drains it) and
     * the index as a `u8`.
     */
    function UtxoId(utxos: seq<Bytes>, header: Bytes, i: nat): Digest
      requires i < |utxos|
    {
      hash(utxos[i] + (if i == 0 then header else []) + [i % 256])
    }

    function UtxoIds(utxos: seq<Bytes>, header: Bytes, n: nat): (ids: set<Bytes>)
      requires n <= |utxos|
      ensures forall k :: k in ids ==> |k| == 32
    {
      set i | 0 <= i < n :: UtxoId(utxos, header, i)
    }

    lemma UtxoIdsStep(utxos: seq<Bytes>, header: Bytes, n: nat)
      requires n < |utxos|
      ensures UtxoIds(utxos, header, n + 1) == UtxoIds(utxos, header, n) + {UtxoId(utxos, header, n)}
    {
    }

    /** Store contents after `add_to_utxo_set`: each key written maps to the empty blob. */
    function AfterUtxos(db: KeyValues, utxos: seq<Bytes>, header: Bytes): KeyValues
    {
      db + EmptyValued(UtxoIds(utxos, header, |utxos|))
    }

    function AfterCoinbase(db: KeyValues, dest: Bytes): KeyValues
    {
      db[hash(CoinbaseRecord(dest)) := CoinbaseRecord(dest)]
    }

    function AfterInsertBlock(db: KeyValues, block: Bytes): KeyValues
    {
      db[hash(block) := block][TipKey := hash(block)]
    }

    /** The three writes that end a successful `verify_new_block`, in order. */
    function Commit(db: KeyValues, block: Bytes, utxos: seq<Bytes>): KeyValues
      requires |block| >= HeaderSize + CoinbaseKeySize
    {
      var afterUtxos := AfterUtxos(db, utxos, block[..HeaderSize]);
      var afterCoinbase := AfterCoinbase(afterUtxos, block[HeaderSize..HeaderSize + CoinbaseKeySize]);
      AfterInsertBlock(afterCoinbase, block)
    }

    /** The first failing header check decides the error. */
    lemma BlockRejections(db: KeyValues, block: Bytes)
      ensures |block| > MaxBlockSize ==> CheckBlock(db, block) == Err(BlockTooLarge)
      ensures |block| < HeaderSize ==> CheckBlock(db, block) == Panic
      ensures HeaderSize <= |block| <= MaxBlockSize ==>
        (block[..2] != Version ==> CheckBlock(db, block) == Err(BlockVersion))
        && (block[..2] == Version && !satisfiesDifficulty(block[..HeaderSize]) ==>
              CheckBlock(db, block) == Err(InvalidNonce))
        && (block[..2] == Version && satisfiesDifficulty(block[..HeaderSize]) && block[2..34] != prevBlockHash(db) ==>
              CheckBlock(db, block) == Err(PrevHashMismatch))
        && ((block[..2] == Version && satisfiesDifficulty(block[..HeaderSize]) && block[2..34] == prevBlockHash(db)
             && block[34..66] != hash(block[HeaderSize..])) ==> CheckBlock(db, block) == Err(TxHashMismatch))
    {
      if HeaderSize <= |block| <= MaxBlockSize {
        var header := block[..HeaderSize];
        assert header[..2] == block[..2] && header[2..34] == block[2..34] && header[34..66] == block[34..66];
      }
    }

    /**
     * After the commit of a block: the tip points at the block's hash, the
     * block is stored under it, the 39-byte coinbase record under its own hash
     * unless the block overwrote it, every candidate id with an empty value
     * unless a later write overwrote it, and every other key is unchanged.
     */
    lemma CommitEffects(db: KeyValues, block: Bytes, utxos: seq<Bytes>)
      requires |block| >= HeaderSize + CoinbaseKeySize
      ensures var after := Commit(db, block, utxos);
        var cb := CoinbaseRecord(block[HeaderSize..HeaderSize + CoinbaseKeySize]);
        var ids := UtxoIds(utxos, block[..HeaderSize], |utxos|);
        && after[TipKey] == hash(block)
        && after[hash(block)] == block
        && |cb| == UtxoRecordSize
        && (hash(cb) != hash(block) ==> after[hash(cb)] == cb)
        && (forall k :: k in ids && k != hash(cb) && k != hash(block) ==> after[k] == [])
        && after.Keys == db.Keys + ids + {hash(cb), hash(block), TipKey}
        && (forall k :: k in db && k !in ids && k != hash(cb) && k != hash(block) && k != TipKey ==> after[k] == db[k])
    {
      var h := hash(block);
      var cb := CoinbaseRecord(block[HeaderSize..HeaderSize + CoinbaseKeySize]);
      var ids := UtxoIds(utxos, block[..HeaderSize], |utxos|);
      assert Commit(db, block, utxos) == (db + EmptyValued(ids))[hash(cb) := cb][h := block][TipKey := h];
      assert TipKey !in ids && h != TipKey && hash(cb) != TipKey;
      StoreWrites(db, ids, hash(cb), cb, h, block);
    }

    /**
     * Outputs of an accepted block are stored with empty values, so no later
     * transaction can spend one: referencing it fails with InvalidUtxo.
     */
    lemma CommittedOutputsUnspendable(db: KeyValues, block: Bytes, utxos: seq<Bytes>, tx: Bytes, s: nat, n: nat)
      requires |block| >= HeaderSize + CoinbaseKeySize
      requires s + 32 <= |tx| && n > 0
      requires tx[s..s + 32] in UtxoIds(utxos, block[..HeaderSize], |utxos|)
      requires tx[s..s + 32] != hash(block)
      requires tx[s..s + 32] != hash(CoinbaseRecord(block[HeaderSize..HeaderSize + CoinbaseKeySize]))
      ensures ParseInputs(Commit(db, block, utxos), tx, s, n) == Err(InvalidUtxo)
    {
      CommitEffects(db, block, utxos);
    }

    /** Every candidate committed by an accepted block is a zero-valued 41-byte record. */
    lemma AcceptedBlockCarriesNoValue(db: KeyValues, block: Bytes)
      requires CheckBlock(db, block).Ok?
      ensures ZeroCandidates(CheckBlock(db, block).value)
    {
      var check := BlockTxCheck(db);
      forall tx | check(tx).Ok? ensures ZeroCandidates(check(tx).value.utxos) {
        AcceptedTxCarriesNoValue(db, tx);
      }
      TxLoopCandidates(check, block[HeaderSize..], CoinbaseKeySize, []);
    }

    /**
     * `verify_tx` up to (not including) the mempool write: reads the store
     * and the bytes, writes nothing.
     */
    method ParseTx(tx: Bytes) returns (r: Outcome<TxReturn>)
      ensures r == TxOutcome(kv, tx)
    {
      if |tx| < 2 { return Panic; }
      var version := tx[..2];
      if version != Version { return Err(TxVersion); }
      if |tx| < 3 { return Panic; }

      var inputCount := tx[2];
      var inputs := ReadInputs(tx, inputCount);
      match inputs {
        case Err(e) => return Err(e);
        case Panic => return Panic;
        case Ok(s) =>
          if s >= |tx| { return Panic; }
          var outputCount := tx[s];
          r := ReadOutputs(tx, s + 1, outputCount);
      }
    }

    /**
     * The input loop of `verify_tx`, from cursor 2: each input's 32-byte
     * reference must name a 39-byte record in the store; its signature is
     * checked and the answer dropped. Returns the cursor after the inputs.
     */
    method ReadInputs(tx: Bytes, inputCount: nat) returns (r: Outcome<nat>)
      requires 2 <= |tx|
      ensures r == ParseInputs(kv, tx, 2, inputCount)
    {
      var s: nat := 2;
      for i := 0 to inputCount
        invariant s <= |tx|
        invariant ParseInputs(kv, tx, s, inputCount - i) == ParseInputs(kv, tx, 2, inputCount)
      {
        if s + 32 > |tx| { return Panic; }
        var utxoTxHash := tx[s..s + 32];
        s := s + 32;
        if utxoTxHash !in kv || |kv[utxoTxHash]| != UtxoRecordSize {
          return Err(InvalidUtxo);
        }
        var utxo := kv[utxoTxHash];
        var utxoValue := utxo[2..6];  // read, never added to the input sum
        var utxoOwner := utxo[6..39];
        if s + 1 > |tx| { return Panic; }
        var sigSize := tx[s];
        s := s + 1;
        if s + sigSize > |tx| { return Panic; }
        var signature := tx[s..s + sigSize];
        var signatureOk := verifySignature(utxoOwner, signature, utxoTxHash);  // result unused
        s := s + sigSize;
      }
      return Ok(s);
    }

    /**
     * The output loop of `verify_tx`, from cursor `start`: each 6-byte value
     * is decoded and added to the output sum, which must not exceed the input
     * sum (never increased from 0); each output becomes a 41-byte candidate.
     */
    method ReadOutputs(tx: Bytes, start: nat, outputCount: nat) returns (r: Outcome<TxReturn>)
      requires start <= |tx|
      ensures r == ParseOutputs(tx, start, outputCount, 0, 0, [])
    {
      var sumInputs: nat := 0;
      var s: nat := start;
      var sumOutputs: nat := 0;
      var utxoVector: seq<Bytes> := [];
      for i := 0 to outputCount
        invariant s <= |tx|
        invariant ParseOutputs(tx, s, outputCount - i, sumOutputs, sumInputs, utxoVector)
               == ParseOutputs(tx, start, outputCount, 0, 0, [])
      {
        if s + 6 > |tx| { return Panic; }
        var valueArray := tx[s..s + 6];
        s := s + 6;

        var cacheSum: nat := 0;
        for j := 0 to |valueArray|
          invariant cacheSum == DecodeValue(valueArray[..j])
        {
          assert valueArray[..j + 1][..j] == valueArray[..j];
          cacheSum := cacheSum * 16 + valueArray[j];
        }
        assert valueArray[..|valueArray|] == valueArray;
        sumOutputs := sumOutputs + cacheSum;

        if sumOutputs > sumInputs { return Err(OutputsExceedInputs); }

        if s + 33 > |tx| { return Panic; }
        var toPubKey := tx[s..s + 33];
        var rawUtxo := Version + valueArray + toPubKey;
        utxoVector := utxoVector + [rawUtxo];
        s := s + 33;
      }
      return Ok(TxReturn(s, utxoVector));
    }

    /**
     * `verify_tx`. In block mode it writes nothing. In standalone mode an
     * accepted transaction's candidates are appended to the mempool blob at
     * `[1,2]` (a panic if that key is absent); the append drains them, so the
     * candidates returned are then all empty.
     */
    method VerifyTx(tx: Bytes, isBlock: bool) returns (r: Outcome<TxReturn>)
      modifies this
      ensures isBlock || !TxOutcome(old(kv), tx).Ok? ==> r == TxOutcome(old(kv), tx) && kv == old(kv)
      ensures !isBlock && TxOutcome(old(kv), tx).Ok? ==> MempoolEffect(old(kv), TxOutcome(old(kv), tx).value, r, kv)
    {
      r := ParseTx(tx);
      if !r.Ok? || isBlock { return; }
      if MempoolKey !in kv { return Panic; }
      var currentMempool := kv[MempoolKey];
      var utxoVector := r.value.utxos;
      ghost var candidates := utxoVector;
      for i := 0 to |utxoVector|
        invariant |utxoVector| == |candidates|
        invariant currentMempool == kv[MempoolKey] + Concat(candidates[..i])
        invariant forall j :: 0 <= j < i ==> utxoVector[j] == []
        invariant forall j :: i <= j < |utxoVector| ==> utxoVector[j] == candidates[j]
      {
        assert candidates[..i + 1][..i] == candidates[..i];
        currentMempool := currentMempool + utxoVector[i];
        utxoVector := utxoVector[i := []];
      }
      assert candidates[..|candidates|] == candidates;
      assert utxoVector == Drained(|candidates|);
      kv := kv[MempoolKey := currentMempool];
      r := Ok(TxReturn(r.value.pc, utxoVector));
    }

    /**
     * `add_to_utxo_set`: writes each candidate under its id. The appends that
     * build each id drain the candidate (so the value written is empty) and,
     * on the first round, the header; the drained vectors are returned.
     */
    method AddToUtxoSet(utxoToAdd: seq<Bytes>, blockHeader: Bytes) returns (drained: seq<Bytes>, headerLeft: Bytes)
      modifies this
      ensures kv == AfterUtxos(old(kv), utxoToAdd, blockHeader)
      ensures |drained| == |utxoToAdd| && forall i :: 0 <= i < |drained| ==> drained[i] == []
      ensures headerLeft == if utxoToAdd == [] then blockHeader else []
    {
      drained, headerLeft := utxoToAdd, blockHeader;
      var digest: Bytes := [];
      for i := 0 to |drained|
        invariant |drained| == |utxoToAdd| && digest == []
        invariant forall j :: 0 <= j < i ==> drained[j] == []
        invariant forall j :: i <= j < |drained| ==> drained[j] == utxoToAdd[j]
        invariant headerLeft == if i == 0 then blockHeader else []
        invariant kv == old(kv) + EmptyValued(UtxoIds(utxoToAdd, blockHeader, i))
      {
        digest := digest + drained[i];
        drained := drained[i := []];
        digest := digest + headerLeft;
        headerLeft := [];
        digest := digest + [i % 256];
        assert digest == utxoToAdd[i] + (if i == 0 then blockHeader else []) + [i % 256];
        var utxoHash := hash(digest);
        assert utxoHash == UtxoId(utxoToAdd, blockHeader, i);
        UtxoIdsStep(utxoToAdd, blockHeader, i);
        PutEmpty(old(kv), UtxoIds(utxoToAdd, blockHeader, i), utxoHash);
        kv := kv[utxoHash := drained[i]];
        digest := [];
      }
    }

    /** `add_coinbase_to_utxo_set`: stores the coinbase record under its own hash. */
    method AddCoinbaseToUtxoSet(coinbaseDest: Bytes)
      modifies this
      ensures kv == AfterCoinbase(old(kv), coinbaseDest)
    {
      var version := Version;
      var toDest := coinbaseDest;
      var amount := BlockReward;
      var rawTx: Bytes := [];
      rawTx := rawTx + version;
      rawTx := rawTx + amount;
      rawTx := rawTx + toDest;
      assert rawTx == CoinbaseRecord(coinbaseDest);
      var txHash := hash(rawTx);
      kv := kv[txHash := rawTx];
    }

    /** `insert_block`: stores the block under its hash and points the tip at it. */
    method InsertBlock(block: Bytes)
      modifies this
      ensures kv == AfterInsertBlock(old(kv), block)
      ensures kv[hash(block)] == block && kv[TipKey] == hash(block)
    {
      var blockHash := hash(block);
      kv := kv[blockHash := block];
      kv := kv[TipKey := blockHash];
    }

    /**
     * The loop of `verify_new_block` over the transactions after the coinbase
     * key: each is checked with `verify_tx` in block mode, and the first
     * failure is returned as it is.
     */
    method VerifyBlockTxs(allTxBytes: Bytes, ghost check: TxCheck) returns (r: Outcome<seq<Bytes>>)
      requires CoinbaseKeySize <= |allTxBytes|
      requires WellBehaved(check) && forall tx :: Checks(check, kv, tx)
      modifies this
      ensures r == TxLoop(check, allTxBytes, CoinbaseKeySize, []) && kv == old(kv)
    {
      ghost var db := kv;
      ghost var goal := TxLoop(check, allTxBytes, CoinbaseKeySize, []);
      var programCounter: nat := CoinbaseKeySize;
      var validTxVector: seq<Bytes> := [];
      while programCounter < |allTxBytes|
        invariant kv == db
        invariant TxLoop(check, allTxBytes, programCounter, validTxVector) == goal
        decreases |allTxBytes| - programCounter
      {
        ghost var expected := check(allTxBytes[programCounter..]);
        TxLoopStep(check, allTxBytes, programCounter, validTxVector, expected);
        var result := VerifyTx(allTxBytes[programCounter..], true);
        assert Checks(check, db, allTxBytes[programCounter..]);
        match result {
          case Ok(t) =>
            validTxVector := validTxVector + t.utxos;
            programCounter := programCounter + t.pc;
            assert TxLoop(check, allTxBytes, programCounter, validTxVector) == goal;
          case Err(e) =>
            return Err(e);
          case Panic =>
            return Panic;
        }
      }
      return Ok(validTxVector);
    }

    /**
     * `verify_new_block`: on success the store receives the candidates, the
     * coinbase record and the block; on an error or a panic it is unchanged.
     */
    method VerifyNewBlock(block: Bytes) returns (r: Outcome<bool>)
      modifies this
      ensures var c := CheckBlock(old(kv), block);
        && (c.Ok? ==> r == Ok(true) && kv == Commit(old(kv), block, c.value))
        && (c.Err? ==> r == Err(c.error) && kv == old(kv))
        && (c.Panic? ==> r == Panic && kv == old(kv))
    {
      ghost var expected := CheckBlock(kv, block);
      if |block| > MaxBlockSize { return Err(BlockTooLarge); }
      if |block| < HeaderSize { return Panic; }
      var blockHeader := block[..HeaderSize];
      var version := blockHeader[..2];
      if version != Version { return Err(BlockVersion); }
      if !satisfiesDifficulty(blockHeader) { return Err(InvalidNonce); }
      var prevHash := blockHeader[2..34];
      if prevHash != prevBlockHash(kv) { return Err(PrevHashMismatch); }
      var txHash := blockHeader[34..66];
      var allTxBytes := block[HeaderSize..];
      if txHash != hash(allTxBytes) { return Err(TxHashMismatch); }

      if |allTxBytes| < CoinbaseKeySize { return Panic; }
      var coinbaseTxVec := allTxBytes[..CoinbaseKeySize];
      assert expected == TxLoop(BlockTxCheck(kv), allTxBytes, CoinbaseKeySize, []);

      var txs := VerifyBlockTxs(allTxBytes, BlockTxCheck(kv));
      if txs.Err? { return Err(txs.error); }
      if txs.Panic? { return Panic; }
      var validTxVector := txs.value;

      assert expected == Ok(validTxVector);
      assert coinbaseTxVec == block[HeaderSize..HeaderSize + CoinbaseKeySize];
      ghost var before := kv;
      var drained, headerLeft := AddToUtxoSet(validTxVector, blockHeader);
      ghost var afterUtxos := kv;
      AddCoinbaseToUtxoSet(coinbaseTxVec);
      assert kv == AfterCoinbase(afterUtxos, coinbaseTxVec);
      InsertBlock(block);
      assert kv == Commit(before, block, validTxVector);
      return Ok(true);
    }
  }
}
