/**
 * Chain initialisation from rustcoin/main.rs: the genesis block and its
 * insertion into the store.
 */
module Rustcoin {
  import opened Types
  import opened Transaction
  import opened Consensus

  /**
   * The genesis block, byte by byte: version `[0,1]` and nothing but zeros
   * after it, 102 bytes in all.
   */
  function GenesisBlock(): Bytes
  {
    seq(102, i => if i == 1 then 1 else 0)
  }

  /**
   * The genesis layout: a 70-byte header with version `[0,1]` and zero
   * previous hash, transaction hash and nonce, then a 32-byte zero coinbase
   * destination, one byte short of the 33-byte key a block payload starts with.
   */
  lemma GenesisLayout()
    ensures |GenesisBlock()| == HeaderSize + 32 == 102
    ensures GenesisBlock()[..2] == Version
    ensures AllZero(GenesisBlock()[2..34]) && AllZero(GenesisBlock()[34..66]) && AllZero(GenesisBlock()[66..70])
    ensures |GenesisBlock()[HeaderSize..]| == CoinbaseKeySize - 1 && AllZero(GenesisBlock()[HeaderSize..])
  {
  }

  /**
   * `verify_new_block` never accepts the genesis block: its version and size
   * pass, so a later header check fails, or else slicing the 33-byte coinbase
   * key out of its 32-byte payload panics.
   */
  lemma GenesisNeverVerifies(store: Store, db: KeyValues)
    ensures store.CheckBlock(db, GenesisBlock()) in
      {Err(InvalidNonce), Err(PrevHashMismatch), Err(TxHashMismatch), Panic}
  {
  }

  /**
   * `construct_genesis`: appends version, previous hash, transaction hash,
   * nonce and coinbase destination into one vector, inserts it as a block and
   * returns it.
   */
  method ConstructGenesis(store: Store) returns (block: Bytes)
    modifies store
    ensures block == GenesisBlock()
    ensures store.kv == store.AfterInsertBlock(old(store.kv), block)
    ensures store.kv[store.hash(block)] == block && store.kv[TipKey] == store.hash(block)
  {
    var version: Bytes := [0, 1];
    var prevBlockHash := Zeros(32);
    var allTxHash := Zeros(32);
    var nonce := Zeros(4);
    var coinbaseDestination := Zeros(32);

    block := [];
    block := block + version;
    block := block + prevBlockHash;
    block := block + allTxHash;
    block := block + nonce;
    block := block + coinbaseDestination;

    assert |block| == 102;
    forall i | 0 <= i < 102 ensures block[i] == GenesisBlock()[i] {
      if i >= 2 { assert block[i] == 0; }
    }
    store.InsertBlock(block);
  }

  /** `init_chain`: builds and inserts the genesis block, discarding the returned bytes. */
  method InitChain(store: Store)
    modifies store
    ensures store.kv == store.AfterInsertBlock(old(store.kv), GenesisBlock())
  {
    var _ := ConstructGenesis(store);
  }
}
