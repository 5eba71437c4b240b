/** Bytes, digests, outcomes and the error messages shared by the consensus code. */
module Types {

  /** A Rust `u8`. */
  type Byte = b: int | 0 <= b < 256

  /** A Rust `Vec<u8>` or `&[u8]`. */
  type Bytes = seq<Byte>

  /** The output of `utils::hash` (SHA-256): always 32 bytes. */
  type Digest = d: Bytes | |d| == 32 witness Zeros(32)

  /** The key-value store: every key and every value is a blob. */
  type KeyValues = map<Bytes, Bytes>

  /** `vec![0; n]` */
  function Zeros(n: nat): (z: Bytes)
    ensures |z| == n && AllZero(z)
  {
    seq(n, _ => 0)
  }

  predicate AllZero(v: Bytes) {
    forall i :: 0 <= i < |v| ==> v[i] == 0
  }

  /** All blobs of `xs` appended in order, as repeated `Vec::append` does. */
  function Concat(xs: seq<Bytes>): Bytes
  {
    if xs == [] then [] else Concat(xs[..|xs| - 1]) + xs[|xs| - 1]
  }

  datatype Option<T> = None | Some(value: T)

  /** The `Err(String)` cases of the consensus code, one per message. */
  datatype Error =
    | BlockTooLarge
    | BlockVersion
    | InvalidNonce
    | PrevHashMismatch
    | TxHashMismatch
    | TxVersion
    | InvalidUtxo
    | OutputsExceedInputs

  /**
   * The `Err(String)` text the source returns for each error; the model's
   * `Error` values stand for these strings.
   */
  function Message(e: Error): string {
    match e
    case BlockTooLarge => "ERROR: VERIFY BLOCK: `block` is too large"
    case BlockVersion => "ERROR: VERIFY BLOCK: Incompatable `version`"
    case InvalidNonce => "ERROR: VERIFY BLOCK: Invalid `nonce`"
    case PrevHashMismatch => "ERROR: VERIFY BLOCK: `prev_block_hash` does not match"
    case TxHashMismatch => "ERROR: VERIFY BLOCK: `tx_hash` does not match"
    case TxVersion => "VERIFY TX ERROR: Incompatable `version` in tx"
    case InvalidUtxo => "Invalid `utxo` referenced in input"
    case OutputsExceedInputs => "Sum of outputs exceeds the inputs"
  }

  /**
   * Recovers the error from its message, reading only the length and the
   * last character (the two 45-character messages differ there).
   */
  function ErrorOfMessage(m: string): Option<Error> {
    if |m| == 41 then Some(BlockTooLarge)
    else if |m| == 43 then Some(BlockVersion)
    else if |m| == 36 then Some(InvalidNonce)
    else if |m| == 53 then Some(PrevHashMismatch)
    else if |m| == 45 then Some(if m[44] == 'h' then TxHashMismatch else TxVersion)
    else if |m| == 34 then Some(InvalidUtxo)
    else if |m| == 33 then Some(OutputsExceedInputs)
    else None
  }

  lemma MessageIdentifiesError(e: Error)
    ensures ErrorOfMessage(Message(e)) == Some(e)
  {
    match e
    case BlockTooLarge => assert |Message(e)| == 41;
    case BlockVersion => assert |Message(e)| == 43;
    case InvalidNonce => assert |Message(e)| == 36;
    case PrevHashMismatch => assert |Message(e)| == 53;
    case TxHashMismatch => assert |Message(e)| == 45 && Message(e)[44] == 'h';
    case TxVersion => assert |Message(e)| == 45 && Message(e)[44] == 'x';
    case InvalidUtxo => assert |Message(e)| == 34;
    case OutputsExceedInputs => assert |Message(e)| == 33;
  }

  /** Distinct errors have distinct messages, so comparing `Error` values is comparing the strings. */
  lemma MessagesDistinct(e1: Error, e2: Error)
    ensures Message(e1) == Message(e2) <==> e1 == e2
  {
    MessageIdentifiesError(e1);
    MessageIdentifiesError(e2);
  }

  /**
   * What a call ends in: a value (`Ok`), a returned error (`Err`), or a Rust
   * panic from an out-of-range slice or an `unwrap` of `None` (`Panic`).
   */
  datatype Outcome<T> = Ok(value: T) | Err(error: Error) | Panic
}
