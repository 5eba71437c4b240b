/**
 * The byte layout that `verify_tx` (consensus/lib.rs) walks, as functions of
 * the store contents and the transaction bytes, and what they imply.
 *
 * A transaction is read as: 2-byte version, then (starting at offset 2, so
 * that the first reference overlaps the input-count byte at offset 2) one
 * 32-byte reference, a 1-byte signature length and the signature per input,
 * then a 1-byte output count and per output a 6-byte value and a 33-byte key.
 */
module Transaction {
  import opened Types

  /** The only accepted version, for blocks, transactions and records. */
  const Version: Bytes := [0, 1]

  /** Bytes an output occupies in a transaction: 6-byte value + 33-byte key. */
  const OutputSize: nat := 39

  /** Length a stored output record must have to be spent. */
  const UtxoRecordSize: nat := 39

  /** `verify_tx_return_values`: the offset reached and the candidate records. */
  datatype TxReturn = TxReturn(pc: nat, utxos: seq<Bytes>)

  /** The value of an output as the source reads it: `cache_sum * 16 + byte`, byte by byte. */
  function DecodeValue(v: Bytes): nat
  {
    if v == [] then 0 else DecodeValue(v[..|v| - 1]) * 16 + v[|v| - 1]
  }

  function Pow16(n: nat): nat
  {
    if n == 0 then 1 else 16 * Pow16(n - 1)
  }

  /** Positional reading: the sum of `v[i] * 16^(|v| - 1 - i)`. */
  function PositionalValue(v: Bytes): nat
  {
    if v == [] then 0 else v[0] * Pow16(|v| - 1) + PositionalValue(v[1..])
  }

  /** Walks the inputs of a transaction: `n` inputs starting at cursor `s`; yields the cursor after them. */
  function ParseInputs(kv: KeyValues, tx: Bytes, s: nat, n: nat): (r: Outcome<nat>)
    requires s <= |tx|
    ensures r.Ok? ==> s + 33 * n <= r.value <= |tx|
    ensures r.Err? ==> r.error == InvalidUtxo
    decreases n
  {
    if n == 0 then Ok(s)
    else if s + 32 > |tx| then Panic
    else
      var reference := tx[s..s + 32];
      if reference !in kv || |kv[reference]| != UtxoRecordSize then Err(InvalidUtxo)
      else if s + 33 > |tx| then Panic
      else
        var sigSize := tx[s + 32];
        if s + 33 + sigSize > |tx| then Panic
        else ParseInputs(kv, tx, s + 33 + sigSize, n - 1)
  }

  /**
   * Walks `n` outputs starting at cursor `s`, adding each decoded value to
   * `sumOutputs` and failing as soon as it exceeds `sumInputs`; `utxos` are the
   * candidate records built so far.
   */
  function ParseOutputs(tx: Bytes, s: nat, n: nat, sumOutputs: nat, sumInputs: nat, utxos: seq<Bytes>): (r: Outcome<TxReturn>)
    requires s <= |tx|
    ensures r.Ok? ==> r.value.pc == s + OutputSize * n <= |tx|
    ensures r.Ok? ==> |r.value.utxos| == |utxos| + n && r.value.utxos[..|utxos|] == utxos
    ensures r.Err? ==> r.error == OutputsExceedInputs
    decreases n
  {
    if n == 0 then Ok(TxReturn(s, utxos))
    else if s + 6 > |tx| then Panic
    else
      var value := tx[s..s + 6];
      var sum := sumOutputs + DecodeValue(value);
      if sum > sumInputs then Err(OutputsExceedInputs)
      else if s + OutputSize > |tx| then Panic
      else ParseOutputs(tx, s + OutputSize, n - 1, sum, sumInputs, utxos + [Version + value + tx[s + 6..s + OutputSize]])
  }

  /** The errors `verify_tx` can return. */
  predicate TxError(e: Error) {
    e == TxVersion || e == InvalidUtxo || e == OutputsExceedInputs
  }

  /**
   * What `verify_tx` returns for `tx` against store contents `kv`, before any
   * mempool write. `sum_inputs` starts at 0 and is never increased.
   */
  function TxOutcome(kv: KeyValues, tx: Bytes): (r: Outcome<TxReturn>)
    ensures r.Ok? ==> 3 <= r.value.pc <= |tx|
    ensures r.Err? ==> TxError(r.error)
  {
    if |tx| < 2 then Panic
    else if tx[..2] != Version then Err(TxVersion)
    else if |tx| < 3 then Panic
    else
      match ParseInputs(kv, tx, 2, tx[2])
      case Err(e) => Err(e)
      case Panic => Panic
      case Ok(s) =>
        if s >= |tx| then Panic
        else ParseOutputs(tx, s + 1, tx[s], 0, 0, [])
  }

  /** The candidate record built from output `k` of the outputs starting at `s`: version, then its 39 bytes. */
  function OutputRecord(tx: Bytes, s: nat, k: nat): (r: Bytes)
    requires s + OutputSize * (k + 1) <= |tx|
    ensures |r| == 41 && r[..2] == Version
  {
    Version + tx[s + OutputSize * k..s + OutputSize * (k + 1)]
  }

  /** A candidate record as a transaction yields it: 41 bytes, version `[0,1]`, a zero 6-byte value. */
  predicate ZeroValueCandidate(c: Bytes) {
    |c| == 41 && c[..2] == Version && AllZero(c[2..8])
  }

  /** Every record of `utxos` is a zero-valued candidate. */
  predicate ZeroCandidates(utxos: seq<Bytes>) {
    forall j :: 0 <= j < |utxos| ==> ZeroValueCandidate(utxos[j])
  }

  /** Every one of the `n` outputs starting at `s` has an all-zero 6-byte value. */
  predicate ZeroValues(tx: Bytes, s: nat, n: nat)
    requires s + OutputSize * n <= |tx|
  {
    forall k :: 0 <= k < n ==> AllZero(OutputRecord(tx, s, k)[2..8])
  }

  /** Layout reading of `n` inputs from `s`: the sum of `33 + sigLen` over them, if they fit. */
  function InputsSpan(tx: Bytes, s: nat, n: nat): Option<nat>
    decreases n
  {
    if n == 0 then Some(0)
    else if s + 33 > |tx| then None
    else
      var sigSize := tx[s + 32];
      if s + 33 + sigSize > |tx| then None
      else
        match InputsSpan(tx, s + 33 + sigSize, n - 1)
        case None => None
        case Some(m) => Some(33 + sigSize + m)
  }

  /** Layout reading of `n` inputs from `s`: the offset of each input's 32-byte reference. */
  function InputStarts(tx: Bytes, s: nat, n: nat): (r: seq<nat>)
    requires InputsSpan(tx, s, n).Some?
    ensures |r| == n
    ensures forall p :: p in r ==> s <= p && p + 33 <= |tx|
    decreases n
  {
    if n == 0 then [] else [s] + InputStarts(tx, s + 33 + tx[s + 32], n - 1)
  }

  /** A reference the input check lets through: present in the store with a 39-byte record. */
  predicate Spendable(kv: KeyValues, reference: Bytes) {
    reference in kv && |kv[reference]| == UtxoRecordSize
  }

  /** Every input laid out from `s` names a spendable record. */
  predicate InputsSpendable(kv: KeyValues, tx: Bytes, s: nat, n: nat)
    requires InputsSpan(tx, s, n).Some?
  {
    forall p :: p in InputStarts(tx, s, n) ==> Spendable(kv, tx[p..p + 32])
  }

  lemma {:induction false} PositionalAppend(v: Bytes, b: Byte)
    ensures PositionalValue(v + [b]) == PositionalValue(v) * 16 + b
    decreases |v|
  {
    if v != [] {
      assert (v + [b])[1..] == v[1..] + [b];
      PositionalAppend(v[1..], b);
      calc {
        PositionalValue(v + [b]);
        v[0] * Pow16(|v|) + PositionalValue(v[1..] + [b]);
        v[0] * (16 * Pow16(|v| - 1)) + PositionalValue(v[1..]) * 16 + b;
        { assert v[0] * (16 * Pow16(|v| - 1)) == (v[0] * Pow16(|v| - 1)) * 16; }
        (v[0] * Pow16(|v| - 1) + PositionalValue(v[1..])) * 16 + b;
      }
    }
  }

  /** The running `cache_sum` is the base-16 positional value of the bytes. */
  lemma {:induction false} DecodeValueIsBase16(v: Bytes)
    ensures DecodeValue(v) == PositionalValue(v)
    decreases |v|
  {
    if v != [] {
      var init := v[..|v| - 1];
      DecodeValueIsBase16(init);
      PositionalAppend(init, v[|v| - 1]);
      assert init + [v[|v| - 1]] == v;
    }
  }

  /** A value decodes to 0 exactly when all of its bytes are 0. */
  lemma {:induction false} DecodeValueZero(v: Bytes)
    ensures DecodeValue(v) == 0 <==> AllZero(v)
    decreases |v|
  {
    if v != [] {
      var init := v[..|v| - 1];
      DecodeValueZero(init);
      if AllZero(v) {
        assert AllZero(init);
      }
      if DecodeValue(v) == 0 {
        forall i | 0 <= i < |v| ensures v[i] == 0 {
          if i < |v| - 1 { assert v[i] == init[i]; }
        }
      }
    }
  }

  lemma {:induction false} DecodeValueBound(v: Bytes)
    ensures DecodeValue(v) <= 17 * (Pow16(|v|) - 1)
    decreases |v|
  {
    if v != [] {
      DecodeValueBound(v[..|v| - 1]);
    }
  }

  /** A 6-byte value, and so `cache_sum`, stays far below 2^64: the `u64` arithmetic never wraps. */
  lemma ValueFitsU64(v: Bytes)
    requires |v| == 6
    ensures DecodeValue(v) <= 285_212_655 < 0x1_0000_0000_0000_0000
  {
    DecodeValueBound(v);
    assert Pow16(6) == 16_777_216 by {
      assert Pow16(1) == 16;
      assert Pow16(2) == 256;
      assert Pow16(3) == 4096;
      assert Pow16(4) == 65536;
      assert Pow16(5) == 1_048_576;
    }
  }

  /** The cursor reached by a successful input walk is the layout's `sum of (33 + sigLen)`. */
  lemma {:induction false} InputsFollowLayout(kv: KeyValues, tx: Bytes, s: nat, n: nat)
    requires s <= |tx|
    requires ParseInputs(kv, tx, s, n).Ok?
    ensures InputsSpan(tx, s, n) == Some(ParseInputs(kv, tx, s, n).value - s)
    decreases n
  {
    if n > 0 {
      InputsFollowLayout(kv, tx, s + 33 + tx[s + 32], n - 1);
    }
  }

  /** Each candidate record, in output order, is `[0,1]` followed by the output's 39 bytes. */
  lemma {:induction false} OutputsLayout(tx: Bytes, s: nat, n: nat, sumOutputs: nat, sumInputs: nat, utxos: seq<Bytes>)
    requires s <= |tx|
    requires ParseOutputs(tx, s, n, sumOutputs, sumInputs, utxos).Ok?
    ensures s + OutputSize * n <= |tx|
    ensures var out := ParseOutputs(tx, s, n, sumOutputs, sumInputs, utxos).value.utxos;
      forall k :: 0 <= k < n ==> out[|utxos| + k] == OutputRecord(tx, s, k)
    decreases n
  {
    if n > 0 {
      var value := tx[s..s + 6];
      var sum := sumOutputs + DecodeValue(value);
      var record := Version + value + tx[s + 6..s + OutputSize];
      OutputsLayout(tx, s + OutputSize, n - 1, sum, sumInputs, utxos + [record]);
      var out := ParseOutputs(tx, s, n, sumOutputs, sumInputs, utxos).value.utxos;
      assert out == ParseOutputs(tx, s + OutputSize, n - 1, sum, sumInputs, utxos + [record]).value.utxos;
      assert out[..|utxos| + 1] == utxos + [record];
      assert out[|utxos|] == record;
      assert record == OutputRecord(tx, s, 0);
      forall k | 1 <= k < n ensures out[|utxos| + k] == OutputRecord(tx, s, k) {
        assert OutputRecord(tx, s + OutputSize, k - 1) == OutputRecord(tx, s, k);
        assert out[|utxos + [record]| + (k - 1)] == OutputRecord(tx, s + OutputSize, k - 1);
      }
    }
  }

  /**
   * With nothing ever added to `sum_inputs`, outputs that fit in the bytes are
   * accepted exactly when every value is zero; otherwise the walk stops at the
   * first nonzero value with OutputsExceedInputs.
   */
  lemma {:induction false} OutputsAcceptOnlyZero(tx: Bytes, s: nat, n: nat, utxos: seq<Bytes>)
    requires s + OutputSize * n <= |tx|
    ensures var r := ParseOutputs(tx, s, n, 0, 0, utxos);
      (r.Ok? <==> ZeroValues(tx, s, n))
      && (!r.Ok? ==> r == Err(OutputsExceedInputs))
    decreases n
  {
    if n > 0 {
      var value := tx[s..s + 6];
      DecodeValueZero(value);
      assert OutputRecord(tx, s, 0) == Version + tx[s..s + OutputSize];
      assert (Version + tx[s..s + OutputSize])[2..8] == tx[s..s + OutputSize][..6] == value;
      if AllZero(value) {
        var record := Version + value + tx[s + 6..s + OutputSize];
        assert DecodeValue(value) == 0;
        assert ParseOutputs(tx, s, n, 0, 0, utxos) == ParseOutputs(tx, s + OutputSize, n - 1, 0, 0, utxos + [record]);
        OutputsAcceptOnlyZero(tx, s + OutputSize, n - 1, utxos + [record]);
        forall k | 1 <= k < n ensures OutputRecord(tx, s + OutputSize, k - 1) == OutputRecord(tx, s, k) { }
        var next := s + OutputSize;
        if ZeroValues(tx, next, n - 1) {
          forall k | 0 <= k < n ensures AllZero(OutputRecord(tx, s, k)[2..8]) {
            if k > 0 { assert OutputRecord(tx, next, k - 1) == OutputRecord(tx, s, k); }
          }
        } else {
          var j :| 0 <= j < n - 1 && !AllZero(OutputRecord(tx, next, j)[2..8]);
          assert OutputRecord(tx, next, j) == OutputRecord(tx, s, j + 1);
        }
      }
    }
  }

  /**
   * The output walk stops at the first nonzero value: when outputs `0..k-1`
   * fit and are zero and the 6 value bytes of output `k` fit and decode to a
   * nonzero value, the result is OutputsExceedInputs whatever bytes follow.
   */
  lemma {:induction false} OutputsStopAtFirstNonzero(tx: Bytes, s: nat, n: nat, k: nat, utxos: seq<Bytes>)
    requires k < n && s + OutputSize * k + 6 <= |tx|
    requires ZeroValues(tx, s, k)
    requires DecodeValue(tx[s + OutputSize * k..s + OutputSize * k + 6]) != 0
    ensures ParseOutputs(tx, s, n, 0, 0, utxos) == Err(OutputsExceedInputs)
    decreases k
  {
    if k > 0 {
      var value := tx[s..s + 6];
      assert OutputRecord(tx, s, 0) == Version + tx[s..s + OutputSize];
      assert (Version + tx[s..s + OutputSize])[2..8] == tx[s..s + OutputSize][..6] == value;
      DecodeValueZero(value);
      var record := Version + value + tx[s + 6..s + OutputSize];
      var next := s + OutputSize;
      assert ParseOutputs(tx, s, n, 0, 0, utxos) == ParseOutputs(tx, next, n - 1, 0, 0, utxos + [record]);
      forall j | 0 <= j < k - 1 ensures AllZero(OutputRecord(tx, next, j)[2..8]) {
        assert OutputRecord(tx, next, j) == OutputRecord(tx, s, j + 1);
      }
      OutputsStopAtFirstNonzero(tx, next, n - 1, k - 1, utxos + [record]);
    }
  }

  /**
   * The shape of an accepted transaction: version `[0,1]`, inputs laid out
   * from offset 2, the output count right after them, and
   * `pc == 3 + sum of (33 + sigLen) + 39 * outputCount`, with one candidate per output.
   */
  lemma AcceptedTxShape(kv: KeyValues, tx: Bytes)
    requires TxOutcome(kv, tx).Ok?
    ensures |tx| >= 3 && tx[..2] == Version
    ensures ParseInputs(kv, tx, 2, tx[2]).Ok?
    ensures var e := ParseInputs(kv, tx, 2, tx[2]).value;
      var t := TxOutcome(kv, tx).value;
      e < |tx| && InputsSpan(tx, 2, tx[2]) == Some(e - 2)
      && t.pc == 3 + (e - 2) + OutputSize * tx[e]
      && |t.utxos| == tx[e]
      && forall k :: 0 <= k < tx[e] ==> t.utxos[k] == OutputRecord(tx, e + 1, k)
  {
    var e := ParseInputs(kv, tx, 2, tx[2]).value;
    assert TxOutcome(kv, tx) == ParseOutputs(tx, e + 1, tx[e], 0, 0, []);
    InputsFollowLayout(kv, tx, 2, tx[2]);
    OutputsLayout(tx, e + 1, tx[e], 0, 0, []);
  }

  /**
   * Every candidate of an accepted transaction is a 41-byte record whose value
   * field is zero: since `sum_inputs` stays 0, no value can be moved.
   */
  lemma AcceptedTxCarriesNoValue(kv: KeyValues, tx: Bytes)
    requires TxOutcome(kv, tx).Ok?
    ensures ZeroCandidates(TxOutcome(kv, tx).value.utxos)
  {
    AcceptedTxShape(kv, tx);
    var e := ParseInputs(kv, tx, 2, tx[2]).value;
    var utxos := TxOutcome(kv, tx).value.utxos;
    OutputsAcceptOnlyZero(tx, e + 1, tx[e], []);
    assert ZeroValues(tx, e + 1, tx[e]);
    forall j | 0 <= j < |utxos| ensures ZeroValueCandidate(utxos[j]) {
      assert utxos[j] == OutputRecord(tx, e + 1, j);
    }
  }

  /**
   * Both directions of acceptance: a transaction is accepted exactly when its
   * version is `[0,1]`, its inputs walk without error, and its outputs fit in
   * the bytes with every value zero.
   */
  lemma TxAcceptance(kv: KeyValues, tx: Bytes)
    ensures TxOutcome(kv, tx).Ok? <==>
      |tx| >= 3 && tx[..2] == Version && ParseInputs(kv, tx, 2, tx[2]).Ok?
      && var e := ParseInputs(kv, tx, 2, tx[2]).value;
         e < |tx| && e + 1 + OutputSize * tx[e] <= |tx|
         && ZeroValues(tx, e + 1, tx[e])
  {
    if |tx| >= 3 && tx[..2] == Version && ParseInputs(kv, tx, 2, tx[2]).Ok? {
      var e := ParseInputs(kv, tx, 2, tx[2]).value;
      if e < |tx| && e + 1 + OutputSize * tx[e] <= |tx| {
        OutputsAcceptOnlyZero(tx, e + 1, tx[e], []);
      }
    }
  }

  /**
   * Both directions of the input check: the walk succeeds exactly when the
   * inputs fit the layout and every reference names a 39-byte record; when
   * they fit it never panics, so a bad reference gives InvalidUtxo.
   */
  lemma {:induction false} InputsValidity(kv: KeyValues, tx: Bytes, s: nat, n: nat)
    requires s <= |tx|
    ensures ParseInputs(kv, tx, s, n).Ok? <==>
      InputsSpan(tx, s, n).Some? && InputsSpendable(kv, tx, s, n)
    ensures InputsSpan(tx, s, n).Some? && !InputsSpendable(kv, tx, s, n) ==>
      ParseInputs(kv, tx, s, n) == Err(InvalidUtxo)
    decreases n
  {
    if n > 0 && s + 33 <= |tx| && s + 33 + tx[s + 32] <= |tx| {
      var next := s + 33 + tx[s + 32];
      InputsValidity(kv, tx, next, n - 1);
      if InputsSpan(tx, s, n).Some? {
        InputsSpendableStep(kv, tx, s, n);
      }
    }
  }

  /** Peeling the first input off `InputsSpendable`. */
  lemma InputsSpendableStep(kv: KeyValues, tx: Bytes, s: nat, n: nat)
    requires n > 0 && InputsSpan(tx, s, n).Some?
    ensures s + 33 <= |tx| && s + 33 + tx[s + 32] <= |tx|
    ensures InputsSpan(tx, s + 33 + tx[s + 32], n - 1).Some?
    ensures InputsSpendable(kv, tx, s, n) <==>
      Spendable(kv, tx[s..s + 32]) && InputsSpendable(kv, tx, s + 33 + tx[s + 32], n - 1)
  {
    var next := s + 33 + tx[s + 32];
    var starts, rest := InputStarts(tx, s, n), InputStarts(tx, next, n - 1);
    assert starts == [s] + rest;
    if Spendable(kv, tx[s..s + 32]) && InputsSpendable(kv, tx, next, n - 1) {
      forall p | p in starts ensures Spendable(kv, tx[p..p + 32]) {
        if p != s { assert p in rest; }
      }
    }
    if InputsSpendable(kv, tx, s, n) {
      assert s in starts;
      forall p | p in rest ensures Spendable(kv, tx[p..p + 32]) {
        assert p in starts;
      }
    }
  }

  /**
   * How `verify_tx` rejects a transaction, check by check: too short to hold
   * the version or the input count panics, a version other than `[0,1]` is
   * TxVersion, inputs that fit the layout but name an unspendable record are
   * InvalidUtxo, and a missing output-count byte panics.
   */
  lemma TxRejections(kv: KeyValues, tx: Bytes)
    ensures |tx| < 2 ==> TxOutcome(kv, tx) == Panic
    ensures |tx| >= 2 && tx[..2] != Version ==> TxOutcome(kv, tx) == Err(TxVersion)
    ensures tx == Version ==> TxOutcome(kv, tx) == Panic
    ensures |tx| >= 3 && tx[..2] == Version && InputsSpan(tx, 2, tx[2]).Some? ==>
      (!InputsSpendable(kv, tx, 2, tx[2]) ==> TxOutcome(kv, tx) == Err(InvalidUtxo))
    ensures |tx| >= 3 && tx[..2] == Version && InputsSpan(tx, 2, tx[2]) == Some(|tx| - 2) ==>
      (InputsSpendable(kv, tx, 2, tx[2]) ==> TxOutcome(kv, tx) == Panic)
  {
    if |tx| >= 3 && tx[..2] == Version {
      InputsValidity(kv, tx, 2, tx[2]);
      if ParseInputs(kv, tx, 2, tx[2]).Ok? {
        InputsFollowLayout(kv, tx, 2, tx[2]);
      }
    }
  }

  /**
   * The first input reference is read at offset 2, overlapping the input-count
   * byte: a transaction with inputs is accepted only if `tx[2..34]` names a
   * 39-byte record, and is rejected with InvalidUtxo when it names none or a
   * record of another length.
   */
  lemma FirstReferenceOverlapsCount(kv: KeyValues, tx: Bytes)
    requires |tx| >= 3 && tx[..2] == Version && tx[2] > 0
    ensures TxOutcome(kv, tx).Ok? ==> |tx| >= 34 && tx[2..34] in kv && |kv[tx[2..34]]| == UtxoRecordSize
    ensures |tx| >= 34 && (tx[2..34] !in kv || |kv[tx[2..34]]| != UtxoRecordSize) ==>
      TxOutcome(kv, tx) == Err(InvalidUtxo)
  {
  }
}
