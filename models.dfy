/**
 * The collaborators of the executed-transaction row codec: the fixed-width
 * integers of the row and of the domain types, the domain value `ExecutedTx`
 * (defined in the `models` crate), and the JSON codec, hash and `try_get_tx`
 * that the codec calls but does not define.  Transactions, operations and JSON
 * documents are opaque: the codec only moves them around, and the functions
 * that inspect them are fields of a `Codec` value, so every result below holds
 * for every codec, or for every codec that obeys the round-trip law.
 */
module Models {
  import opened Wrappers

  /** Rust `u32`: block numbers and positions inside a block. */
  type U32 = x: int | 0 <= x < 0x1_0000_0000

  /** Rust `i32`: the `block_index` and `id` columns. */
  type I32 = x: int | -0x8000_0000 <= x < 0x8000_0000

  /** Rust `i64`: the `block_number` and `nonce` columns. */
  type I64 = x: int | -0x8000_0000_0000_0000 <= x < 0x8000_0000_0000_0000

  /** Rust `u8`: a byte of a hash or an address. */
  type Byte = x: int | 0 <= x < 0x100

  /** `BlockNumber` of the `models` crate is a `u32`. */
  type BlockNumber = U32

  /** `FranklinTx`: a transaction as submitted; never inspected here. */
  type FranklinTx(==, !new)

  /** `FranklinOp`: the operation an executed transaction became; never inspected here. */
  type FranklinOp(==, !new)

  /** `serde_json::Value`: a JSON document stored in a `jsonb` column. */
  type Json(==, !new)

  /** `chrono::NaiveDateTime`: carried by a mempool row, never inspected. */
  type NaiveDateTime(00, !new)

  /**
   * The outside code the row codec calls into.
   *   opToJson   — `serde_json::to_value(op).unwrap()`
   *   opFromJson — `serde_json::from_value::<FranklinOp>`, `None` on malformed JSON
   *   txToJson   — the encoding the mempool used when it stored a transaction
   *   txFromJson — `serde_json::from_value::<FranklinTx>`, `None` on malformed JSON
   *   txOfOp     — `FranklinOp::try_get_tx`, `None` for an operation without a transaction
   *   txHash     — `FranklinTx::hash().as_ref().to_vec()`
   */
  datatype Codec = Codec(
    opToJson: FranklinOp -> Json,
    opFromJson: Json -> Option<FranklinOp>,
    txToJson: FranklinTx -> Json,
    txFromJson: Json -> Option<FranklinTx>,
    txOfOp: FranklinOp -> Option<FranklinTx>,
    txHash: FranklinTx -> seq<Byte>)

  /** Decoding an encoded operation gives the operation back. */
  ghost predicate OpRoundTrip(c: Codec)
  {
    forall op {:trigger c.opFromJson(c.opToJson(op))} :: c.opFromJson(c.opToJson(op)) == Some(op)
  }

  /** Decoding an encoded transaction gives the transaction back. */
  ghost predicate TxRoundTrip(c: Codec)
  {
    forall tx {:trigger c.txFromJson(c.txToJson(tx))} :: c.txFromJson(c.txToJson(tx)) == Some(tx)
  }

  /** The codec law the storage layer relies on: `decode(encode(x)) == x` for both kinds. */
  ghost predicate Lawful(c: Codec)
  {
    OpRoundTrip(c) && TxRoundTrip(c)
  }

  /** `models::node::block::ExecutedTx`: the outcome of executing one transaction in a block. */
  datatype ExecutedTx = ExecutedTx(
    tx: FranklinTx,
    success: bool,
    op: Option<FranklinOp>,
    failReason: Option<string>,
    blockIndex: Option<U32>)

  /**
   * The shape of every outcome the storage layer hands out: a success carries
   * its operation, a position in the block and no failure reason, and its
   * transaction is the one embedded in the operation; a failure carries
   * neither operation nor position.
   */
  ghost predicate WellFormed(c: Codec, e: ExecutedTx)
  {
    && (e.success <==> e.op.Some?)
    && (e.success <==> e.blockIndex.Some?)
    && (e.success ==> e.failReason.None? && c.txOfOp(e.op.value) == Some(e.tx))
  }
}
