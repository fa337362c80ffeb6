/**
 * The executed-transaction rows of the storage layer and the two functions
 * that move an `ExecutedTx` into and out of them: `PrepareStoredTx` flattens an
 * outcome into a new `executed_transactions` row, and `IntoExecutedTx` rebuilds
 * an outcome from a stored row and, for a failed transaction, the mempool row
 * that still holds the transaction as it was submitted.
 */
module Records {
  import opened Wrappers
  import opened Models

  /** A row of the `mempool` table as read back (`ReadTx`). */
  datatype ReadTx = ReadTx(
    hash: seq<Byte>,
    primaryAccountAddress: seq<Byte>,
    nonce: I64,
    tx: Json,
    createdAt: NaiveDateTime)

  /** A row of the `executed_transactions` table as read back (`StoredExecutedTransaction`). */
  datatype StoredExecutedTransaction = StoredExecutedTransaction(
    id: I32,
    blockNumber: I64,
    txHash: seq<Byte>,
    operation: Option<Json>,
    success: bool,
    failReason: Option<string>,
    blockIndex: Option<I32>)

  /** A row of the `executed_transactions` table about to be inserted (`NewExecutedTransaction`). */
  datatype NewExecutedTransaction = NewExecutedTransaction(
    blockNumber: I64,
    txHash: seq<Byte>,
    operation: Option<Json>,
    success: bool,
    failReason: Option<string>,
    blockIndex: Option<I32>)

  /**
   * How reading a row can go wrong.  `Panic` stands for an `expect` that
   * aborts the process on a malformed row; `Bail` for the error value the
   * reader returns to its caller.
   */
  datatype Fault = Panic(message: string) | Bail(message: string)

  const UnparsableOp: string := "Unparsable FranklinOp in db"
  const OpWithoutTx: string := "FranklinOp should not have tx"
  const MissingBlockIndex: string := "Block idx should be set"
  const UnparsableTx: string := "Unparsable tx in db"
  const LostTx: string := "Unsuccessful tx was lost from db."

  /** Rust's `idx as i32` on a `u32`: the same 32 bits read as two's complement. */
  function U32ToI32(x: U32): (r: I32)
    ensures (r - x) % 0x1_0000_0000 == 0
  {
    if x < 0x8000_0000 then x else x - 0x1_0000_0000
  }

  /** Rust's `idx as u32` on an `i32`: the same 32 bits read as unsigned. */
  function I32ToU32(i: I32): (r: U32)
    ensures (r - i) % 0x1_0000_0000 == 0
  {
    if i < 0 then i + 0x1_0000_0000 else i
  }

  /** Every `u32` position survives being stored in the `i32` column and read back. */
  lemma U32ThroughI32(x: U32)
    ensures I32ToU32(U32ToI32(x)) == x
  {
  }

  /** Every `i32` column value survives being read as a `u32` and written back. */
  lemma I32ThroughU32(i: I32)
    ensures U32ToI32(I32ToU32(i)) == i
  {
  }

  /**
   * `NewExecutedTransaction::prepare_stored_tx`: the row that records `e` as
   * executed in block `block`.  The block number is widened without change,
   * the transaction is kept only as its hash, the operation is kept as JSON
   * that decodes back to it, and the position is kept as an `i32` that reads
   * back as the same `u32`.
   */
  function PrepareStoredTx(c: Codec, e: ExecutedTx, block: BlockNumber): (r: NewExecutedTransaction)
    ensures r.blockNumber == block
    ensures r.txHash == c.txHash(e.tx)
    ensures r.success == e.success && r.failReason == e.failReason
    ensures r.operation.Some? <==> e.op.Some?
    ensures OpRoundTrip(c) && e.op.Some? ==> c.opFromJson(r.operation.value) == e.op
    ensures r.blockIndex.Some? <==> e.blockIndex.Some?
    ensures e.blockIndex.Some? ==> I32ToU32(r.blockIndex.value) == e.blockIndex.value
  {
    NewExecutedTransaction(
      block,
      c.txHash(e.tx),
      if e.op.Some? then Some(c.opToJson(e.op.value)) else None,
      e.success,
      e.failReason,
      if e.blockIndex.Some? then Some(U32ToI32(e.blockIndex.value)) else None)
  }

  /** What the database hands back for an inserted row: the same columns and the surrogate key it chose. */
  function AsStored(n: NewExecutedTransaction, id: I32): StoredExecutedTransaction
  {
    StoredExecutedTransaction(id, n.blockNumber, n.txHash, n.operation, n.success, n.failReason, n.blockIndex)
  }

  /**
   * `StoredExecutedTransaction::into_executed_tx`: the outcome recorded by
   * `row`, where `storedTx` is the mempool row of the same transaction if it is
   * still there.  The presence of an operation alone decides success; the
   * `success` column is never read.
   */
  function IntoExecutedTx(c: Codec, row: StoredExecutedTransaction, storedTx: Option<ReadTx>): (r: Result<ExecutedTx, Fault>)
    // every outcome handed out is well formed and succeeded exactly when the row holds an operation
    ensures r.Ok? ==> WellFormed(c, r.value) && r.value.success == row.operation.Some?
    // a row with an operation: the outcome is the decoded operation at the stored position
    ensures row.operation.Some? ==>
      var decoded := c.opFromJson(row.operation.value);
      && (decoded.None? ==> r == Err(Panic(UnparsableOp)))
      && (decoded.Some? && c.txOfOp(decoded.value).None? ==> r == Err(Panic(OpWithoutTx)))
      && (decoded.Some? && c.txOfOp(decoded.value).Some? && row.blockIndex.None? ==> r == Err(Panic(MissingBlockIndex)))
      && (decoded.Some? && c.txOfOp(decoded.value).Some? && row.blockIndex.Some? ==>
            r.Ok? && r.value.op == decoded && U32ToI32(r.value.blockIndex.value) == row.blockIndex.value)
    // a row without an operation: the outcome is the submitted transaction with the stored reason
    ensures row.operation.None? && storedTx.Some? ==>
      var decoded := c.txFromJson(storedTx.value.tx);
      && (decoded.None? ==> r == Err(Panic(UnparsableTx)))
      && (decoded.Some? ==> r.Ok? && Some(r.value.tx) == decoded && r.value.failReason == row.failReason)
    // the one error returned to the caller: a failed transaction whose submission is gone
    ensures r.Err? && r.error.Bail? <==> row.operation.None? && storedTx.None?
    ensures r.Err? && r.error.Bail? ==> r.error.message == LostTx
  {
    if row.operation.Some? then
      match c.opFromJson(row.operation.value)
      case None => Err(Panic(UnparsableOp))
      case Some(op) =>
        match c.txOfOp(op)
        case None => Err(Panic(OpWithoutTx))
        case Some(tx) =>
          match row.blockIndex
          case None => Err(Panic(MissingBlockIndex))
          case Some(idx) => Ok(ExecutedTx(tx, true, Some(op), None, Some(I32ToU32(idx))))
    else if storedTx.Some? then
      match c.txFromJson(storedTx.value.tx)
      case None => Err(Panic(UnparsableTx))
      case Some(tx) => Ok(ExecutedTx(tx, false, None, row.failReason, None))
    else
      Err(Bail(LostTx))
  }

  /** Two rows that differ only in their `success` column are read back identically. */
  lemma SuccessColumnIgnored(c: Codec, row: StoredExecutedTransaction, storedTx: Option<ReadTx>, success: bool)
    ensures IntoExecutedTx(c, row.(success := success), storedTx) == IntoExecutedTx(c, row, storedTx)
  {
  }

  /** A row with an operation is read back the same with any mempool row, or none. */
  lemma MempoolRowIgnoredWithOp(c: Codec, row: StoredExecutedTransaction, storedTx: Option<ReadTx>, other: Option<ReadTx>)
    requires row.operation.Some?
    ensures IntoExecutedTx(c, row, storedTx) == IntoExecutedTx(c, row, other)
  {
  }

  /**
   * Writing a well-formed outcome and reading the row back gives the outcome
   * again: a success from its row alone, a failure from its row joined with a
   * mempool row that holds its transaction.
   */
  lemma RoundTrip(c: Codec, e: ExecutedTx, block: BlockNumber, id: I32, storedTx: Option<ReadTx>)
    requires Lawful(c) && WellFormed(c, e)
    requires !e.success ==> storedTx.Some? && storedTx.value.tx == c.txToJson(e.tx)
    ensures IntoExecutedTx(c, AsStored(PrepareStoredTx(c, e, block), id), storedTx) == Ok(e)
  {
  }

  /**
   * The row of a successful outcome determines it and its block completely:
   * the operation carries the whole transaction, so no mempool row is needed.
   */
  lemma SuccessfulRowDeterminesOutcome(c: Codec, e1: ExecutedTx, b1: BlockNumber, e2: ExecutedTx, b2: BlockNumber)
    requires OpRoundTrip(c)
    requires WellFormed(c, e1) && WellFormed(c, e2) && e1.success && e2.success
    requires PrepareStoredTx(c, e1, b1) == PrepareStoredTx(c, e2, b2)
    ensures e1 == e2 && b1 == b2
  {
  }

  /**
   * The row of a failed outcome keeps its transaction only as a hash: two
   * failures whose transactions hash alike give the same row, which is why
   * reading one back needs the mempool row.
   */
  lemma FailedRowKeepsOnlyHash(c: Codec, e1: ExecutedTx, e2: ExecutedTx, block: BlockNumber)
    requires WellFormed(c, e1) && WellFormed(c, e2) && !e1.success && !e2.success
    requires c.txHash(e1.tx) == c.txHash(e2.tx) && e1.failReason == e2.failReason
    ensures PrepareStoredTx(c, e1, block) == PrepareStoredTx(c, e2, block)
  {
  }

  /**
   * The reader never compares the mempool row's hash with the row's
   * `tx_hash`: pairing the row with the right mempool row is the caller's job.
   */
  lemma MempoolHashNotChecked(c: Codec, row: StoredExecutedTransaction, m: ReadTx, hash: seq<Byte>)
    ensures IntoExecutedTx(c, row, Some(m.(hash := hash))) == IntoExecutedTx(c, row, Some(m))
  {
  }

  /**
   * Under a lawful codec the outcomes the reader can produce are exactly the
   * well-formed ones: nothing else comes out, and everything well formed can
   * be stored and recovered.
   */
  lemma ReadableExactlyWhenWellFormed(c: Codec, e: ExecutedTx)
    requires Lawful(c)
    ensures (exists row, storedTx :: IntoExecutedTx(c, row, storedTx) == Ok(e)) <==> WellFormed(c, e)
  {
    if exists row, storedTx :: IntoExecutedTx(c, row, storedTx) == Ok(e) {
      var row, storedTx :| IntoExecutedTx(c, row, storedTx) == Ok(e);
    }
    if WellFormed(c, e) {
      var row := AsStored(PrepareStoredTx(c, e, 0), 0);
      var when: NaiveDateTime :| true;
      var storedTx := if e.success then None else Some(ReadTx(c.txHash(e.tx), [], 0, c.txToJson(e.tx), when));
      RoundTrip(c, e, 0, 0, storedTx);
    }
  }
}
