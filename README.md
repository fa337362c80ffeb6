# Executed-transaction rows of the zkSync storage layer

This project models the row codec for executed transactions in the storage
crate of zkSync (`core/storage/src/interfaces/transactions/records.rs`). The
codec turns the outcome of executing one transaction in a block
(`ExecutedTx`) into a row of the `executed_transactions` table, and turns such
a row back into an outcome.

- `Records.PrepareStoredTx` models `NewExecutedTransaction::prepare_stored_tx`.
  The block number is widened to `i64`. The transaction is kept only as its
  hash. The operation is kept as JSON. The success flag and the failure reason
  are copied. The position in the block is cast from `u32` to `i32`.
- `Records.IntoExecutedTx` models `StoredExecutedTransaction::into_executed_tx`.
  A row with an operation is read back as a success: the operation is decoded
  and the transaction is taken from it. A row without an operation is a
  failure, and its transaction is decoded from the mempool row that still
  holds it. With no mempool row, the reader returns the error
  "Unsuccessful tx was lost from db.". The stored `success` column is never
  read.

Transactions (`FranklinTx`), operations (`FranklinOp`), JSON values and
timestamps are opaque types. The JSON encoders and decoders, `FranklinOp::try_get_tx`
and `FranklinTx::hash` are fields of a `Models.Codec` value. Every result
holds for every codec. The round-trip results also assume the codec law
`decode(encode(x)) == x` (`Models.Lawful`).
This law is a precondition, not an axiom. Each `expect` of the reader becomes
a `Panic` value carrying the source's message. The `bail!` becomes a `Bail`
value.

`Models.WellFormed` gives the shape of every outcome the storage layer hands
out. A success has an operation, a position and no failure reason, and its
transaction is the one embedded in its operation. A failure has neither an
operation nor a position. Under a lawful codec, the outcomes
`IntoExecutedTx` can produce are exactly the well-formed ones
(`Records.ReadableExactlyWhenWellFormed`). Writing a well-formed outcome and
reading it back returns it unchanged (`Records.RoundTrip`). A success needs
only its row; a failure comes back only with a mempool row whose payload
encodes its transaction.

Files: `wrappers.dfy` (Option, Result), `models.dfy` (integer widths, the
opaque types, the codec, `ExecutedTx`), `records.dfy` (the rows and the two
functions, with their lemmas).

## Model

| member | source | states |
|---|---|---|
| `Records.U32ToI32` | core/storage/src/interfaces/transactions/records.rs:170 | `idx as i32` keeps the 32 bits: the result is congruent to the input modulo 2^32 and lies in the `i32` range |
| `Records.I32ToU32` | core/storage/src/interfaces/transactions/records.rs:134 | `idx as u32` keeps the 32 bits: the result is congruent to the input modulo 2^32 and lies in the `u32` range |
| `Records.U32ThroughI32` | core/storage/src/interfaces/transactions/records.rs:170 | every `u32` block index survives the write cast to `i32` and the read cast back unchanged |
| `Records.I32ThroughU32` | core/storage/src/interfaces/transactions/records.rs:134 | every `i32` column value survives the read cast to `u32` and the write cast back unchanged |
| `Records.PrepareStoredTx` | core/storage/src/interfaces/transactions/records.rs:163-172 | the row's block number equals the block; its hash is the hash of the outcome's transaction; success and failure reason are copied; an operation is stored exactly when there is one, and it decodes back to it under the codec law; a position is stored exactly when there is one, and it reads back as the same `u32` |
| `Records.IntoExecutedTx` | core/storage/src/interfaces/transactions/records.rs:120-148 | every outcome is well formed and succeeds exactly when the row has an operation; with an operation it is the decoded operation at the stored position, or a panic for an undecodable operation, an operation without a transaction, or a missing position, checked in that order; without one it is the decoded mempool payload with the row's failure reason, or a panic for an undecodable payload; the returned error happens exactly when neither operation nor mempool row exists, and it carries the "lost from db" message |
| `Records.SuccessColumnIgnored` | core/storage/src/interfaces/transactions/records.rs:119-148 | two rows that differ only in the `success` column are read back identically |
| `Records.MempoolRowIgnoredWithOp` | core/storage/src/interfaces/transactions/records.rs:124-135 | a row with an operation gives the same result with any mempool row or with none |
| `Records.MempoolHashNotChecked` | core/storage/src/interfaces/transactions/records.rs:136-144 | the result does not depend on the mempool row's hash, so the reader never checks that it matches the row |
| `Records.RoundTrip` | core/storage/src/interfaces/transactions/records.rs:120-172 | under the codec law, a well-formed outcome written by `PrepareStoredTx` and read back by `IntoExecutedTx` is returned unchanged. A success needs no mempool row. A failure needs a mempool row whose payload encodes its transaction |
| `Records.SuccessfulRowDeterminesOutcome` | core/storage/src/interfaces/transactions/records.rs:163-172 | under the codec law, two successful well-formed outcomes that give the same row are equal and were written for the same block |
| `Records.FailedRowKeepsOnlyHash` | core/storage/src/interfaces/transactions/records.rs:163-172 | two failed outcomes with the same failure reason, whose transactions hash alike, give the same row, so the row alone cannot recover a failed transaction |
| `Records.ReadableExactlyWhenWellFormed` | core/storage/src/interfaces/transactions/records.rs:120-148 | under the codec law, an outcome is produced by `IntoExecutedTx` from some row and mempool row if and only if it is well formed |

## Left out

- JSON encoding and decoding with `serde_json` is not modelled. It is replaced by the functions of `Models.Codec`. Their round trip is a precondition (`Models.Lawful`), not something proved.
- `FranklinTx::hash` and `FranklinOp::try_get_tx` live in the `models` crate, which is not part of this model. They are uninterpreted fields of the codec, and `try_get_tx` may fail.
- `ExecutedTx` is defined in the `models` crate, which is not part of this model. It is modelled with the five fields the codec reads and writes.
- `Records.PrepareStoredTx`: the `unwrap` on encoding an operation (records.rs:167) is not modelled as a possible panic. Encoding is taken to be total.
- `Records.IntoExecutedTx`: each `expect` panics in the source. Here it is a `Panic` value carrying the same message, so the model does not capture that nothing after the panic runs.
- The message of the `expect` at records.rs:130 reads "should not have tx", but it fires when the operation has no transaction. The model keeps the message as written.
- `Records.IntoExecutedTx` does not check that a failed row carries a failure reason, nor that `success` agrees with the presence of an operation. The reason is copied as stored and `success` is ignored; the model does the same.
- An undecodable operation or payload panics (`Panic`). Only the lost mempool row is returned as an error (`Bail`).
- The database's insert and select are modelled as `Records.AsStored`, which copies the columns and adds the surrogate `id`. Atomicity and concurrency of the store are not modelled.
- `InsertTx`, `AccountTransaction`, `TransactionsHistoryItem`, `TxReceiptResponse`, `PriorityOpReceiptResponse` and `TxByHashResponse` (records.rs:13-105) are plain data with no logic in this file, so they are not modelled. `ProverRun` is not modelled for the same reason.
- Diesel derives and SQL type annotations have no behaviour and are not modelled.
- Idempotent mempool insertion and the type/from/to mapping of the by-hash view are not implemented in this file (only described in comments at records.rs:89-101), so they are not modelled.
