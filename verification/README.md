# Vanity transaction-hash search, modelled in Dafny

This project models the search engine of a vanity transaction-hash miner. The
miner looks for EIP-1559 fee parameters that make a contract-creation
transaction's hash start with a chosen hexadecimal prefix. It runs up to eight
workers. Worker `i` starts its base-fee cursor at `18,000,000 + i × 100,000,000`
wei. Each worker generates batches of 1000 candidates
(`max_fee_per_gas = cursor + 1,250,000`, `max_priority_fee_per_gas = 1,250,000`),
signs each candidate and renders its hash as `0x` plus lowercase hex. The first
worker whose rendered hash starts with the prefix claims the win by an atomic
swap of a shared `found` flag. The project also models the prediction of the
created contract's address: the RLP encoding of `[sender, nonce]`, hashed.

Files, one module each:

- `wrappers.dfy` (`Wrappers`): `Option`.
- `uint.dfy` (`Uint`): U256 values as naturals up to 2^256 − 1, bytes,
  32-byte hashes, and `saturating_add`.
- `hex.dfy` (`Hex`): hex rendering of a hash, its inverse, and `starts_with`.
- `rlp.dfy` (`Rlp`): minimal big-endian integers, RLP of short strings and
  lists, the `[sender, nonce]` encoding, its decoder, and the contract address.
  Keccak-256 is a parameter.
- `fees.dfy` (`FeeSpace`): the constants, the thread count, worker start
  offsets, and the batch generator (`GenerateBatch`, a method with the
  source's loop). Also the partition-disjointness lemmas.
- `scan.dfy` (`BatchScan`): the shared flag as a class (`SearchFlag`),
  `process_batch` as the method `ProcessBatch`, and its pure specification
  `ScanBatch`. Also the at-most-one-winner lemma over any sequence of calls.
- `worker.dfy` (`Worker`): one worker's loop as the method `Work`, and its
  specification `RunBatches`. Also the proof that batching scans the
  candidate stream in order, skipping and repeating nothing.
- `race.dfy` (`Race`): the workers as an interleaving of atomic steps on the
  flag, including the overflow panics at src/main.rs:83 and 158. It proves
  that at most one worker wins under every schedule, that a worker whose
  batches fit never panics, and that a worker running alone reproduces
  `RunBatches`.

Overflow. U256 `+` and `*` panic on overflow in the source, at
src/main.rs:75, 83 and 158. In the sequential methods these are
preconditions: `GenerateBatch` requires `BatchFits`, `ProcessBatch` requires
`ClaimFits`, and `Work` requires both for every batch it may reach. In `Race`
the panics at lines 83 and 158 are steps of their own: a worker moves to
`Panicked(83)` or `Panicked(158)` and stops. The panic at line 75 (a worker's
start beyond 2^256 − 1) is excluded by the precondition of `Race.Spawn`. The
pure specifications compute on unbounded naturals. `saturating_add` is the
explicit clamp `SatAdd`.

Facts about the code that shape the model:

- Worker i's first base fee is `base_fee_start + i × THREAD_OFFSET_SPACING`
  (src/main.rs:74-75).
- A worker reads the flag before every batch (line 78) and before every
  candidate (line 150).
- A candidate whose signing fails is skipped (line 154).
- A worker's loop ends only when the flag is set (line 78), when it sends
  its result (lines 96-97), or when it panics on an overflow at line 83 or
  158.

## Model

| member | source | states |
|---|---|---|
| `Uint.SatAdd` | src/main.rs:86 | `saturating_add` computes `min(a + b, 2^256 − 1)`: the exact sum when it is at most 2^256 − 1, and the maximum when it reaches or exceeds it |
| `Hex.EncodeHex` | src/main.rs:155 | `hex::encode` writes exactly two characters per byte |
| `Hex.EncodeHexAt` | src/main.rs:155 | byte k of the hash becomes characters 2k (high nibble) and 2k+1 (low nibble) of `hex::encode` |
| `Hex.DecodeEncodeHex` | src/main.rs:155 | hex decoding inverts the encoding, so the rendering loses nothing |
| `Hex.EncodeHexInjective` | src/main.rs:155 | distinct byte strings have distinct hex encodings |
| `Hex.RenderHash` | src/main.rs:155 | the rendered hash is 66 characters: `0x` followed by the hex encoding |
| `Hex.RenderHashShape` | src/main.rs:155 | every character after `0x` is a lowercase hex digit, high nibble first for each byte |
| `Hex.RenderHashRoundTrip` | src/main.rs:155 | the 64 digits after `0x` decode back to the hash |
| `Hex.StartsWith` | src/main.rs:156 | `starts_with` holds exactly when the prefix is no longer than the string and the string is the prefix followed by its remainder |
| `Hex.EmptyPrefixMatches` | src/main.rs:156 | the empty prefix matches every rendered hash |
| `Hex.PrefixWithoutMarker` | src/main.rs:155-156 | a prefix not beginning with `0x` matches if and only if it is `""` or `"0"` |
| `Hex.MarkedPrefix` | src/main.rs:155-156 | `0x` + q matches if and only if q is a prefix of the 64 digits |
| `Hex.UnmatchablePrefix` | src/main.rs:155-156 | a prefix longer than 66 characters, or with a non-lowercase-hex character after position 1, never matches |
| `Rlp.BigEndian` | src/main.rs:189 | the nonce's bytes are minimal: empty exactly for 0, never a leading zero byte |
| `Rlp.BigEndianRoundTrip` | src/main.rs:189 | reading the minimal bytes back gives the integer |
| `Rlp.BigEndianLength` | src/main.rs:189 | an integer takes at most k bytes if and only if it is below 256^k |
| `Rlp.U256Length` | src/main.rs:185-189 | a U256 nonce takes at most 32 bytes |
| `Rlp.NonceBytes` | src/main.rs:189 | the bytes RLP writes for a U256 nonce number at most 32 |
| `Rlp.EncodeString` | src/main.rs:188-189 | a short RLP string is one byte long when it is a single byte below 0x80, otherwise its length plus one |
| `Rlp.EncodeList` | src/main.rs:187-190 | a short RLP list adds one header byte to its payload |
| `Rlp.DecodeEncodeString` | src/main.rs:188-189 | decoding the head of an encoded short string followed by anything returns the string and its encoded length |
| `Rlp.CreateInput` | src/main.rs:187-190 | the `[sender, nonce]` encoding is 23 to 55 bytes long. Its header is 0xc0 + payload length, then 0x94, then the 20 sender bytes, then the nonce item |
| `Rlp.NonceEncoding` | src/main.rs:189 | the nonce item is 0x80 for 0, the byte itself below 0x80, and otherwise 0x80 + length followed by the minimal big-endian bytes |
| `Rlp.CreateInputRoundTrip` | src/main.rs:187-190 | decoding the encoding gives back the sender and the nonce |
| `Rlp.CreateInputInjective` | src/main.rs:187-190 | distinct (sender, nonce) pairs have distinct encodings |
| `Rlp.ContractAddress` | src/main.rs:185-198 | the address is bytes 12 to 31 of the Keccak-256 hash of the encoding |
| `Rlp.SharedAddressNeedsCollision` | src/main.rs:185-198 | two distinct creations get the same address only when the truncated hash collides on two different encodings |
| `FeeSpace.ThreadCount` | src/main.rs:57 | the worker count is the CPU count capped at 8: at most 8, at most the CPU count, and equal to one of them |
| `FeeSpace.WorkerStart` | src/main.rs:74-75 | worker i's first base fee is at or above `base_fee_start` and exactly i spacings of 100,000,000 above it |
| `FeeSpace.WorkerStartsSpaced` | src/main.rs:74-75 | worker j starts (j − i) × 100,000,000 above worker i, so later workers start at least one spacing further on |
| `FeeSpace.BatchFitsExactly` | src/main.rs:83 | the precondition `BatchFits` holds if and only if no `base_fee + priority_fee` of the batch exceeds 2^256 − 1 |
| `FeeSpace.StreamConsecutive` | src/main.rs:81-87 | until the cursor saturates, consecutive candidates' maximum fees differ by one, and candidate k's maximum fee is cursor + k + priority fee |
| `FeeSpace.GenerateBatch` | src/main.rs:79-87 | a batch has exactly 1000 candidates. Candidate k has maximum fee `min(cursor + k, 2^256−1) + priority_fee` (a U256) and priority fee `priority_fee`. The cursor afterwards is `min(cursor + 1000, 2^256−1)` |
| `FeeSpace.BatchInStream` | src/main.rs:79-87 | candidate k of batch b is candidate b·1000 + k of the worker's stream from its start |
| `FeeSpace.WorkersNeverShareFee` | src/main.rs:74-86 | two distinct workers, each within its first 100,000 batches, never generate the same maximum fee |
| `FeeSpace.RangesMeetAfterSpacing` | src/main.rs:74-86 | after 100,000 batches, worker i's next candidate is worker i+1's first one (the known limit of the fixed spacing) |
| `FeeSpace.ConfiguredWorkersFit` | src/main.rs:44-75 | with the configured constants, worker i starts at 18,000,000 + i·100,000,000, and its first 100,000 batches cause no overflow |
| `BatchScan.IsMatch` | src/main.rs:154-156 | a matching candidate is one whose signing succeeded, and a prefix that matches is at most 66 characters long |
| `BatchScan.ClaimOf` | src/main.rs:157-159 | the claim carries the signer's raw bytes and hash for that candidate, and the fee `gas_limit × max_fee_per_gas` |
| `BatchScan.FirstMatch` | src/main.rs:149-162 | the position found holds a candidate that signs and matches, and no earlier candidate does; when none is found, no candidate matches |
| `BatchScan.ScanBatch` | src/main.rs:149-165 | a call that finds the flag set returns nothing and leaves it set; a result is returned only when the flag was clear; the flag ends set exactly when it was set or a result is returned |
| `BatchScan.ScanReturnsFirstMatch` | src/main.rs:149-165 | a call returns a result exactly when the flag was clear and some candidate matches. The result is the claim of the first matching candidate in batch order, with fee `gas_limit × max_fee_per_gas`. The flag ends set exactly when it was set or this call won |
| `BatchScan.EmptyPrefixTakesFirstSigned` | src/main.rs:154-159 | with the empty prefix, the first candidate that signs wins and earlier failed signings are skipped |
| `BatchScan.SearchFlag.constructor` | src/main.rs:59 | the flag starts clear |
| `BatchScan.SearchFlag.Swap` | src/main.rs:157 | swap returns the old value and stores the new one |
| `BatchScan.ProcessBatch` | src/main.rs:142-166 | the result and the new flag are those of `ScanBatch` on the flag at entry. The candidates handed to the signer are exactly the batch up to and including the first match: none if the flag was set, all if nothing matched. A returned fee fits in a U256 |
| `BatchScan.AtMostOneWinner` | src/main.rs:149-161 | across any sequence of calls sharing one flag, at most one returns a result, and none does if the flag started set. The flag ends set exactly when it started set or a call won |
| `Worker.StreamSplit` | src/main.rs:79-87 | n+1 batches of the stream are one batch followed by n batches from the cursor advanced by 1000 |
| `Worker.BatchingPreservesSearch` | src/main.rs:78-99 | n batches give the same result and flag as one scan over the first n·1000 candidates of the stream, in order |
| `Worker.WorkerClaimsFirstMatch` | src/main.rs:78-99 | a worker's result is present exactly when the flag was clear and some candidate of its stream matches. It is then the claim of the first matching candidate |
| `Worker.RunBatches` | src/main.rs:78-99 | with the flag set, or no batch left, the loop ends without a result and the flag unchanged; a result is returned only when the flag was clear; the flag ends set exactly when it was set or a result is returned |
| `Worker.Work` | src/main.rs:74-99 | the worker's result and the flag afterwards are `RunBatches` from its start offset. A result is returned only when the flag was clear at entry and is set afterwards, and its fee fits in a U256 |
| `Race.Step` | src/main.rs:78-161 | one atomic step keeps the worker's start, never clears the flag, sets it only by a claiming worker's swap, and leaves an ended (finished or panicked) worker as it is |
| `Race.StepWinsOnlyFromClearFlag` | src/main.rs:150-161 | for a placed worker that has not claimed: its step claims exactly when it is a swap that saw the flag clear; the claim is a win exactly when `gas_limit × max_fee_per_gas` fits, and otherwise the step panics at line 158; a win carries that candidate's claim; the step panics at line 83 exactly when it generates a batch that overflows; a worker whose batches fit never panics; the worker stays placed |
| `Race.StepKeepsInv` | src/main.rs:78-161 | any single step keeps the invariant: the flag is set exactly when one worker has claimed it (won, or panicked at line 158 right after the swap); every scanning or claiming worker is at or before the first match of its batch; a worker whose batches fit has not panicked |
| `Race.RunKeepsInv` | src/main.rs:78-161 | every schedule keeps the invariant, and a set flag stays set |
| `Race.Spawn` | src/main.rs:62-76 | the spawned worker i starts at `base_fee_start + i × spacing`, before its first batch; the only precondition is that the last worker's start does not overflow (line 75) |
| `Race.AtMostOneWorkerWins` | src/main.rs:62-161 | under every interleaving of the spawned workers at most one returns a result, and a result means the flag is set. The flag is set exactly when one worker's swap succeeded. When every worker's batches fit, the flag is set exactly when one worker has returned a result |
| `Race.ConfiguredWorkersCannotPanic` | src/main.rs:33-45 | with the configured fees and a gas limit read as a `u64`, every worker's start fits and its first 100,000 batches panic neither at line 83 nor at line 158 |
| `Race.CancelledWithinTwoSteps` | src/main.rs:149-152 | once the flag is set, an unfinished worker finishes without a result within two of its own steps (the checks at lines 78 and 150) |
| `Race.ScanSteps` | src/main.rs:149-162 | when the fee of the first match fits, a lone worker scanning a batch from candidate k wins m+2 steps later if the first match is m candidates ahead, and otherwise returns to the loop head after the rest of the batch and one more step (`ScanOutcome`) |
| `Race.LoopSteps` | src/main.rs:78-99 | a lone worker whose batches fit, from the loop head before batch b, ends with `RunBatches` over the remaining batches |
| `Race.SoloWorkerMatchesSequential` | src/main.rs:74-99 | a worker whose batches fit, running alone in the interleaving model, ends with the result and flag of `RunBatches`, the specification of `Worker.Work` |

## Left out

- Environment loading, the RPC provider, the nonce fetch, the printed report, the confirmation prompt and `send_raw_transaction` (src/main.rs:25-41, 113-137): input and output only. The nonce and the sender are parameters of `Rlp.ContractAddress`.
- `tokio::spawn`, the `mpsc` result channel and its capacity `BUFFER_SIZE`, `Arc` and `RwLock`, and the task-join loop (src/main.rs:57-73, 105-111). A worker's `Finished(Some(_))` state in `Race` stands for its `send` at line 96. Delivery to and consumption by the orchestrator are not modelled.
- `Ordering::Relaxed`: `Race` treats every flag access as atomic and immediately visible to all workers. The swap is a read-modify-write, so at most one winner holds under any ordering. Delayed visibility of a set flag, which could lengthen a worker's over-run, is not modelled.
- `encode_and_sign_eip1559` (src/main.rs:168-183): ECDSA signing and EIP-1559 encoding. It is the `Signer` parameter, a deterministic function that may fail. The transaction template (data, nonce, gas, chain id) is fixed inside it, so a `Candidate` holds only the two fee fields.
- Keccak-256 (src/main.rs:192-195): a foreign hash, passed as a function parameter.
- `wei_to_eth` (src/main.rs:200-205): a floating-point conversion.
- Lowercasing of the prefix (src/main.rs:31): the prefix is taken as given.
- The `?` on `process_batch`'s result (line 95) and `unwrap_or_default` (line 158): `process_batch` never returns an error, and the maximum fee is always set.
- src/bin/gas_checker.rs: RPC queries and floating-point display.
- Worker.Work: runs for at most `budget` batches, while the source loops until the flag is set; a search that never matches does not terminate in the source. `Race.Config.budget` bounds the interleaving model the same way.
- Worker.Work: requires every batch within the budget to be overflow-free (`BatchFits`, `ClaimFits`). The source only needs this for the batches it actually reaches before stopping, and panics otherwise.
- Race.SoloWorkerMatchesSequential: requires the same overflow-freedom (`Race.Fits`) as `Worker.Work`; a lone worker that panics is covered only by `Race.StepWinsOnlyFromClearFlag`. `Race.LoopSteps` and `Race.ScanSteps` carry the same requirement.
- Race.Spawn: requires that no worker's start overflows; the panic at src/main.rs:75 is not a step of the model.
