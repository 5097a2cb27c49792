/**
 * The fee search space: each worker's starting base fee, and the batches of
 * EIP-1559 fee candidates a worker generates from its cursor
 * (src/main.rs:19-21, 44-45, 57, 74-87).
 */
module FeeSpace {
  import opened Uint

  const BATCH_SIZE: nat := 1000
  const DEFAULT_THREAD_COUNT: nat := 8
  const THREAD_OFFSET_SPACING: nat := 100_000_000
  /** The configured first base fee and the fixed priority fee, in wei (src/main.rs:44-45). */
  const BASE_FEE_START: nat := 18_000_000
  const PRIORITY_FEE: nat := 1_250_000
  /** Batches a worker completes before its cursor reaches the next worker's start. */
  const BATCHES_PER_SPACING: nat := THREAD_OFFSET_SPACING / BATCH_SIZE

  /**
   * The fee fields of one candidate EIP-1559 transaction; every other field is
   * the shared transaction template.
   */
  datatype Candidate = Candidate(maxFeePerGas: nat, maxPriorityFeePerGas: nat)

  /** `num_cpus::get().min(DEFAULT_THREAD_COUNT)` (src/main.rs:57). */
  function ThreadCount(cpus: nat): (n: nat)
    ensures n <= DEFAULT_THREAD_COUNT && n <= cpus
    ensures n == cpus || n == DEFAULT_THREAD_COUNT
  {
    if cpus < DEFAULT_THREAD_COUNT then cpus else DEFAULT_THREAD_COUNT
  }

  /** Worker i's first base fee: the configured start plus i spacings (src/main.rs:74-75). */
  function WorkerStart(baseFeeStart: U256, i: nat): (start: nat)
    ensures baseFeeStart <= start
    ensures (start - baseFeeStart) % THREAD_OFFSET_SPACING == 0
    ensures (start - baseFeeStart) / THREAD_OFFSET_SPACING == i
  {
    baseFeeStart + i * THREAD_OFFSET_SPACING
  }

  /** Later workers start whole spacings further on. */
  lemma WorkerStartsSpaced(baseFeeStart: U256, i: nat, j: nat)
    requires i < j
    ensures WorkerStart(baseFeeStart, i) + THREAD_OFFSET_SPACING <= WorkerStart(baseFeeStart, j)
    ensures WorkerStart(baseFeeStart, j) - WorkerStart(baseFeeStart, i) == (j - i) * THREAD_OFFSET_SPACING
  {
  }

  /**
   * The j-th candidate generated from a cursor: base fee cursor + j, saturating
   * at the largest U256, plus the priority fee; priority fee as given.
   */
  function StreamCandidate(cursor: U256, priorityFee: nat, j: nat): Candidate {
    Candidate(SatAdd(cursor, j) + priorityFee, priorityFee)
  }

  /** The first n candidates generated from a cursor, in order. */
  function Stream(cursor: U256, priorityFee: nat, n: nat): (s: seq<Candidate>)
    ensures |s| == n
  {
    seq(n, j requires 0 <= j => StreamCandidate(cursor, priorityFee, j))
  }

  /** The batch generated from a cursor. */
  function Batch(cursor: U256, priorityFee: nat): seq<Candidate> {
    Stream(cursor, priorityFee, BATCH_SIZE)
  }

  /** No `base_fee + priority_fee` of a batch overflows (src/main.rs:83 panics otherwise). */
  predicate BatchFits(cursor: U256, priorityFee: nat) {
    SatAdd(cursor, BATCH_SIZE - 1) + priorityFee <= MAX_U256
  }

  /** BatchFits is exactly "every candidate's maximum fee is a U256". */
  lemma BatchFitsExactly(cursor: U256, priorityFee: nat)
    ensures BatchFits(cursor, priorityFee) <==>
      forall k :: 0 <= k < BATCH_SIZE ==> Batch(cursor, priorityFee)[k].maxFeePerGas <= MAX_U256
  {
    if BatchFits(cursor, priorityFee) {
      forall k | 0 <= k < BATCH_SIZE
        ensures Batch(cursor, priorityFee)[k].maxFeePerGas <= MAX_U256
      {
        assert SatAdd(cursor, k) <= SatAdd(cursor, BATCH_SIZE - 1);
      }
    } else {
      assert Batch(cursor, priorityFee)[BATCH_SIZE - 1].maxFeePerGas > MAX_U256;
    }
  }

  /** Until the cursor saturates, the maximum fees of the stream are consecutive. */
  lemma StreamConsecutive(cursor: U256, priorityFee: nat, n: nat, k: nat)
    requires 0 < k < n
    requires cursor + k <= MAX_U256
    ensures Stream(cursor, priorityFee, n)[k].maxFeePerGas == Stream(cursor, priorityFee, n)[k - 1].maxFeePerGas + 1
    ensures Stream(cursor, priorityFee, n)[k].maxFeePerGas == cursor + k + priorityFee
  {
  }

  /**
   * One pass of the worker's inner `for` loop (src/main.rs:79-87): clear the
   * batch, push BATCH_SIZE candidates at the current base fee plus the
   * priority fee, advancing the base fee by a saturating one each time.
   */
  method GenerateBatch(cursor: U256, priorityFee: U256) returns (batch: seq<Candidate>, next: U256)
    requires BatchFits(cursor, priorityFee)
    ensures |batch| == BATCH_SIZE
    ensures forall k :: 0 <= k < BATCH_SIZE ==>
      batch[k].maxFeePerGas == SatAdd(cursor, k) + priorityFee <= MAX_U256 &&
      batch[k].maxPriorityFeePerGas == priorityFee
    ensures batch == Batch(cursor, priorityFee)
    ensures next == SatAdd(cursor, BATCH_SIZE)
  {
    batch := [];
    var baseFee := cursor;
    for k := 0 to BATCH_SIZE
      invariant |batch| == k
      invariant baseFee == SatAdd(cursor, k)
      invariant forall j :: 0 <= j < k ==> batch[j] == StreamCandidate(cursor, priorityFee, j)
    {
      assert SatAdd(cursor, k) <= SatAdd(cursor, BATCH_SIZE - 1);
      assert baseFee + priorityFee <= MAX_U256;
      batch := batch + [Candidate(baseFee + priorityFee, priorityFee)];
      baseFee := SatAdd(baseFee, 1);
    }
    next := baseFee;
  }

  /** The cursor of a worker after b batches: its start advanced by b batches, saturating. */
  function CursorAfter(start: U256, b: nat): U256 {
    SatAdd(start, b * BATCH_SIZE)
  }

  /** Batch b of the generator is the stream from the start, shifted by b batches. */
  lemma {:induction false} BatchInStream(start: U256, priorityFee: nat, b: nat, k: nat)
    requires k < BATCH_SIZE
    ensures Batch(CursorAfter(start, b), priorityFee)[k] == StreamCandidate(start, priorityFee, b * BATCH_SIZE + k)
  {
    SatAddCompose(start, b * BATCH_SIZE, k);
  }

  /** Batch b of worker i. */
  function WorkerBatch(baseFeeStart: U256, priorityFee: nat, i: nat, b: nat): seq<Candidate>
    requires WorkerStart(baseFeeStart, i) <= MAX_U256
  {
    Batch(CursorAfter(WorkerStart(baseFeeStart, i), b), priorityFee)
  }

  /**
   * Partition disjointness: two distinct workers, each within its first
   * BATCHES_PER_SPACING batches, never generate the same candidate.
   */
  lemma WorkersNeverShareFee(baseFeeStart: U256, priorityFee: nat, i: nat, j: nat, bi: nat, bj: nat, ki: nat, kj: nat)
    requires i != j
    requires WorkerStart(baseFeeStart, i) + THREAD_OFFSET_SPACING <= MAX_U256
    requires WorkerStart(baseFeeStart, j) + THREAD_OFFSET_SPACING <= MAX_U256
    requires bi < BATCHES_PER_SPACING && bj < BATCHES_PER_SPACING
    requires ki < BATCH_SIZE && kj < BATCH_SIZE
    ensures WorkerBatch(baseFeeStart, priorityFee, i, bi)[ki].maxFeePerGas != WorkerBatch(baseFeeStart, priorityFee, j, bj)[kj].maxFeePerGas
  {
    var si, sj := WorkerStart(baseFeeStart, i), WorkerStart(baseFeeStart, j);
    BatchInStream(si, priorityFee, bi, ki);
    BatchInStream(sj, priorityFee, bj, kj);
    assert bi * BATCH_SIZE + ki < THREAD_OFFSET_SPACING;
    assert bj * BATCH_SIZE + kj < THREAD_OFFSET_SPACING;
    if i < j {
      WorkerStartsSpaced(baseFeeStart, i, j);
    } else {
      WorkerStartsSpaced(baseFeeStart, j, i);
    }
  }

  /**
   * The documented limit of the partition: once worker i has completed
   * BATCHES_PER_SPACING batches, its next candidate is worker i + 1's first.
   */
  lemma RangesMeetAfterSpacing(baseFeeStart: U256, priorityFee: nat, i: nat)
    requires WorkerStart(baseFeeStart, i + 1) <= MAX_U256
    ensures WorkerBatch(baseFeeStart, priorityFee, i, BATCHES_PER_SPACING)[0] == WorkerBatch(baseFeeStart, priorityFee, i + 1, 0)[0]
  {
    BatchInStream(WorkerStart(baseFeeStart, i), priorityFee, BATCHES_PER_SPACING, 0);
    BatchInStream(WorkerStart(baseFeeStart, i + 1), priorityFee, 0, 0);
  }

  /** With the configured constants every worker's first BATCHES_PER_SPACING batches fit in U256. */
  lemma ConfiguredWorkersFit(cpus: nat, i: nat, b: nat)
    requires i < ThreadCount(cpus) && b < BATCHES_PER_SPACING
    ensures WorkerStart(BASE_FEE_START, i) + THREAD_OFFSET_SPACING <= MAX_U256
    ensures WorkerStart(BASE_FEE_START, i) == 18_000_000 + i * 100_000_000
    ensures BatchFits(CursorAfter(WorkerStart(BASE_FEE_START, i), b), PRIORITY_FEE)
  {
  }
}
