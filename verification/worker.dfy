/**
 * The body of one search worker (src/main.rs:74-99): start the base-fee cursor
 * at the worker's offset, and while the shared flag is clear generate a batch,
 * scan it, and stop with the result when this worker claimed the win.
 */
module Worker {
  import opened Wrappers
  import opened Uint
  import opened FeeSpace
  import opened BatchScan

  /**
   * The worker loop from a cursor, run for at most n batches with no other
   * worker touching the flag: the result and the flag afterwards.
   */
  function RunBatches(cursor: U256, priorityFee: nat, n: nat, sign: Signer, prefix: string, gasLimit: nat, found: bool)
    : (r: (Option<Outcome>, bool))
    ensures found || n == 0 ==> r == (None, found)
    ensures r.0.Some? ==> !found
    ensures r.1 <==> found || r.0.Some?
    decreases n
  {
    if found || n == 0 then (None, found)
    else
      var (r, f) := ScanBatch(Batch(cursor, priorityFee), sign, prefix, gasLimit, false);
      if r.Some? then (r, f)
      else RunBatches(SatAdd(cursor, BATCH_SIZE), priorityFee, n - 1, sign, prefix, gasLimit, f)
  }

  /** One round of the worker loop with the flag clear: claim in this batch, or go on from the advanced cursor. */
  lemma RunBatchesStep(cursor: U256, priorityFee: nat, n: nat, sign: Signer, prefix: string, gasLimit: nat)
    requires n > 0
    ensures RunBatches(cursor, priorityFee, n, sign, prefix, gasLimit, false) ==
      match FirstMatch(Batch(cursor, priorityFee), sign, prefix)
      case Some(k) => (Some(ClaimOf(sign, gasLimit, Batch(cursor, priorityFee)[k])), true)
      case None => RunBatches(SatAdd(cursor, BATCH_SIZE), priorityFee, n - 1, sign, prefix, gasLimit, false)
  {
  }

  /** The first match of a concatenation is the first match of the head, else of the tail, shifted. */
  lemma {:induction false} FirstMatchAppend(a: seq<Candidate>, b: seq<Candidate>, sign: Signer, prefix: string)
    ensures FirstMatch(a + b, sign, prefix) ==
      match FirstMatch(a, sign, prefix)
      case Some(k) => Some(k)
      case None =>
        match FirstMatch(b, sign, prefix)
        case Some(k) => Some(|a| + k)
        case None => None
  {
    if a == [] {
      assert a + b == b;
    } else {
      assert (a + b)[1..] == a[1..] + b;
      FirstMatchAppend(a[1..], b, sign, prefix);
    }
  }

  /** Scanning a concatenation with the flag clear: the head's claim if it has one, else the tail's. */
  lemma ScanBatchAppend(a: seq<Candidate>, b: seq<Candidate>, sign: Signer, prefix: string, gasLimit: nat)
    ensures ScanBatch(a + b, sign, prefix, gasLimit, false) ==
      if ScanBatch(a, sign, prefix, gasLimit, false).0.Some? then ScanBatch(a, sign, prefix, gasLimit, false)
      else ScanBatch(b, sign, prefix, gasLimit, false)
  {
    FirstMatchAppend(a, b, sign, prefix);
    var fa, fb := FirstMatch(a, sign, prefix), FirstMatch(b, sign, prefix);
    if fa.Some? {
      assert (a + b)[fa.value] == a[fa.value];
    } else if fb.Some? {
      assert (a + b)[|a| + fb.value] == b[fb.value];
    }
  }

  /** n + 1 batches of the stream are one batch followed by n batches from the advanced cursor. */
  lemma StreamSplit(cursor: U256, priorityFee: nat, n: nat)
    ensures Stream(cursor, priorityFee, (n + 1) * BATCH_SIZE) ==
      Batch(cursor, priorityFee) + Stream(SatAdd(cursor, BATCH_SIZE), priorityFee, n * BATCH_SIZE)
  {
    var whole := Stream(cursor, priorityFee, (n + 1) * BATCH_SIZE);
    var head, tail := Batch(cursor, priorityFee), Stream(SatAdd(cursor, BATCH_SIZE), priorityFee, n * BATCH_SIZE);
    forall j | BATCH_SIZE <= j < |whole|
      ensures whole[j] == tail[j - BATCH_SIZE]
    {
      SatAddCompose(cursor, BATCH_SIZE, j - BATCH_SIZE);
    }
    assert whole == head + tail;
  }

  /**
   * Batching does not change the search: n batches from a cursor give the
   * same result and flag as one scan over the n * BATCH_SIZE candidates of the
   * stream, in order, with none skipped or repeated.
   */
  lemma {:induction false} BatchingPreservesSearch(cursor: U256, priorityFee: nat, n: nat, sign: Signer, prefix: string, gasLimit: nat, found: bool)
    ensures RunBatches(cursor, priorityFee, n, sign, prefix, gasLimit, found) ==
      ScanBatch(Stream(cursor, priorityFee, n * BATCH_SIZE), sign, prefix, gasLimit, found)
    decreases n
  {
    if !found && n > 0 {
      var next := SatAdd(cursor, BATCH_SIZE);
      StreamSplit(cursor, priorityFee, n - 1);
      ScanBatchAppend(Batch(cursor, priorityFee), Stream(next, priorityFee, (n - 1) * BATCH_SIZE), sign, prefix, gasLimit);
      BatchingPreservesSearch(next, priorityFee, n - 1, sign, prefix, gasLimit, false);
    } else if !found {
      assert Stream(cursor, priorityFee, 0) == [];
    }
  }

  /** Scanning the first m candidates of a stream claims its first matching candidate. */
  lemma StreamScan(cursor: U256, priorityFee: nat, m: nat, sign: Signer, prefix: string, gasLimit: nat, found: bool)
    ensures ScanBatch(Stream(cursor, priorityFee, m), sign, prefix, gasLimit, found).0.Some? <==>
      !found && exists j :: 0 <= j < m && IsMatch(sign, prefix, StreamCandidate(cursor, priorityFee, j))
    ensures forall j ::
      (0 <= j < m && !found && IsMatch(sign, prefix, StreamCandidate(cursor, priorityFee, j)) &&
       (forall l :: 0 <= l < j ==> !IsMatch(sign, prefix, StreamCandidate(cursor, priorityFee, l)))) ==>
      ScanBatch(Stream(cursor, priorityFee, m), sign, prefix, gasLimit, found).0 ==
        Some(ClaimOf(sign, gasLimit, StreamCandidate(cursor, priorityFee, j)))
  {
    var s := Stream(cursor, priorityFee, m);
    assert forall j :: 0 <= j < m ==> s[j] == StreamCandidate(cursor, priorityFee, j);
    ScanReturnsFirstMatch(s, sign, prefix, gasLimit, found);
  }

  /**
   * A worker's result over its first n batches: present exactly when the flag
   * was clear and some candidate of its stream matches, and then it is the
   * claim of the first matching candidate, whose fee is the gas limit times
   * that candidate's maximum fee.
   */
  lemma WorkerClaimsFirstMatch(cursor: U256, priorityFee: nat, n: nat, sign: Signer, prefix: string, gasLimit: nat, found: bool)
    ensures RunBatches(cursor, priorityFee, n, sign, prefix, gasLimit, found).0.Some? <==>
      !found && exists j :: 0 <= j < n * BATCH_SIZE && IsMatch(sign, prefix, StreamCandidate(cursor, priorityFee, j))
    ensures forall j ::
      (0 <= j < n * BATCH_SIZE && !found && IsMatch(sign, prefix, StreamCandidate(cursor, priorityFee, j)) &&
       (forall l :: 0 <= l < j ==> !IsMatch(sign, prefix, StreamCandidate(cursor, priorityFee, l)))) ==>
      RunBatches(cursor, priorityFee, n, sign, prefix, gasLimit, found).0 ==
        Some(ClaimOf(sign, gasLimit, StreamCandidate(cursor, priorityFee, j)))
  {
    BatchingPreservesSearch(cursor, priorityFee, n, sign, prefix, gasLimit, found);
    StreamScan(cursor, priorityFee, n * BATCH_SIZE, sign, prefix, gasLimit, found);
  }

  /**
   * One worker task (src/main.rs:74-99) run for at most `budget` batches: the
   * source loops until the flag is set. The requires are the source's
   * overflow panics: `base_fee + priority_fee` (line 83) and
   * `gas_limit * max_fee_per_gas` (line 158) must fit in a U256.
   */
  method Work(i: nat, baseFeeStart: U256, priorityFee: U256, gasLimit: U256, sign: Signer, prefix: string,
              budget: nat, flag: SearchFlag)
    returns (r: Option<Outcome>)
    requires i < DEFAULT_THREAD_COUNT
    requires WorkerStart(baseFeeStart, i) <= MAX_U256
    requires forall b :: 0 <= b < budget ==> BatchFits(CursorAfter(WorkerStart(baseFeeStart, i), b), priorityFee)
    requires forall b :: 0 <= b < budget ==> ClaimFits(WorkerBatch(baseFeeStart, priorityFee, i, b), sign, prefix, gasLimit)
    modifies flag
    ensures (r, flag.found) == RunBatches(WorkerStart(baseFeeStart, i), priorityFee, budget, sign, prefix, gasLimit, old(flag.found))
    ensures r.Some? ==> !old(flag.found) && flag.found && r.value.totalFee <= MAX_U256
  {
    var start: U256 := WorkerStart(baseFeeStart, i);
    var baseFee := start;
    var b := 0;
    r := None;
    while !flag.found && b < budget
      invariant 0 <= b <= budget
      invariant baseFee == CursorAfter(start, b)
      invariant RunBatches(start, priorityFee, budget, sign, prefix, gasLimit, old(flag.found)) ==
        RunBatches(baseFee, priorityFee, budget - b, sign, prefix, gasLimit, flag.found)
      invariant flag.found ==> old(flag.found)
    {
      var batch;
      var cursor := baseFee;
      batch, baseFee := GenerateBatch(baseFee, priorityFee);
      SatAddCompose(start, b * BATCH_SIZE, BATCH_SIZE);
      assert batch == WorkerBatch(baseFeeStart, priorityFee, i, b);
      var res, _ := ProcessBatch(batch, sign, prefix, gasLimit, flag);
      if res.Some? {
        r := res;
        break;
      }
      b := b + 1;
    }
  }
}
