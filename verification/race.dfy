/**
 * The workers running concurrently (src/main.rs:57-103, 142-166), as an
 * interleaving of atomic steps over one shared flag. Each worker is a program
 * counter in its loop; a step is one atomic access to the flag together with
 * the worker-local work that follows it (generating a batch, signing,
 * rendering, testing, computing the fee). Any schedule of steps is allowed,
 * so the race between two workers that match at "the same instant" (one
 * loads the flag, the other swaps, the first swaps) is among the behaviours
 * covered. The two overflow panics a running worker can hit are steps too:
 * `base_fee + priority_fee` while generating a batch (line 83), and
 * `gas_limit * max_fee_per_gas` right after a successful swap (line 158).
 */
module Race {
  import opened Wrappers
  import opened Uint
  import opened FeeSpace
  import opened BatchScan
  import opened Worker

  /** Where a worker is. */
  datatype Pc =
    | LoopHead(b: nat)                              // line 78: load the flag, then generate batch b
    | Checking(b: nat, k: nat)                      // line 150: load the flag before candidate k of batch b
    | Claiming(b: nat, k: nat, c: Candidate, s: Signed) // line 157: candidate k of batch b signed as s and matched; swap the flag
    | Finished(result: Option<Outcome>)             // the task has returned; Some: it sent its result
    | Panicked(line: nat)                           // the task panicked on an overflow at this line (83 or 158)

  /** A worker: its first base fee and where it is. */
  datatype Proc = Proc(start: U256, pc: Pc)

  /** What every worker shares: signer, prefix, gas limit, priority fee, and a bound on batches. */
  datatype Config = Config(sign: Signer, prefix: string, gasLimit: U256, priorityFee: U256, budget: nat)

  /** Batch b of a worker starting at `start`. */
  function BatchAt(cfg: Config, start: U256, b: nat): seq<Candidate> {
    Batch(CursorAfter(start, b), cfg.priorityFee)
  }

  /** Candidate k of batch b of a worker. */
  function CandidateOf(cfg: Config, p: Proc, b: nat, k: nat): Candidate
    requires k < BATCH_SIZE
  {
    BatchAt(cfg, p.start, b)[k]
  }

  /** The task has ended, normally or by a panic. */
  predicate Done(p: Proc) {
    p.pc.Finished? || p.pc.Panicked?
  }

  /**
   * One atomic step of a worker, given the flag: the worker afterwards and the
   * flag afterwards. A step never moves a worker to another start, never
   * clears the flag, sets it only by a claiming worker's swap, and leaves an
   * ended task as it is.
   */
  function Step(cfg: Config, p: Proc, found: bool): (r: (Proc, bool))
    ensures r.0.start == p.start
    ensures found ==> r.1
    ensures r.1 && !found ==> p.pc.Claiming?
    ensures Done(p) ==> r == (p, found)
  {
    match p.pc
    case LoopHead(b) =>
      if found || b >= cfg.budget then (p.(pc := Finished(None)), found)
      else if !BatchFits(CursorAfter(p.start, b), cfg.priorityFee) then (p.(pc := Panicked(83)), found)
      else (p.(pc := Checking(b, 0)), found)
    case Checking(b, k) =>
      if k >= BATCH_SIZE || found then (p.(pc := LoopHead(b + 1)), found)
      else
        var c := CandidateOf(cfg, p, b, k);
        if IsMatch(cfg.sign, cfg.prefix, c) then (p.(pc := Claiming(b, k, c, cfg.sign(c).value)), found)
        else (p.(pc := Checking(b, k + 1)), found)
    case Claiming(b, k, c, s) =>
      if found then (p.(pc := LoopHead(b + 1)), true)
      else if cfg.gasLimit * c.maxFeePerGas > MAX_U256 then (p.(pc := Panicked(158)), true)
      else (p.(pc := Finished(Some(Outcome(s.raw, s.hash, cfg.gasLimit * c.maxFeePerGas)))), true)
    case Finished(_) => (p, found)
    case Panicked(_) => (p, found)
  }

  /** The worker returned a result. */
  predicate Won(p: Proc) {
    p.pc.Finished? && p.pc.result.Some?
  }

  /** The worker's swap set the flag: it returned a result, or it panicked computing the fee right after. */
  predicate Claimed(p: Proc) {
    Won(p) || p.pc == Panicked(158)
  }

  /** How many workers satisfy f. */
  function Count(procs: seq<Proc>, f: Proc -> bool): nat {
    if procs == [] then 0 else (if f(procs[0]) then 1 else 0) + Count(procs[1..], f)
  }

  /** The number of workers that returned a result. */
  function Winners(procs: seq<Proc>): nat {
    Count(procs, Won)
  }

  lemma {:induction false} CountUpdate(procs: seq<Proc>, f: Proc -> bool, t: nat, p: Proc)
    requires t < |procs|
    ensures Count(procs[t := p], f) + (if f(procs[t]) then 1 else 0) == Count(procs, f) + (if f(p) then 1 else 0)
  {
    if t == 0 {
      assert procs[t := p][1..] == procs[1..];
    } else {
      assert procs[t := p][1..] == procs[1..][t - 1 := p];
      CountUpdate(procs[1..], f, t - 1, p);
    }
  }

  /** Counting a property that every worker satisfying f also satisfies gives at least as many. */
  lemma {:induction false} CountMono(procs: seq<Proc>, f: Proc -> bool, g: Proc -> bool)
    requires forall t :: 0 <= t < |procs| && f(procs[t]) ==> g(procs[t])
    ensures Count(procs, f) <= Count(procs, g)
    ensures (forall t :: 0 <= t < |procs| && g(procs[t]) ==> f(procs[t])) ==> Count(procs, f) == Count(procs, g)
  {
    if procs != [] {
      assert forall t :: 0 <= t < |procs| - 1 ==> procs[1..][t] == procs[t + 1];
      CountMono(procs[1..], f, g);
    }
  }

  /**
   * Where a worker can be: scanning batch b within the budget, with no match
   * before its position; or claiming the first match of batch b, signed.
   */
  predicate Placed(cfg: Config, p: Proc) {
    match p.pc
    case Checking(b, k) =>
      var fm := FirstMatch(BatchAt(cfg, p.start, b), cfg.sign, cfg.prefix);
      b < cfg.budget && k <= BATCH_SIZE && (fm.None? || k <= fm.value)
    case Claiming(b, k, c, s) =>
      b < cfg.budget && k < BATCH_SIZE &&
      FirstMatch(BatchAt(cfg, p.start, b), cfg.sign, cfg.prefix) == Some(k) &&
      c == BatchAt(cfg, p.start, b)[k] && cfg.sign(c) == Some(s)
    case _ => true
  }

  /**
   * The overflow conditions of a worker's batches within the budget: every
   * maximum fee is a U256 (line 83) and so is the fee of each batch's first
   * match (line 158). Worker.Work requires the same.
   */
  predicate Fits(cfg: Config, start: U256) {
    forall b :: 0 <= b < cfg.budget ==>
      BatchFits(CursorAfter(start, b), cfg.priorityFee) &&
      ClaimFits(BatchAt(cfg, start, b), cfg.sign, cfg.prefix, cfg.gasLimit)
  }

  /**
   * The system invariant: the flag is set exactly when one worker has claimed
   * it; every worker is placed; and a worker whose batches fit never panics.
   */
  predicate Inv(cfg: Config, procs: seq<Proc>, found: bool) {
    Count(procs, Claimed) == (if found then 1 else 0) &&
    (forall t :: 0 <= t < |procs| ==> Placed(cfg, procs[t])) &&
    (forall t :: 0 <= t < |procs| && Fits(cfg, procs[t].start) ==> !procs[t].pc.Panicked?)
  }

  /** Run a schedule: each entry names the worker that takes the next step (out-of-range names do nothing). */
  function Run(cfg: Config, procs: seq<Proc>, found: bool, schedule: seq<nat>): (r: (seq<Proc>, bool))
    ensures |r.0| == |procs|
    ensures forall t :: 0 <= t < |procs| ==> r.0[t].start == procs[t].start
    decreases |schedule|
  {
    if schedule == [] then (procs, found)
    else
      var t := schedule[0];
      if t < |procs| then
        var (p, f) := Step(cfg, procs[t], found);
        Run(cfg, procs[t := p], f, schedule[1..])
      else Run(cfg, procs, found, schedule[1..])
  }

  /**
   * What one step of a placed worker that has not claimed does: it claims
   * exactly when it is a claiming worker's swap that saw the flag clear; the
   * claim is a win unless the fee overflows, and a win carries that
   * candidate's claim; it panics at line 83 exactly when the batch it is
   * about to generate overflows; and it stays placed. A worker whose batches
   * fit never panics.
   */
  lemma StepWinsOnlyFromClearFlag(cfg: Config, p: Proc, found: bool)
    requires Placed(cfg, p) && !Claimed(p)
    ensures Placed(cfg, Step(cfg, p, found).0)
    ensures Claimed(Step(cfg, p, found).0) <==> p.pc.Claiming? && !found
    ensures Won(Step(cfg, p, found).0) <==>
      p.pc.Claiming? && !found && cfg.gasLimit * p.pc.c.maxFeePerGas <= MAX_U256
    ensures Won(Step(cfg, p, found).0) ==>
      p.pc.Claiming? && Step(cfg, p, found).0.pc.result.value == ClaimOf(cfg.sign, cfg.gasLimit, p.pc.c)
    ensures Step(cfg, p, found).0.pc == Panicked(83) <==>
      p.pc == Panicked(83) ||
      (p.pc.LoopHead? && !found && p.pc.b < cfg.budget && !BatchFits(CursorAfter(p.start, p.pc.b), cfg.priorityFee))
    ensures Fits(cfg, p.start) && !p.pc.Panicked? ==> !Step(cfg, p, found).0.pc.Panicked?
  {
    StepKeepsPlaced(cfg, p, found);
    StepClaims(cfg, p, found);
    StepPanics(cfg, p, found);
  }

  lemma StepKeepsPlaced(cfg: Config, p: Proc, found: bool)
    requires Placed(cfg, p)
    ensures Placed(cfg, Step(cfg, p, found).0)
  {
    if p.pc.Checking? {
      var b, k := p.pc.b, p.pc.k;
      var batch := BatchAt(cfg, p.start, b);
      if k < BATCH_SIZE && !found && IsMatch(cfg.sign, cfg.prefix, batch[k]) {
        assert FirstMatch(batch, cfg.sign, cfg.prefix) == Some(k);
      }
    }
  }

  lemma StepClaims(cfg: Config, p: Proc, found: bool)
    requires Placed(cfg, p) && !Claimed(p)
    ensures Claimed(Step(cfg, p, found).0) <==> p.pc.Claiming? && !found
    ensures Won(Step(cfg, p, found).0) <==>
      p.pc.Claiming? && !found && cfg.gasLimit * p.pc.c.maxFeePerGas <= MAX_U256
    ensures Won(Step(cfg, p, found).0) ==>
      p.pc.Claiming? && Step(cfg, p, found).0.pc.result.value == ClaimOf(cfg.sign, cfg.gasLimit, p.pc.c)
  {
  }

  lemma StepPanics(cfg: Config, p: Proc, found: bool)
    requires Placed(cfg, p)
    ensures Step(cfg, p, found).0.pc == Panicked(83) <==>
      p.pc == Panicked(83) ||
      (p.pc.LoopHead? && !found && p.pc.b < cfg.budget && !BatchFits(CursorAfter(p.start, p.pc.b), cfg.priorityFee))
    ensures Fits(cfg, p.start) && !p.pc.Panicked? ==> !Step(cfg, p, found).0.pc.Panicked?
  {
    if p.pc.Claiming? && Fits(cfg, p.start) {
      assert ClaimFits(BatchAt(cfg, p.start, p.pc.b), cfg.sign, cfg.prefix, cfg.gasLimit);
    }
  }

  /** One step of any worker keeps the invariant. */
  lemma StepKeepsInv(cfg: Config, procs: seq<Proc>, found: bool, t: nat)
    requires Inv(cfg, procs, found) && t < |procs|
    ensures Inv(cfg, procs[t := Step(cfg, procs[t], found).0], Step(cfg, procs[t], found).1)
  {
    var (p, f) := Step(cfg, procs[t], found);
    CountUpdate(procs, Claimed, t, p);
    if !Claimed(procs[t]) {
      StepWinsOnlyFromClearFlag(cfg, procs[t], found);
    }
    var procs' := procs[t := p];
    forall u | 0 <= u < |procs'|
      ensures Placed(cfg, procs'[u])
      ensures Fits(cfg, procs'[u].start) ==> !procs'[u].pc.Panicked?
    {
      if u != t {
        assert procs'[u] == procs[u];
      }
    }
  }

  /** Every schedule keeps the invariant, and a set flag stays set. */
  lemma {:induction false} RunKeepsInv(cfg: Config, procs: seq<Proc>, found: bool, schedule: seq<nat>)
    requires Inv(cfg, procs, found)
    ensures Inv(cfg, Run(cfg, procs, found, schedule).0, Run(cfg, procs, found, schedule).1)
    ensures found ==> Run(cfg, procs, found, schedule).1
    decreases |schedule|
  {
    if schedule != [] {
      var t := schedule[0];
      if t < |procs| {
        var (p, f) := Step(cfg, procs[t], found);
        StepKeepsInv(cfg, procs, found, t);
        RunKeepsInv(cfg, procs[t := p], f, schedule[1..]);
      } else {
        RunKeepsInv(cfg, procs, found, schedule[1..]);
      }
    }
  }

  /**
   * The workers as spawned: worker i at its own start, before its first batch
   * (src/main.rs:62-76). Line 75 panics when the last worker's start overflows.
   */
  function Spawn(baseFeeStart: U256, n: nat): (procs: seq<Proc>)
    requires n == 0 || WorkerStart(baseFeeStart, n - 1) <= MAX_U256
    ensures |procs| == n
    ensures forall i :: 0 <= i < n ==> procs[i].start == WorkerStart(baseFeeStart, i) && procs[i].pc == LoopHead(0)
  {
    seq(n, i requires 0 <= i < n => Proc(WorkerStart(baseFeeStart, i), LoopHead(0)))
  }

  lemma {:induction false} NoClaimsAtSpawn(procs: seq<Proc>)
    requires forall i :: 0 <= i < |procs| ==> procs[i].pc == LoopHead(0)
    ensures Count(procs, Claimed) == 0
  {
    if procs != [] {
      NoClaimsAtSpawn(procs[1..]);
    }
  }

  /**
   * At most one winner under any interleaving: after any schedule of the
   * spawned workers, at most one has returned a result and it set the flag;
   * the flag is set exactly when one worker's swap succeeded, which is a win
   * unless that worker then panicked on the fee; and when every worker's
   * batches fit, the flag is set exactly when one worker has won.
   */
  lemma AtMostOneWorkerWins(cfg: Config, baseFeeStart: U256, n: nat, schedule: seq<nat>)
    requires n == 0 || WorkerStart(baseFeeStart, n - 1) <= MAX_U256
    ensures var (procs, found) := Run(cfg, Spawn(baseFeeStart, n), false, schedule);
      Winners(procs) <= 1 &&
      (Winners(procs) == 1 ==> found) &&
      (found <==> Count(procs, Claimed) == 1)
    ensures var (procs, found) := Run(cfg, Spawn(baseFeeStart, n), false, schedule);
      (forall i :: 0 <= i < n ==> Fits(cfg, WorkerStart(baseFeeStart, i))) ==> (found <==> Winners(procs) == 1)
  {
    var spawned := Spawn(baseFeeStart, n);
    NoClaimsAtSpawn(spawned);
    RunKeepsInv(cfg, spawned, false, schedule);
    var (procs, found) := Run(cfg, spawned, false, schedule);
    CountMono(procs, Won, Claimed);
    if forall i :: 0 <= i < n ==> Fits(cfg, WorkerStart(baseFeeStart, i)) {
      forall t | 0 <= t < |procs| && Claimed(procs[t])
        ensures Won(procs[t])
      {
        assert procs[t].start == spawned[t].start;
      }
    }
  }

  lemma MulBelow(a: nat, b: nat, x: nat, y: nat)
    requires a < x && b < y
    ensures a * b < x * y
  {
    assert a * b <= a * y;
    assert a * y < x * y;
  }

  /**
   * With the configured fees (src/main.rs:44-45) and a gas limit read as a
   * `u64` (line 33), the batches of every worker fit for the first
   * BATCHES_PER_SPACING batches: no worker of such a search can panic.
   */
  lemma ConfiguredWorkersCannotPanic(cfg: Config, cpus: nat, i: nat)
    requires i < ThreadCount(cpus)
    requires cfg.priorityFee == PRIORITY_FEE && cfg.gasLimit < U64_LIMIT && cfg.budget <= BATCHES_PER_SPACING
    ensures WorkerStart(BASE_FEE_START, i) <= MAX_U256
    ensures Fits(cfg, WorkerStart(BASE_FEE_START, i))
  {
    var start := WorkerStart(BASE_FEE_START, i);
    assert start < 1_000_000_000;
    forall b | 0 <= b < cfg.budget
      ensures BatchFits(CursorAfter(start, b), cfg.priorityFee)
      ensures ClaimFits(BatchAt(cfg, start, b), cfg.sign, cfg.prefix, cfg.gasLimit)
    {
      ConfiguredWorkersFit(cpus, i, b);
      var batch := BatchAt(cfg, start, b);
      var fm := FirstMatch(batch, cfg.sign, cfg.prefix);
      if fm.Some? {
        var k := fm.value;
        BatchInStream(start, PRIORITY_FEE, b, k);
        assert batch[k].maxFeePerGas < 0x1_0000_0000;
        MulBelow(cfg.gasLimit, batch[k].maxFeePerGas, U64_LIMIT, 0x1_0000_0000);
      }
    }
  }

  /**
   * Prompt cancellation: once the flag is set, a worker whose task has not
   * ended finishes, without a result, within two of its own steps.
   */
  lemma CancelledWithinTwoSteps(cfg: Config, p: Proc)
    requires !Done(p)
    ensures Step(cfg, Step(cfg, p, true).0, true).0.pc == Finished(None)
  {
  }

  /** n steps of one worker with no other worker running. */
  function Iterate(cfg: Config, p: Proc, found: bool, n: nat): (Proc, bool)
    decreases n
  {
    if n == 0 then (p, found)
    else
      var (p', f') := Step(cfg, p, found);
      Iterate(cfg, p', f', n - 1)
  }

  lemma {:induction false} IterateFinished(cfg: Config, p: Proc, found: bool, n: nat)
    requires p.pc.Finished?
    ensures Iterate(cfg, p, found, n) == (p, found)
  {
    if n > 0 {
      IterateFinished(cfg, p, found, n - 1);
    }
  }

  lemma {:induction false} IterateAdd(cfg: Config, p: Proc, found: bool, n: nat, m: nat)
    ensures Iterate(cfg, p, found, n + m) == Iterate(cfg, Iterate(cfg, p, found, n).0, Iterate(cfg, p, found, n).1, m)
    decreases n
  {
    if n > 0 {
      var (p', f') := Step(cfg, p, found);
      IterateAdd(cfg, p', f', n - 1, m);
    }
  }

  /**
   * Where a lone worker scanning batch b from candidate k on gets to: with a
   * match m candidates further it has won after m + 2 steps; without one it
   * is back at the loop head after the rest of the batch and one more step.
   */
  predicate ScanOutcome(cfg: Config, start: U256, b: nat, k: nat)
    requires k <= BATCH_SIZE
  {
    var batch := BatchAt(cfg, start, b);
    match FirstMatch(batch[k..], cfg.sign, cfg.prefix)
    case Some(m) =>
      Iterate(cfg, Proc(start, Checking(b, k)), false, m + 2) ==
        (Proc(start, Finished(Some(ClaimOf(cfg.sign, cfg.gasLimit, batch[k + m])))), true)
    case None =>
      Iterate(cfg, Proc(start, Checking(b, k)), false, BATCH_SIZE - k + 1) == (Proc(start, LoopHead(b + 1)), false)
  }

  /** A lone worker scanning batch b from candidate k on, when the fee of the first match from k on fits, gets to ScanOutcome. */
  lemma {:induction false} ScanSteps(cfg: Config, start: U256, b: nat, k: nat)
    requires k <= BATCH_SIZE
    requires ClaimFits(BatchAt(cfg, start, b)[k..], cfg.sign, cfg.prefix, cfg.gasLimit)
    ensures ScanOutcome(cfg, start, b, k)
    decreases BATCH_SIZE - k
  {
    var batch := BatchAt(cfg, start, b);
    if k == BATCH_SIZE {
      ScanEnd(cfg, start, b, k);
    } else if IsMatch(cfg.sign, cfg.prefix, batch[k]) {
      ScanHit(cfg, start, b, k);
    } else {
      FirstMatchSkip(batch, cfg.sign, cfg.prefix, cfg.gasLimit, k);
      ScanSteps(cfg, start, b, k + 1);
      ScanSkip(cfg, start, b, k);
    }
  }

  /** At the end of the batch the worker goes back to its loop head. */
  lemma ScanEnd(cfg: Config, start: U256, b: nat, k: nat)
    requires k == BATCH_SIZE
    ensures ScanOutcome(cfg, start, b, k)
  {
    assert BatchAt(cfg, start, b)[k..] == [];
  }

  /** At a matching candidate whose fee fits the worker wins two steps later. */
  lemma ScanHit(cfg: Config, start: U256, b: nat, k: nat)
    requires k < BATCH_SIZE && IsMatch(cfg.sign, cfg.prefix, BatchAt(cfg, start, b)[k])
    requires ClaimFits(BatchAt(cfg, start, b)[k..], cfg.sign, cfg.prefix, cfg.gasLimit)
    ensures ScanOutcome(cfg, start, b, k)
  {
    var batch := BatchAt(cfg, start, b);
    assert batch[k..][0] == batch[k];
    ClaimSteps(cfg, Proc(start, Checking(b, k)), b, k, batch[k]);
  }

  /** Past a candidate that does not match the worker gets where it gets from the next one, one step later. */
  lemma ScanSkip(cfg: Config, start: U256, b: nat, k: nat)
    requires k < BATCH_SIZE && !IsMatch(cfg.sign, cfg.prefix, BatchAt(cfg, start, b)[k])
    requires ScanOutcome(cfg, start, b, k + 1)
    ensures ScanOutcome(cfg, start, b, k)
  {
    var batch := BatchAt(cfg, start, b);
    var p := Proc(start, Checking(b, k));
    FirstMatchSkip(batch, cfg.sign, cfg.prefix, cfg.gasLimit, k);
    var fm := FirstMatch(batch[k + 1..], cfg.sign, cfg.prefix);
    if fm.Some? {
      assert k + 1 + fm.value == k + (fm.value + 1);
      SkipStep(cfg, p, b, k, fm.value + 3);
    } else {
      SkipStep(cfg, p, b, k, BATCH_SIZE - k + 1);
    }
  }

  /** A worker at a candidate that does not match moves on to the next one in one step. */
  lemma SkipStep(cfg: Config, p: Proc, b: nat, k: nat, n: nat)
    requires p.pc == Checking(b, k) && k < BATCH_SIZE && !IsMatch(cfg.sign, cfg.prefix, CandidateOf(cfg, p, b, k))
    requires n > 0
    ensures Iterate(cfg, p, false, n) == Iterate(cfg, Proc(p.start, Checking(b, k + 1)), false, n - 1)
  {
    assert Step(cfg, p, false) == (Proc(p.start, Checking(b, k + 1)), false);
  }

  /** A lone worker at a matching candidate whose fee fits has won two steps later. */
  lemma ClaimSteps(cfg: Config, p: Proc, b: nat, k: nat, c: Candidate)
    requires p.pc == Checking(b, k) && k < BATCH_SIZE && c == CandidateOf(cfg, p, b, k)
    requires IsMatch(cfg.sign, cfg.prefix, c) && cfg.gasLimit * c.maxFeePerGas <= MAX_U256
    ensures Iterate(cfg, p, false, 2) == (Proc(p.start, Finished(Some(ClaimOf(cfg.sign, cfg.gasLimit, c)))), true)
  {
    var claiming := Proc(p.start, Claiming(b, k, c, cfg.sign(c).value));
    var done := Proc(p.start, Finished(Some(ClaimOf(cfg.sign, cfg.gasLimit, c))));
    assert Step(cfg, p, false) == (claiming, false);
    assert Step(cfg, claiming, false) == (done, true);
    assert Iterate(cfg, claiming, false, 1) == (done, true);
  }

  /** Once a lone worker has finished, further steps change nothing. */
  lemma IterateThenFinished(cfg: Config, p: Proc, found: bool, n: nat, m: nat, q: Proc, g: bool)
    requires Iterate(cfg, p, found, n) == (q, g) && q.pc.Finished?
    ensures Iterate(cfg, p, found, n + m) == (q, g)
  {
    IterateAdd(cfg, p, found, n, m);
    IterateFinished(cfg, q, g, m);
  }

  /** How many steps a lone worker takes for n rounds of its loop: per batch a loop head, the scan and its end. */
  function Rounds(n: nat): nat
  {
    n * (BATCH_SIZE + 2) + 1
  }

  /** Where a lone worker's loop ends from batch b on, as RunBatches computes it. */
  function LoopOutcome(cfg: Config, start: U256, b: nat): (Proc, bool)
    requires b <= cfg.budget
  {
    var (r, f) := RunBatches(CursorAfter(start, b), cfg.priorityFee, cfg.budget - b, cfg.sign, cfg.prefix, cfg.gasLimit, false);
    (Proc(start, Finished(r)), f)
  }

  /** A lone worker whose batches fit, from the head of its loop before batch b, runs the rest of its loop as RunBatches does. */
  lemma {:induction false} LoopSteps(cfg: Config, start: U256, b: nat)
    requires b <= cfg.budget && Fits(cfg, start)
    ensures Iterate(cfg, Proc(start, LoopHead(b)), false, Rounds(cfg.budget - b)) == LoopOutcome(cfg, start, b)
    decreases cfg.budget - b, 2
  {
    var n := cfg.budget - b;
    if n > 0 {
      var cursor := CursorAfter(start, b);
      var p1 := Proc(start, Checking(b, 0));
      assert BatchFits(cursor, cfg.priorityFee);
      assert Step(cfg, Proc(start, LoopHead(b)), false) == (p1, false);
      assert Rounds(n) == 1 + (BATCH_SIZE + 1 + Rounds(cfg.budget - (b + 1)));
      RunBatchesStep(cursor, cfg.priorityFee, n, cfg.sign, cfg.prefix, cfg.gasLimit);
      SatAddCompose(start, b * BATCH_SIZE, BATCH_SIZE);
      BatchSteps(cfg, start, b);
    }
  }

  /** The rounds of LoopSteps: batch b, then, without a match, the rest of the loop. */
  lemma {:induction false} BatchSteps(cfg: Config, start: U256, b: nat)
    requires b < cfg.budget && Fits(cfg, start)
    ensures var batch := BatchAt(cfg, start, b);
      Iterate(cfg, Proc(start, Checking(b, 0)), false, BATCH_SIZE + 1 + Rounds(cfg.budget - (b + 1))) ==
        match FirstMatch(batch, cfg.sign, cfg.prefix)
        case Some(k) => (Proc(start, Finished(Some(ClaimOf(cfg.sign, cfg.gasLimit, batch[k])))), true)
        case None => LoopOutcome(cfg, start, b + 1)
    decreases cfg.budget - b, 1
  {
    var batch := BatchAt(cfg, start, b);
    assert batch[0..] == batch;
    assert ClaimFits(batch, cfg.sign, cfg.prefix, cfg.gasLimit);
    ScanSteps(cfg, start, b, 0);
    var fm := FirstMatch(batch, cfg.sign, cfg.prefix);
    if fm.Some? {
      WinningBatchSteps(cfg, start, b, fm.value, BATCH_SIZE + 1 + Rounds(cfg.budget - (b + 1)) - (fm.value + 2));
    } else {
      PassingBatchSteps(cfg, start, b, Proc(start, Checking(b, 0)), BATCH_SIZE + 1);
    }
  }

  /** A lone worker whose batch b has no match, back at its loop head after n steps, goes on with the rest of its loop. */
  lemma {:induction false} PassingBatchSteps(cfg: Config, start: U256, b: nat, p: Proc, n: nat)
    requires b < cfg.budget && Fits(cfg, start)
    requires Iterate(cfg, p, false, n) == (Proc(start, LoopHead(b + 1)), false)
    ensures Iterate(cfg, p, false, n + Rounds(cfg.budget - (b + 1))) == LoopOutcome(cfg, start, b + 1)
    decreases cfg.budget - b, 0
  {
    LoopSteps(cfg, start, b + 1);
    IterateThen(cfg, p, n, Rounds(cfg.budget - (b + 1)), n + Rounds(cfg.budget - (b + 1)),
      Proc(start, LoopHead(b + 1)), LoopOutcome(cfg, start, b + 1));
  }

  /** A lone worker that reaches q in n steps with the flag clear ends where q ends after m more. */
  lemma IterateThen(cfg: Config, p: Proc, n: nat, m: nat, total: nat, q: Proc, r: (Proc, bool))
    requires total == n + m
    requires Iterate(cfg, p, false, n) == (q, false)
    requires Iterate(cfg, q, false, m) == r
    ensures Iterate(cfg, p, false, total) == r
  {
    IterateAdd(cfg, p, false, n, m);
  }

  /** A lone worker whose batch matches first at position m has won, whatever further steps it takes. */
  lemma WinningBatchSteps(cfg: Config, start: U256, b: nat, m: nat, extra: nat)
    requires m < BATCH_SIZE && cfg.sign(BatchAt(cfg, start, b)[m]).Some?
    requires Iterate(cfg, Proc(start, Checking(b, 0)), false, m + 2) ==
      (Proc(start, Finished(Some(ClaimOf(cfg.sign, cfg.gasLimit, BatchAt(cfg, start, b)[m])))), true)
    ensures Iterate(cfg, Proc(start, Checking(b, 0)), false, m + 2 + extra) ==
      (Proc(start, Finished(Some(ClaimOf(cfg.sign, cfg.gasLimit, BatchAt(cfg, start, b)[m])))), true)
  {
    var done := Proc(start, Finished(Some(ClaimOf(cfg.sign, cfg.gasLimit, BatchAt(cfg, start, b)[m]))));
    IterateThenFinished(cfg, Proc(start, Checking(b, 0)), false, m + 2, extra, done, true);
  }

  /**
   * The interleaving model agrees with the sequential one: a worker whose
   * batches fit and that runs alone for enough steps finishes with the result
   * and flag of RunBatches, the specification of Worker.Work.
   */
  lemma SoloWorkerMatchesSequential(cfg: Config, start: U256, found: bool)
    requires Fits(cfg, start)
    ensures var (r, f) := RunBatches(start, cfg.priorityFee, cfg.budget, cfg.sign, cfg.prefix, cfg.gasLimit, found);
      Iterate(cfg, Proc(start, LoopHead(0)), found, cfg.budget * (BATCH_SIZE + 2) + 1) == (Proc(start, Finished(r)), f)
  {
    if found {
      IterateFinished(cfg, Proc(start, Finished(None)), true, cfg.budget * (BATCH_SIZE + 2));
    } else {
      LoopSteps(cfg, start, 0);
    }
  }
}
