/**
 * `process_batch` (src/main.rs:142-166): walk a batch in order, stop as soon
 * as the shared `found` flag is set, sign each candidate, skip the ones whose
 * signing fails, render the hash and test it against the prefix, and on a
 * match claim the win with an atomic swap of the flag. The flag is a class
 * with one field; the signer is a deterministic, possibly failing function of
 * the candidate (the transaction template and the wallet are fixed inside it).
 */
module BatchScan {
  import opened Wrappers
  import opened Uint
  import opened Hex
  import opened FeeSpace

  /** A signed transaction: its wire bytes and its 32-byte hash. */
  datatype Signed = Signed(raw: seq<Byte>, hash: Hash32)

  /** `encode_and_sign_eip1559` on the template with the candidate's fees. */
  type Signer = Candidate -> Option<Signed>

  /** What the claiming worker returns: signed bytes, hash and `gas_limit * max_fee_per_gas`. */
  datatype Outcome = Outcome(raw: seq<Byte>, hash: Hash32, totalFee: nat)

  /** The candidate signs and its rendered hash starts with the prefix (src/main.rs:154-156). */
  predicate IsMatch(sign: Signer, prefix: string, c: Candidate)
    ensures IsMatch(sign, prefix, c) ==> sign(c).Some? && |prefix| <= 66
  {
    sign(c).Some? && StartsWith(RenderHash(sign(c).value.hash), prefix)
  }

  /** The result the claimer builds for a matching candidate (src/main.rs:158-159). */
  function ClaimOf(sign: Signer, gasLimit: nat, c: Candidate): (o: Outcome)
    requires sign(c).Some?
    ensures sign(c) == Some(Signed(o.raw, o.hash))
    ensures o.totalFee == gasLimit * c.maxFeePerGas
  {
    Outcome(sign(c).value.raw, sign(c).value.hash, gasLimit * c.maxFeePerGas)
  }

  /** The position of the first matching candidate of the batch, if any. */
  function FirstMatch(batch: seq<Candidate>, sign: Signer, prefix: string): (r: Option<nat>)
    ensures r.Some? ==> r.value < |batch| && IsMatch(sign, prefix, batch[r.value])
    ensures r.Some? ==> forall j :: 0 <= j < r.value ==> !IsMatch(sign, prefix, batch[j])
    ensures r.None? ==> forall j :: 0 <= j < |batch| ==> !IsMatch(sign, prefix, batch[j])
  {
    if batch == [] then None
    else if IsMatch(sign, prefix, batch[0]) then Some(0)
    else
      match FirstMatch(batch[1..], sign, prefix)
      case None => None
      case Some(k) => Some(k + 1)
  }

  /** Past a candidate that does not match, the first match is the next one's, one position further. */
  lemma FirstMatchSkip(batch: seq<Candidate>, sign: Signer, prefix: string, gasLimit: nat, k: nat)
    requires k < |batch| && !IsMatch(sign, prefix, batch[k])
    ensures FirstMatch(batch[k..], sign, prefix) ==
      match FirstMatch(batch[k + 1..], sign, prefix)
      case None => None
      case Some(m) => Some(m + 1)
    ensures ClaimFits(batch[k..], sign, prefix, gasLimit) ==> ClaimFits(batch[k + 1..], sign, prefix, gasLimit)
  {
    assert batch[k..][0] == batch[k] && batch[k..][1..] == batch[k + 1..];
    var fm := FirstMatch(batch[k + 1..], sign, prefix);
    if fm.Some? {
      assert batch[k..][fm.value + 1] == batch[k + 1..][fm.value];
    }
  }

  /**
   * The result of one `process_batch` call and the flag afterwards, given the
   * flag at entry, when no other worker touches the flag during the call.
   */
  function ScanBatch(batch: seq<Candidate>, sign: Signer, prefix: string, gasLimit: nat, found: bool): (r: (Option<Outcome>, bool))
    ensures found ==> r == (None, true)
    ensures r.0.Some? ==> !found
    ensures r.1 <==> found || r.0.Some?
  {
    if found then (None, true)
    else
      match FirstMatch(batch, sign, prefix)
      case None => (None, false)
      case Some(k) => (Some(ClaimOf(sign, gasLimit, batch[k])), true)
  }

  /** How many candidates the call hands to the signer: none if the flag is set, else up to and including the first match. */
  function SignedCount(batch: seq<Candidate>, sign: Signer, prefix: string, found: bool): (n: nat)
    ensures n <= |batch|
  {
    if found then 0
    else
      match FirstMatch(batch, sign, prefix)
      case None => |batch|
      case Some(k) => k + 1
  }

  /** The claim's `gas_limit * max_fee_per_gas` does not overflow (src/main.rs:158 panics otherwise). */
  predicate ClaimFits(batch: seq<Candidate>, sign: Signer, prefix: string, gasLimit: nat) {
    match FirstMatch(batch, sign, prefix)
    case None => true
    case Some(k) => gasLimit * batch[k].maxFeePerGas <= MAX_U256
  }

  /**
   * First-claim semantics of one call: a result is returned exactly when the
   * flag was clear and some candidate matches; it is the claim of the first
   * matching candidate in batch order; the flag is set afterwards exactly when
   * it was set before or this call won.
   */
  lemma ScanReturnsFirstMatch(batch: seq<Candidate>, sign: Signer, prefix: string, gasLimit: nat, found: bool)
    ensures ScanBatch(batch, sign, prefix, gasLimit, found).0.Some? <==>
      !found && exists k :: 0 <= k < |batch| && IsMatch(sign, prefix, batch[k])
    ensures ScanBatch(batch, sign, prefix, gasLimit, found).1 <==>
      found || ScanBatch(batch, sign, prefix, gasLimit, found).0.Some?
    ensures forall k ::
      (0 <= k < |batch| && !found && IsMatch(sign, prefix, batch[k]) &&
       (forall j :: 0 <= j < k ==> !IsMatch(sign, prefix, batch[j]))) ==>
      ScanBatch(batch, sign, prefix, gasLimit, found).0 == Some(ClaimOf(sign, gasLimit, batch[k]))
  {
    var fm := FirstMatch(batch, sign, prefix);
    forall k | 0 <= k < |batch| && !found && IsMatch(sign, prefix, batch[k]) &&
      (forall j :: 0 <= j < k ==> !IsMatch(sign, prefix, batch[j]))
      ensures ScanBatch(batch, sign, prefix, gasLimit, found).0 == Some(ClaimOf(sign, gasLimit, batch[k]))
    {
      assert fm.Some? && fm.value == k;
    }
  }

  /** With the empty prefix the first candidate that signs wins; failed signings are skipped. */
  lemma EmptyPrefixTakesFirstSigned(batch: seq<Candidate>, sign: Signer, gasLimit: nat, k: nat)
    requires k < |batch| && sign(batch[k]).Some?
    requires forall j :: 0 <= j < k ==> sign(batch[j]).None?
    ensures ScanBatch(batch, sign, "", gasLimit, false) == (Some(ClaimOf(sign, gasLimit, batch[k])), true)
  {
    EmptyPrefixMatches(sign(batch[k]).value.hash);
    ScanReturnsFirstMatch(batch, sign, "", gasLimit, false);
  }

  /** The shared `found: AtomicBool` (src/main.rs:59), one plain field in this sequential model. */
  class SearchFlag {
    var found: bool

    /** `AtomicBool::new(false)`. */
    constructor ()
      ensures !found
    {
      found := false;
    }

    /** `AtomicBool::swap`: store v and return the value it replaced. */
    method Swap(v: bool) returns (prev: bool)
      modifies this
      ensures prev == old(found) && found == v
    {
      prev := found;
      found := v;
    }
  }

  /**
   * `process_batch`. The ghost out-parameter lists the candidates handed to the
   * signer, in order.
   */
  method ProcessBatch(batch: seq<Candidate>, sign: Signer, prefix: string, gasLimit: U256, flag: SearchFlag)
    returns (r: Option<Outcome>, ghost signed: seq<Candidate>)
    requires !flag.found ==> ClaimFits(batch, sign, prefix, gasLimit)
    modifies flag
    ensures (r, flag.found) == ScanBatch(batch, sign, prefix, gasLimit, old(flag.found))
    ensures signed == batch[..SignedCount(batch, sign, prefix, old(flag.found))]
    ensures r.Some? ==> r.value.totalFee <= MAX_U256
  {
    signed := [];
    var k := 0;
    while k < |batch|
      invariant 0 <= k <= |batch|
      invariant flag.found == old(flag.found)
      invariant k > 0 ==> !flag.found
      invariant forall j :: 0 <= j < k ==> !IsMatch(sign, prefix, batch[j])
      invariant signed == batch[..k]
    {
      if flag.found {
        return None, signed;
      }
      var tx := batch[k];
      signed := signed + [tx];
      var res := sign(tx);
      if res.Some? {
        var txHashHex := RenderHash(res.value.hash);
        if StartsWith(txHashHex, prefix) {
          var prev := flag.Swap(true);
          if !prev {
            var totalFeeWei := gasLimit * tx.maxFeePerGas;
            return Some(Outcome(res.value.raw, res.value.hash, totalFeeWei)), signed;
          }
          break;
        }
      }
      k := k + 1;
    }
    r := None;
  }

  /** One `process_batch` call: its batch, prefix, gas limit and signer. */
  datatype Call = Call(batch: seq<Candidate>, sign: Signer, prefix: string, gasLimit: nat)

  /** The results of a sequence of calls sharing one flag, and the flag at the end. */
  function RunCalls(calls: seq<Call>, found: bool): (r: (seq<Option<Outcome>>, bool))
    ensures |r.0| == |calls|
  {
    if calls == [] then ([], found)
    else
      var c := calls[0];
      var (o, f) := ScanBatch(c.batch, c.sign, c.prefix, c.gasLimit, found);
      var (rest, last) := RunCalls(calls[1..], f);
      ([o] + rest, last)
  }

  /** The number of calls that returned a result. */
  function Wins(results: seq<Option<Outcome>>): nat {
    if results == [] then 0 else (if results[0].Some? then 1 else 0) + Wins(results[1..])
  }

  /**
   * At most one winner: across any sequence of calls sharing one flag at most
   * one returns a result, none if the flag was set at the start, and the flag
   * ends set exactly when it started set or one call won.
   */
  lemma {:induction false} AtMostOneWinner(calls: seq<Call>, found: bool)
    ensures Wins(RunCalls(calls, found).0) <= (if found then 0 else 1)
    ensures RunCalls(calls, found).1 <==> found || Wins(RunCalls(calls, found).0) == 1
  {
    if calls != [] {
      var c := calls[0];
      var (o, f) := ScanBatch(c.batch, c.sign, c.prefix, c.gasLimit, found);
      AtMostOneWinner(calls[1..], f);
      var results := RunCalls(calls, found).0;
      assert results[1..] == RunCalls(calls[1..], f).0;
    }
  }
}
