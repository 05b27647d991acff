/** What a batch run records and reports, and what its verdict means. */
module BatchResults {
  import opened BatchPlan
  import opened Saturation

  // ---------------------------------------------------------------- records and results

  datatype ItemResult = ItemResult(id: string, requestSucceeded: bool, verificationComplete: bool, reductionBytes: nat)

  datatype Execution = ExecutionFailed(error: string) | Executed(result: ItemResult)

  datatype ItemOutcome = ItemOutcome(
    inputIndex: nat, planFingerprint: string, approvalId: ApprovalId<string>, resultId: string,
    requestSucceeded: bool, verificationComplete: bool, reductionBytes: nat, errorCode: string)

  datatype HaltReason = ResultRecordFailed | RequestFailed | VerificationIncomplete | ItemExecutionFailed

  datatype Halt = Running | HaltedFor(reason: HaltReason)

  datatype BatchResult = BatchResult(
    fingerprint: Fingerprint, approvalId: ApprovalId<Fingerprint>, startedAtMs: nat, completedAtMs: nat,
    inputCount: nat, plannedCount: nat, unavailableCount: nat, attemptedCount: nat, succeededCount: nat,
    verifiedCount: nat, totalAllocatedBytesBefore: nat, reductionBytes: nat, executionComplete: bool,
    verificationComplete: bool, halt: Halt, outcomes: seq<ItemOutcome>)

  datatype RecordName =
    | BatchApprovalRecord(batch: ApprovalId<Fingerprint>)
    | ItemApprovalRecord(item: ApprovalId<string>)
    | ItemResultRecord(result: string)
    | CheckpointRecord(batch: ApprovalId<Fingerprint>, attempt: nat)

  datatype Record =
    | OfBatchApproval(batch: Approval<Fingerprint>)
    | OfItemApproval(item: Approval<string>)
    | OfItemResult(result: ItemResult)
    | OfCheckpoint(checkpoint: BatchResult)

  // ---------------------------------------------------------------- the summary

  function SucceededCount(outcomes: seq<ItemOutcome>): (n: nat)
    ensures n <= |outcomes| && (n == |outcomes| <==> forall o <- outcomes :: o.requestSucceeded)
  {
    if outcomes == [] then 0
    else
      var front, last := outcomes[..|outcomes| - 1], outcomes[|outcomes| - 1];
      assert outcomes == front + [last];
      SucceededCount(front) + if last.requestSucceeded then 1 else 0
  }

  function VerifiedCount(outcomes: seq<ItemOutcome>): (n: nat)
    ensures n <= |outcomes| && (n == |outcomes| <==> forall o <- outcomes :: o.verificationComplete)
  {
    if outcomes == [] then 0
    else
      var front, last := outcomes[..|outcomes| - 1], outcomes[|outcomes| - 1];
      assert outcomes == front + [last];
      VerifiedCount(front) + if last.verificationComplete then 1 else 0
  }

  function Reductions(outcomes: seq<ItemOutcome>): seq<nat> {
    seq(|outcomes|, i requires 0 <= i < |outcomes| => outcomes[i].reductionBytes)
  }

  function SaturatingTotal(values: seq<nat>): (r: nat)
    ensures r == Saturated(Sum(values))
  {
    if values == [] then 0
    else
      SaturatingAdd(SaturatingTotal(values[..|values| - 1]), values[|values| - 1])
  }

  /** The counts and the verdict recomputed from the outcomes; `completedAtMs` is the latest checkpoint's time. */
  function Refreshed(result: BatchResult, at: nat): BatchResult {
    var attempted, succeeded := |result.outcomes|, SucceededCount(result.outcomes);
    var verified := VerifiedCount(result.outcomes);
    var complete := attempted == result.plannedCount && succeeded == result.plannedCount;
    result.(completedAtMs := at, attemptedCount := attempted, succeededCount := succeeded, verifiedCount := verified,
            reductionBytes := SaturatingTotal(Reductions(result.outcomes)), executionComplete := complete,
            verificationComplete := complete && verified == result.plannedCount)
  }

  predicate Good(outcome: ItemOutcome) {
    outcome.requestSucceeded && outcome.verificationComplete
  }

  predicate AllGood(outcomes: seq<ItemOutcome>) {
    forall o <- outcomes :: Good(o)
  }

  /** The positions of the outcomes that pass a test. */
  function Where(outcomes: seq<ItemOutcome>, test: ItemOutcome -> bool): set<nat> {
    set i: nat | i < |outcomes| && test(outcomes[i])
  }

  lemma WhereOneMore(front: seq<ItemOutcome>, last: ItemOutcome, test: ItemOutcome -> bool)
    ensures |Where(front + [last], test)| == |Where(front, test)| + if test(last) then 1 else 0
  {
    var all := Where(front + [last], test);
    assert all == Where(front, test) + if test(last) then {|front|} else {};
  }

  /** The counts are those of the outcomes that succeeded, or were verified. */
  lemma {:induction false} CountsAre(outcomes: seq<ItemOutcome>)
    ensures SucceededCount(outcomes) == |Where(outcomes, (o: ItemOutcome) => o.requestSucceeded)|
    ensures VerifiedCount(outcomes) == |Where(outcomes, (o: ItemOutcome) => o.verificationComplete)|
  {
    if outcomes == [] {
      assert Where(outcomes, (o: ItemOutcome) => o.requestSucceeded) == {};
      assert Where(outcomes, (o: ItemOutcome) => o.verificationComplete) == {};
    } else {
      var front, last := outcomes[..|outcomes| - 1], outcomes[|outcomes| - 1];
      assert outcomes == front + [last];
      CountsAre(front);
      WhereOneMore(front, last, (o: ItemOutcome) => o.requestSucceeded);
      WhereOneMore(front, last, (o: ItemOutcome) => o.verificationComplete);
    }
  }

  /** Refreshing counts the outcomes and adds up what they freed, and changes nothing else but the time. */
  lemma RefreshedFields(result: BatchResult, at: nat)
    ensures var r, outcomes := Refreshed(result, at), result.outcomes;
            && r.outcomes == outcomes && r.completedAtMs == at && r.attemptedCount == |outcomes|
            && r.succeededCount == |Where(outcomes, (o: ItemOutcome) => o.requestSucceeded)|
            && r.verifiedCount == |Where(outcomes, (o: ItemOutcome) => o.verificationComplete)|
            && r.reductionBytes == Saturated(Sum(Reductions(outcomes)))
            && r.fingerprint == result.fingerprint && r.approvalId == result.approvalId && r.halt == result.halt
            && r.startedAtMs == result.startedAtMs && r.inputCount == result.inputCount
            && r.plannedCount == result.plannedCount && r.unavailableCount == result.unavailableCount
            && r.totalAllocatedBytesBefore == result.totalAllocatedBytesBefore
  {
    hide SucceededCount, VerifiedCount, SaturatingTotal, Where;
    CountsAre(result.outcomes);
  }

  /** The verdict means: every planned item was attempted, and every attempt was good. */
  lemma VerdictMeansAllGood(result: BatchResult, at: nat)
    ensures Refreshed(result, at).verificationComplete <==>
              |result.outcomes| == result.plannedCount && AllGood(result.outcomes)
    ensures Refreshed(result, at).executionComplete <==>
              |result.outcomes| == result.plannedCount && forall o <- result.outcomes :: o.requestSucceeded
  {
  }
}
