/** Running an approved batch: every item is re-planned, every approval recorded, and only then are items
    evicted one by one, each followed by a checkpoint, until the first failure. */
module BatchRun {
  import opened BatchPlan
  import opened BatchResults
  import opened BatchSession
  import opened Lists
  import opened Text

  // ---------------------------------------------------------------- before the first eviction

  function ItemApprovalFor(item: Item, approval: Approval<Fingerprint>): Result<Approval<string>> {
    ApproveItem(item.plan, approval.approvedAtMs, approval.approvedBy, approval.rationale)
  }

  function IdFor(item: Item, approval: Approval<Fingerprint>): ApprovalId<string> {
    ApprovalId(item.plan.fingerprint, approval.approvedAtMs, Trim(approval.approvedBy), Trim(approval.rationale))
  }

  function Ids(items: seq<Item>, approval: Approval<Fingerprint>): seq<ApprovalId<string>> {
    seq(|items|, i requires 0 <= i < |items| => IdFor(items[i], approval))
  }

  /** What must have happened, in this order, before any item is evicted. */
  function Replans(items: seq<Item>, first: nat): seq<Event> {
    seq(|items|, i requires 0 <= i < |items| => Unchanged(first + i, items[i].plan))
  }

  function ApprovalsRecorded(items: seq<Item>, approval: Approval<Fingerprint>): seq<Event> {
    seq(|items|, i requires 0 <= i < |items| => Recorded(ItemApprovalRecord(IdFor(items[i], approval))))
  }

  function Opening(plan: Plan, approval: Approval<Fingerprint>, first: nat): seq<Event> {
    Replans(plan.items, first) + [Recorded(BatchApprovalRecord(approval.id))] + ApprovalsRecorded(plan.items, approval)
  }

  /** Every item is confirmed by the planner, from its `first` call on. */
  predicate AllUnchanged(session: Session, items: seq<Item>, first: nat) {
    forall i :: 0 <= i < |items| ==> StillUnchanged(session.planner(first + i, items[i].plan.path), items[i].plan)
  }

  /** Re-plans every item; succeeds exactly if each is confirmed. */
  method Preflight(session: Session, root: Root, plan: Plan) returns (r: Result<Unit>)
    requires session.Valid()
    modifies session`plannings, session`events
    ensures session.Valid()
    ensures Runs(session.events) == old(Runs(session.events)) && RunIds(session.events) == old(RunIds(session.events))
    ensures r.Ok? <==> WellFormed(root, plan) && AllUnchanged(session, plan.items, old(session.plannings))
    ensures r.Ok? ==> forall i :: 0 <= i < |plan.items| ==>
                        var now := session.planner(old(session.plannings) + i, plan.items[i].plan.path);
                        && now.Planned? && now.plan.fingerprint == plan.items[i].plan.fingerprint
                        && forall o :: !StandsAgainst(o, now.plan)
    ensures r.Ok? ==> session.events == old(session.events) + Replans(plan.items, old(session.plannings))
    ensures session.events <= old(session.events) + Replans(plan.items, old(session.plannings))
  {
    hide WellFormed, Verdict, Runs, RunIds, StillUnchanged, StandsAgainst, Session.Valid;
    r := ValidateBatchPlan(root, plan);
    if r.Err? {
      return;
    }
    ghost var first := session.plannings;
    var i := 0;
    while i < |plan.items|
      invariant 0 <= i <= |plan.items| && session.Valid() && session.plannings == first + i
      invariant session.events == old(session.events) + Replans(plan.items, first)[..i]
      invariant Runs(session.events) == old(Runs(session.events))
                  && RunIds(session.events) == old(RunIds(session.events))
      invariant forall k :: 0 <= k < i ==>
                  var now := session.planner(first + k, plan.items[k].plan.path);
                  && StillUnchanged(now, plan.items[k].plan)
                  && now.Planned? && now.plan.fingerprint == plan.items[k].plan.fingerprint
                  && forall o :: !StandsAgainst(o, now.plan)
    {
      r := session.Replan(plan.items[i].plan);
      if r.Err? {
        return;
      }
      i := i + 1;
    }
    r := Ok(Unit);
  }

  /** The approval of an item can be given, is new, and writing it does not fail. */
  predicate ItemRecordable(session: Session, names: set<RecordName>, item: Item, approval: Approval<Fingerprint>,
                           writing: nat) {
    && ItemApprovalFor(item, approval).Ok?
    && ItemApprovalRecord(IdFor(item, approval)) !in names && !session.writeFails(writing)
  }

  predicate ItemsRecordable(session: Session, names: set<RecordName>, items: seq<Item>, approval: Approval<Fingerprint>,
                            first: nat) {
    forall i :: 0 <= i < |items| ==> ItemRecordable(session, names, items[i], approval, first + i)
  }

  predicate Recordable(session: Session, names: set<RecordName>, items: seq<Item>, approval: Approval<Fingerprint>,
                       first: nat) {
    && BatchApprovalRecord(approval.id) !in names && !session.writeFails(first)
    && ItemsRecordable(session, names, items, approval, first + 1)
  }

  function ApprovalNames(ids: seq<ApprovalId<string>>): set<RecordName> {
    set id <- ids :: ItemApprovalRecord(id)
  }

  /** Approves one item, and records the approval under a new name. */
  method RecordItemApproval(session: Session, item: Item, approval: Approval<Fingerprint>)
    returns (r: Result<Approval<string>>)
    requires session.Valid()
    modifies session`writings, session`records, session`events
    ensures session.Valid() && Extends(old(session.records), session.records)
    ensures Runs(session.events) == old(Runs(session.events)) && RunIds(session.events) == old(RunIds(session.events))
    ensures r.Ok? <==> ItemRecordable(session, old(session.records).Keys, item, approval, old(session.writings))
    ensures r.Err? ==> r.error == if ItemApprovalFor(item, approval).Err? then ItemApprovalFor(item, approval).error
                                  else ItemApprovalRecordFailed
    ensures session.events == old(session.events)
              + if r.Ok? then [Recorded(ItemApprovalRecord(IdFor(item, approval)))] else []
    ensures r.Ok? ==>
              && session.writings == old(session.writings) + 1
              && session.records.Keys == old(session.records).Keys + {ItemApprovalRecord(IdFor(item, approval))}
              && ItemApprovalFor(item, approval) == r && OnRecord(session.records, r.value)
  {
    hide Runs, RunIds, Session.Valid, ItemApprovalFor, IdFor, Extends;
    ApprovalNamesItem(item, approval);
    ExtendsItself(session.records);
    r := ItemApprovalFor(item, approval);
    if r.Ok? {
      var ok := session.Write(ItemApprovalRecord(r.value.id), OfItemApproval(r.value));
      if !ok {
        r := Err(ItemApprovalRecordFailed);
      }
    }
  }

  /** Records one approval for every item, each of them new. */
  method RecordItemApprovals(session: Session, items: seq<Item>, approval: Approval<Fingerprint>)
    returns (r: Result<seq<Approval<string>>>)
    requires session.Valid() && Distinct(Ids(items, approval))
    modifies session`writings, session`records, session`events
    ensures session.Valid() && Extends(old(session.records), session.records)
    ensures Runs(session.events) == old(Runs(session.events)) && RunIds(session.events) == old(RunIds(session.events))
    ensures r.Ok? <==> ItemsRecordable(session, old(session.records).Keys, items, approval, old(session.writings))
    ensures r.Err? ==> exists item <- items :: r.error ==
                         if ItemApprovalFor(item, approval).Err? then ItemApprovalFor(item, approval).error
                         else ItemApprovalRecordFailed
    ensures session.events <= old(session.events) + ApprovalsRecorded(items, approval)
    ensures r.Ok? ==> session.events == old(session.events) + ApprovalsRecorded(items, approval)
    ensures r.Ok? ==> session.writings == old(session.writings) + |items|
    ensures r.Ok? ==> session.records.Keys == old(session.records).Keys + ApprovalNames(Ids(items, approval))
    ensures r.Ok? ==> |r.value| == |items|
    ensures r.Ok? ==> forall i :: 0 <= i < |items| ==>
                        ItemApprovalFor(items[i], approval) == Ok(r.value[i]) && OnRecord(session.records, r.value[i])
  {
    hide Runs, RunIds, Session.Valid, ItemApprovalFor, IdFor, Extends, Distinct, ApprovalNames, OnRecord;
    ExtendsItself(session.records);
    ghost var first, names := session.writings, session.records.Keys;
    ghost var ids := Ids(items, approval);
    var individual: seq<Approval<string>> := [];
    NoApprovalNames();
    var i := 0;
    while i < |items|
      invariant 0 <= i <= |items| && session.Valid() && |individual| == i && session.writings == first + i
      invariant session.events == old(session.events) + ApprovalsRecorded(items, approval)[..i]
      invariant Runs(session.events) == old(Runs(session.events))
                  && RunIds(session.events) == old(RunIds(session.events))
      invariant Extends(old(session.records), session.records)
      invariant session.records.Keys == names + ApprovalNames(ids[..i])
      invariant forall k :: 0 <= k < i ==> ItemApprovalFor(items[k], approval) == Ok(individual[k])
      invariant forall k :: 0 <= k < i ==> OnRecord(session.records, individual[k])
      invariant forall k :: 0 <= k < i ==> ItemRecordable(session, names, items[k], approval, first + k)
    {
      NextApprovalName(ids, i);
      ghost var recorded := session.records;
      var item := RecordItemApproval(session, items[i], approval);
      ExtendsFurther(old(session.records), recorded, session.records);
      if item.Err? {
        return Err(item.error);
      }
      StillOnRecord(recorded, session.records, individual, item.value);
      individual := individual + [item.value];
      i := i + 1;
    }
    assert ids[..i] == ids;
    r := Ok(individual);
  }

  lemma NoApprovalNames()
    ensures ApprovalNames([]) == {}
  {
  }

  lemma NextApprovalName(ids: seq<ApprovalId<string>>, i: nat)
    requires Distinct(ids) && i < |ids|
    ensures ItemApprovalRecord(ids[i]) !in ApprovalNames(ids[..i])
    ensures ApprovalNames(ids[..i + 1]) == ApprovalNames(ids[..i]) + {ItemApprovalRecord(ids[i])}
  {
    assert ids[..i + 1] == ids[..i] + [ids[i]];
  }

  /** What is on record stays there when more is written. */
  lemma StillOnRecord(before: map<RecordName, Record>, now: map<RecordName, Record>, individual: seq<Approval<string>>,
                      approval: Approval<string>)
    requires Extends(before, now) && forall k :: 0 <= k < |individual| ==> OnRecord(before, individual[k])
    ensures forall k :: 0 <= k < |individual| ==> OnRecord(now, individual[k])
    ensures ItemApprovalRecord(approval.id) in now
              && now[ItemApprovalRecord(approval.id)] == OfItemApproval(approval) ==>
              OnRecord(now, approval)
    ensures OnRecord(before, approval) ==> OnRecord(now, approval)
  {
  }

  /** Records the batch approval and one approval for every item, each of them new. */
  method RecordApprovals(session: Session, plan: Plan, approval: Approval<Fingerprint>)
    returns (r: Result<seq<Approval<string>>>)
    requires session.Valid() && Distinct(Ids(plan.items, approval))
    modifies session`writings, session`records, session`events
    ensures session.Valid() && Extends(old(session.records), session.records)
    ensures Runs(session.events) == old(Runs(session.events)) && RunIds(session.events) == old(RunIds(session.events))
    ensures r.Ok? <==> Recordable(session, old(session.records).Keys, plan.items, approval, old(session.writings))
    ensures BatchApprovalRecord(approval.id) in old(session.records) || session.writeFails(old(session.writings)) ==>
              r == Err(ApprovalRecordFailed)
    ensures r.Ok? ==> session.events == old(session.events) + [Recorded(BatchApprovalRecord(approval.id))]
                                        + ApprovalsRecorded(plan.items, approval)
    ensures session.events <= old(session.events) + [Recorded(BatchApprovalRecord(approval.id))]
                              + ApprovalsRecorded(plan.items, approval)
    ensures BatchApprovalRecord(approval.id) in old(session.records) ==> session.records == old(session.records)
    ensures r.Ok? ==> session.writings == old(session.writings) + 1 + |plan.items|
    ensures r.Ok? ==> session.records.Keys ==
                        old(session.records).Keys + {BatchApprovalRecord(approval.id)}
                          + ApprovalNames(Ids(plan.items, approval))
    ensures r.Ok? ==> session.records[BatchApprovalRecord(approval.id)] == OfBatchApproval(approval)
    ensures r.Ok? ==> forall i :: 0 <= i < |r.value| ==>
              && ItemApprovalRecord(r.value[i].id) in session.records
              && session.records[ItemApprovalRecord(r.value[i].id)] == OfItemApproval(r.value[i])
    ensures r.Ok? ==> |r.value| == |plan.items|
    ensures r.Ok? ==> forall i :: 0 <= i < |plan.items| ==>
                        ItemApprovalFor(plan.items[i], approval) == Ok(r.value[i])
                        && OnRecord(session.records, r.value[i])
  {
    hide Runs, RunIds, Session.Valid, ItemApprovalFor, IdFor, Distinct, Ids, ApprovalNames, ApprovalsRecorded;
    hide ItemsRecordable;
    ghost var first, names := session.writings, session.records.Keys;
    var ok := session.Write(BatchApprovalRecord(approval.id), OfBatchApproval(approval));
    if !ok {
      return Err(ApprovalRecordFailed);
    }
    ghost var recorded := session.records;
    assert recorded.Keys == names + {BatchApprovalRecord(approval.id)};
    OtherName(session, names, plan.items, approval, first + 1);
    r := RecordItemApprovals(session, plan.items, approval);
    ExtendsFurther(old(session.records), recorded, session.records);
  }

  lemma OtherName(session: Session, names: set<RecordName>, items: seq<Item>, approval: Approval<Fingerprint>,
                  first: nat)
    ensures ItemsRecordable(session, names + {BatchApprovalRecord(approval.id)}, items, approval, first)
       <==> ItemsRecordable(session, names, items, approval, first)
  {
    hide ItemApprovalFor, IdFor;
    forall i | 0 <= i < |items|
      ensures ItemRecordable(session, names + {BatchApprovalRecord(approval.id)}, items[i], approval, first + i)
         <==> ItemRecordable(session, names, items[i], approval, first + i)
    {
    }
  }

  /** The approval of an item that the batch's approval comes to. */
  function Given(item: Item, approval: Approval<Fingerprint>): Approval<string> {
    Approval(ITEM_VERSION, IdFor(item, approval), item.plan.fingerprint, approval.approvedAtMs,
             Trim(approval.approvedBy), Trim(approval.rationale))
  }

  function AllGiven(items: seq<Item>, approval: Approval<Fingerprint>): seq<Approval<string>> {
    seq(|items|, i requires 0 <= i < |items| => Given(items[i], approval))
  }

  lemma ApprovalNamesItem(item: Item, approval: Approval<Fingerprint>)
    ensures var r := ItemApprovalFor(item, approval);
            r.Ok? ==> r.value == Given(item, approval) && r.value.id == IdFor(item, approval)
  {
    hide IsHuman, IsRationale, ValidHex64, Trim;
  }

  lemma IdsAreDistinct(items: seq<Item>, approval: Approval<Fingerprint>)
    requires Distinct(Fingerprints(items))
    ensures Distinct(Ids(items, approval))
  {
    var ids, prints := Ids(items, approval), Fingerprints(items);
    forall i, j | 0 <= i < j < |items|
      ensures ids[i] != ids[j]
    {
      assert prints[i] != prints[j];
    }
  }

  /** Fresh approvals of distinct items were not used before. */
  lemma ApprovalsUnused(before: seq<ApprovalId<string>>, items: seq<Item>, approval: Approval<Fingerprint>,
                        records: map<RecordName, Record>)
    requires Distinct(before) && Distinct(Fingerprints(items))
    requires forall id <- before :: ItemApprovalRecord(id) in records
    requires forall id <- Ids(items, approval) :: ItemApprovalRecord(id) !in records
    ensures Distinct(before + Ids(items, approval))
  {
    IdsAreDistinct(items, approval);
    DistinctJoin(before, Ids(items, approval));
  }

  // ---------------------------------------------------------------- one item

  const RECORD_FAILED := "icloud-local-eviction-batch-item-result-record-failed"

  predicate GoesWell(execution: Execution) {
    execution.Executed? && execution.result.requestSucceeded && execution.result.verificationComplete
  }

  /** Evicts one item and records its result; the run goes on only if all of it went well. */
  method Attempt(session: Session, item: Item, individual: Approval<string>)
    returns (outcome: ItemOutcome, halt: Halt, at: nat)
    requires session.Valid() && individual.id !in RunIds(session.events) && OnRecord(session.records, individual)
    modifies session`executions, session`readings, session`writings, session`records, session`events
    ensures session.Valid() && Extends(old(session.records), session.records)
    ensures Runs(session.events) == old(Runs(session.events)) + [Run(item.plan, individual, at)]
    ensures RunIds(session.events) == old(RunIds(session.events)) + [individual.id]
    ensures old(session.events) <= session.events && session.executions == old(session.executions) + 1
    ensures halt.Running? <==> Good(outcome)
    ensures outcome.inputIndex == item.inputIndex && outcome.approvalId == individual.id
    ensures outcome.planFingerprint == item.plan.fingerprint
    ensures var execution := session.executor(old(session.executions), item.plan, individual);
            if execution.ExecutionFailed? then
              && halt == HaltedFor(ItemExecutionFailed) && session.records == old(session.records)
              && outcome == ItemOutcome(item.inputIndex, item.plan.fingerprint, individual.id, "", false, false, 0,
                                        BoundedErrorCode(execution.error))
            else
              && halt == (if halt == HaltedFor(ResultRecordFailed) then halt
                          else if !execution.result.requestSucceeded then HaltedFor(RequestFailed)
                          else if !execution.result.verificationComplete then HaltedFor(VerificationIncomplete)
                          else Running)
              && outcome.resultId == execution.result.id
              && outcome.errorCode == (if halt == HaltedFor(ResultRecordFailed) then RECORD_FAILED else "")
              && outcome.requestSucceeded == execution.result.requestSucceeded
              && outcome.reductionBytes == execution.result.reductionBytes
              && (outcome.verificationComplete <==>
                  execution.result.verificationComplete && halt != HaltedFor(ResultRecordFailed))
              && (halt == HaltedFor(ResultRecordFailed) <==>
                    ItemResultRecord(execution.result.id) in old(session.records)
                    || session.writeFails(old(session.writings)))
              && session.writings == old(session.writings) + 1
              && session.records == if halt == HaltedFor(ResultRecordFailed) then old(session.records)
                 else old(session.records)[ItemResultRecord(execution.result.id) := OfItemResult(execution.result)]
  {
    hide Runs, RunIds, Session.Valid, BoundedErrorCode, Extends;
    ExtendsItself(session.records);
    var execution;
    execution, at := session.Evict(item.plan, individual);
    match execution {
      case Executed(result) =>
        var ok := session.Write(ItemResultRecord(result.id), OfItemResult(result));
        outcome := ItemOutcome(item.inputIndex, item.plan.fingerprint, individual.id, result.id,
                               result.requestSucceeded,
                               result.verificationComplete && ok, result.reductionBytes,
                               if ok then "" else "icloud-local-eviction-batch-item-result-record-failed");
        halt := if !ok then HaltedFor(ResultRecordFailed)
        else if !result.requestSucceeded then HaltedFor(RequestFailed)
        else if !result.verificationComplete then HaltedFor(VerificationIncomplete)
        else Running;
      case ExecutionFailed(error) =>
        outcome := ItemOutcome(item.inputIndex, item.plan.fingerprint, individual.id, "", false, false, 0,
                               BoundedErrorCode(error));
        halt := HaltedFor(ItemExecutionFailed);
    }
  }

  // ---------------------------------------------------------------- what an end means

  function Started(plan: Plan, approval: Approval<Fingerprint>, at: nat): BatchResult {
    Refreshed(
      BatchResult(plan.fingerprint, approval.id, at, at, plan.inputCount, plan.plannedCount, plan.unavailableCount, 0,
                  0, 0,
                  plan.totalAllocatedBytes, 0, false, false, Running, []), at)
  }

  /** The outcomes are those of a prefix of the items, in order; only the last can be bad, and then the run halts. */
  ghost predicate InOrder(result: BatchResult, items: seq<Item>, individual: seq<Approval<string>>)
    requires |individual| == |items|
  {
    && |result.outcomes| <= |items|
    && (forall i :: 0 <= i < |result.outcomes| ==>
          result.outcomes[i].inputIndex == items[i].inputIndex && result.outcomes[i].approvalId == individual[i].id)
    && (forall i :: 0 <= i < |result.outcomes| - 1 ==> Good(result.outcomes[i]))
    && (result.halt.Running? <==> AllGood(result.outcomes))
  }

  /** The evictions are those of a prefix of the items, in order, each under its own approval. */
  ghost predicate RunsInOrder(runs: seq<Run>, items: seq<Item>, individual: seq<Approval<string>>)
    requires |individual| == |items|
  {
    && |runs| <= |items|
    && forall i :: 0 <= i < |runs| ==> runs[i].plan == items[i].plan && runs[i].approval == individual[i]
  }

  /** What a finished batch reports. */
  ghost predicate Conclusive(result: BatchResult, items: seq<Item>, attempted: nat) {
    && result == Refreshed(result, result.completedAtMs) && result.plannedCount == |items|
    && |result.outcomes| == attempted <= |items|
    && (result.halt.Running? <==> result.verificationComplete)
    && (result.halt.Running? ==> attempted == |items| && AllGood(result.outcomes))
    && (result.halt.HaltedFor? ==> attempted > 0 && !Good(result.outcomes[attempted - 1]))
    && (forall i :: 0 <= i < attempted ==> result.outcomes[i].inputIndex == items[i].inputIndex)
    && (forall i :: 0 <= i < attempted - 1 ==> Good(result.outcomes[i]))
  }

  lemma EndIsConclusive(result: BatchResult, items: seq<Item>, individual: seq<Approval<string>>)
    requires |individual| == |items| == result.plannedCount && InOrder(result, items, individual)
    requires result == Refreshed(result, result.completedAtMs)
    requires result.halt.Running? ==> |result.outcomes| == |items|
    ensures Conclusive(result, items, |result.outcomes|)
    ensures result.verificationComplete <==> result.halt.Running?
  {
    hide SaturatingTotal, SucceededCount, VerifiedCount, Good, Refreshed;
    VerdictMeansAllGood(result, result.completedAtMs);
    var n := |result.outcomes|;
    if result.halt.HaltedFor? {
      var bad :| bad in result.outcomes && !Good(bad);
      var i :| 0 <= i < n && result.outcomes[i] == bad;
      assert i == n - 1;
    }
  }

  /** What a result says of its batch, whatever became of the items. */
  predicate KeepsHead(before: BatchResult, after: BatchResult) {
    && after.startedAtMs == before.startedAtMs && after.inputCount == before.inputCount
    && after.unavailableCount == before.unavailableCount
    && after.totalAllocatedBytesBefore == before.totalAllocatedBytesBefore
  }

  /** It is about this plan, run from this time to that of its last eviction. */
  predicate Reports(result: BatchResult, plan: Plan, at: nat, runs: seq<Run>) {
    && result.fingerprint == plan.fingerprint && result.startedAtMs == at && result.inputCount == plan.inputCount
    && result.plannedCount == plan.plannedCount && result.unavailableCount == plan.unavailableCount
    && result.totalAllocatedBytesBefore == plan.totalAllocatedBytes
    && result.completedAtMs == if runs == [] then at else runs[|runs| - 1].atMs
  }

  function WithOutcome(result: BatchResult, outcome: ItemOutcome, halt: Halt, at: nat): BatchResult {
    Refreshed(result.(outcomes := result.outcomes + [outcome], halt := halt), at)
  }

  lemma RefreshedAgain(result: BatchResult, at: nat)
    ensures var next := Refreshed(result, at); next == Refreshed(next, next.completedAtMs)
  {
    hide SaturatingTotal, SucceededCount, VerifiedCount;
  }

  lemma OneMoreOutcome(result: BatchResult, items: seq<Item>, individual: seq<Approval<string>>, outcome: ItemOutcome,
                       halt: Halt, at: nat)
    requires |individual| == |items| && InOrder(result, items, individual) && result.halt.Running?
    requires |result.outcomes| < |items| && (halt.Running? <==> Good(outcome))
    requires outcome.inputIndex == items[|result.outcomes|].inputIndex
               && outcome.approvalId == individual[|result.outcomes|].id
    ensures InOrder(WithOutcome(result, outcome, halt, at), items, individual)
    ensures var next := WithOutcome(result, outcome, halt, at);
            && next == Refreshed(next, next.completedAtMs)
            && next.outcomes == result.outcomes + [outcome] && next.halt == halt
               && next.plannedCount == result.plannedCount
            && next.fingerprint == result.fingerprint && next.approvalId == result.approvalId
            && next.completedAtMs == at && KeepsHead(result, next)
  {
    hide SaturatingTotal, SucceededCount, VerifiedCount, Good, Refreshed;
    RefreshedFields(result.(outcomes := result.outcomes + [outcome], halt := halt), at);
    RefreshedAgain(result.(outcomes := result.outcomes + [outcome], halt := halt), at);
    var outcomes := result.outcomes + [outcome];
    assert forall o <- result.outcomes :: o in outcomes;
    assert outcome in outcomes;
    assert forall i :: 0 <= i < |result.outcomes| ==>
             outcomes[i] == result.outcomes[i] && outcomes[i] in result.outcomes;
  }

  lemma StartsInOrder(plan: Plan, approval: Approval<Fingerprint>, at: nat, individual: seq<Approval<string>>)
    requires |individual| == |plan.items|
    ensures var start := Started(plan, approval, at);
            && InOrder(start, plan.items, individual) && start == Refreshed(start, start.completedAtMs)
            && start.outcomes == [] && start.halt.Running? && start.plannedCount == plan.plannedCount
            && start.approvalId == approval.id && Reports(start, plan, at, [])
  {
    hide SaturatingTotal, SucceededCount, VerifiedCount;
  }

  lemma NextUnused<T>(used: seq<T>, ids: seq<T>, i: nat)
    requires i < |ids| && Distinct(used + ids[i..])
    ensures ids[i] !in used && Distinct(used + [ids[i]] + ids[i + 1..])
  {
    assert used + ids[i..] == used + [ids[i]] + ids[i + 1..];
    DistinctParts(used, ids[i..]);
    assert ids[i] == ids[i..][0];
  }

  // ---------------------------------------------------------------- the items

  /** What the executor answers for the items, from its `first` call on. */
  function Answers(session: Session, items: seq<Item>, individual: seq<Approval<string>>, first: nat): seq<Execution>
    requires |individual| == |items|
  {
    seq(|items|, i requires 0 <= i < |items| => session.executor(first + i, items[i].plan, individual[i]))
  }

  function ResultNames(answers: seq<Execution>): set<RecordName> {
    set answer <- answers | answer.Executed? :: ItemResultRecord(answer.result.id)
  }

  function CheckpointNames(id: ApprovalId<Fingerprint>, attempted: nat): set<RecordName> {
    set k | 1 <= k <= attempted :: CheckpointRecord(id, k)
  }

  /** The `i`-th item goes well: its eviction, the record of its result and the checkpoint after it. */
  predicate ItemGoes(session: Session, names: set<RecordName>, answers: seq<Execution>, id: ApprovalId<Fingerprint>,
                     first: nat, i: nat)
    requires i < |answers|
  {
    && GoesWell(answers[i])
    && ItemResultRecord(answers[i].result.id) !in names + ResultNames(answers[..i])
       && !session.writeFails(first + 2 * i)
    && CheckpointRecord(id, i + 1) !in names && !session.writeFails(first + 2 * i + 1)
  }

  predicate AllGo(session: Session, names: set<RecordName>, answers: seq<Execution>, id: ApprovalId<Fingerprint>,
                  first: nat) {
    forall i :: 0 <= i < |answers| ==> ItemGoes(session, names, answers, id, first, i)
  }

  /** An outcome tells which item it is of, and what the executor answered. */
  predicate OutcomeTells(outcome: ItemOutcome, item: Item, answer: Execution) {
    && outcome.inputIndex == item.inputIndex && outcome.planFingerprint == item.plan.fingerprint
    && match answer
       case ExecutionFailed(error) =>
         && !outcome.requestSucceeded && !outcome.verificationComplete && outcome.reductionBytes == 0
         && outcome.resultId == "" && outcome.errorCode == BoundedErrorCode(error)
       case Executed(result) =>
         && outcome.requestSucceeded == result.requestSucceeded && outcome.reductionBytes == result.reductionBytes
         && outcome.resultId == result.id && (outcome.verificationComplete ==> result.verificationComplete)
         && outcome.errorCode in {"", RECORD_FAILED}
  }

  /** Every outcome tells of its item and of the answer it got. */
  predicate AllTell(session: Session, outcomes: seq<ItemOutcome>, items: seq<Item>, individual: seq<Approval<string>>,
                    first: nat) {
    && |outcomes| <= |items| == |individual|
    && forall k :: 0 <= k < |outcomes| ==>
         OutcomeTells(outcomes[k], items[k], session.executor(first + k, items[k].plan, individual[k]))
  }

  lemma OneMoreTells(session: Session, before: seq<ItemOutcome>, after: seq<ItemOutcome>, items: seq<Item>,
                     individual: seq<Approval<string>>, first: nat)
    requires AllTell(session, before, items, individual, first)
    requires |before| < |items| && |after| == |before| + 1 && after[..|before|] == before
    requires var i := |before|;
             OutcomeTells(after[i], items[i], session.executor(first + i, items[i].plan, individual[i]))
    ensures AllTell(session, after, items, individual, first)
  {
    hide OutcomeTells;
    assert forall k :: 0 <= k < |before| ==> after[k] == after[..|before|][k];
  }

  /** One item and its checkpoint. */
  method AttemptAndRecord(session: Session, plan: Plan, approval: Approval<Fingerprint>,
                          individual: seq<Approval<string>>,
                          before: BatchResult, i: nat, ghost names: set<RecordName>, ghost answers: seq<Execution>,
                          ghost first: nat, ghost used: seq<ApprovalId<string>>)
    returns (result: BatchResult, recorded: bool, at: nat)
    requires session.Valid() && i < |plan.items| == |individual| == |answers| == before.plannedCount
    requires individual[i].id !in used && used == RunIds(session.events) && OnRecord(session.records, individual[i])
    requires answers[i] == session.executor(session.executions, plan.items[i].plan, individual[i])
    requires session.writings == first + 2 * i
    requires session.records.Keys == names + ResultNames(answers[..i]) + CheckpointNames(approval.id, i)
    requires InOrder(before, plan.items, individual) && before.halt.Running? && |before.outcomes| == i
    modifies session`executions, session`readings, session`writings, session`records, session`events
    ensures session.Valid() && Extends(old(session.records), session.records) && old(session.events) <= session.events
    ensures Runs(session.events) == old(Runs(session.events)) + [Run(plan.items[i].plan, individual[i], at)]
    ensures RunIds(session.events) == used + [individual[i].id] && session.executions == old(session.executions) + 1
    ensures InOrder(result, plan.items, individual) && result == Refreshed(result, result.completedAtMs)
    ensures result.plannedCount == before.plannedCount && |result.outcomes| == i + 1
    ensures result.fingerprint == before.fingerprint && result.approvalId == before.approvalId
    ensures KeepsHead(before, result) && result.completedAtMs == at
    ensures result.outcomes[..i] == before.outcomes && OutcomeTells(result.outcomes[i], plan.items[i], answers[i])
    ensures recorded && result.halt.Running? <==> ItemGoes(session, names, answers, approval.id, first, i)
    ensures recorded ==> CheckpointRecord(approval.id, i + 1) in session.records
    ensures recorded ==> session.records[CheckpointRecord(approval.id, i + 1)] == OfCheckpoint(result)
    ensures recorded && result.halt.Running? ==>
              && session.writings == first + 2 * (i + 1)
              && session.records.Keys == names + ResultNames(answers[..i + 1]) + CheckpointNames(approval.id, i + 1)
  {
    hide Runs, RunIds, Session.Valid, InOrder, Refreshed, WithOutcome, Extends, OnRecord, BoundedErrorCode;
    var outcome, halt, now := Attempt(session, plan.items[i], individual[i]);
    at := now;
    ghost var between := session.records;
    OneMoreOutcome(before, plan.items, individual, outcome, halt, now);
    result := WithOutcome(before, outcome, halt, now);
    recorded := session.Write(CheckpointRecord(approval.id, i + 1), OfCheckpoint(result));
    ExtendsFurther(old(session.records), between, session.records);
    assert answers[..i + 1] == answers[..i] + [answers[i]];
  }

  /** Evicts the items one by one under their recorded approvals, with a checkpoint after each. */
  method RunItems(session: Session, plan: Plan, approval: Approval<Fingerprint>, individual: seq<Approval<string>>,
                  at: nat)
    returns (r: Result<BatchResult>, ghost runs: seq<Run>)
    requires session.Valid() && |individual| == |plan.items| == plan.plannedCount
    requires forall i :: 0 <= i < |individual| ==> individual[i].id == Ids(plan.items, approval)[i]
    requires Distinct(RunIds(session.events) + Ids(plan.items, approval))
    requires forall i :: 0 <= i < |individual| ==> OnRecord(session.records, individual[i])
    modifies session`executions, session`readings, session`writings, session`records, session`events
    ensures session.Valid() && Extends(old(session.records), session.records)
    ensures Runs(session.events) == old(Runs(session.events)) + runs && RunsInOrder(runs, plan.items, individual)
    ensures old(session.events) <= session.events
    ensures r.Ok? ==> Conclusive(r.value, plan.items, |runs|)
    ensures r.Ok? ==> Reports(r.value, plan, at, runs) && r.value.approvalId == approval.id
    ensures r.Ok? && runs != [] ==> CheckpointRecord(approval.id, |runs|) in session.records
    ensures r.Ok? && runs != [] ==> session.records[CheckpointRecord(approval.id, |runs|)] == OfCheckpoint(r.value)
    ensures r.Err? ==> r.error == CheckpointRecordFailed
    ensures r.Ok? ==> AllTell(session, r.value.outcomes, plan.items, individual, old(session.executions))
    ensures r.Ok? && r.value.verificationComplete <==>
              AllGo(session, old(session.records).Keys,
                    Answers(session, plan.items, individual, old(session.executions)),
                    approval.id, old(session.writings))
  {
    hide Runs, RunIds, Session.Valid, Good, InOrder, Refreshed, Distinct, Conclusive, Started, IdFor, Extends, OnRecord;
    hide ItemGoes, OutcomeTells, AllTell, ResultNames, CheckpointNames;
    var result := Started(plan, approval, at);
    runs := [];
    StartsInOrder(plan, approval, at, individual);
    ExtendsItself(session.records);
    ghost var ids, names, first := Ids(plan.items, approval), session.records.Keys, session.writings;
    ghost var answers := Answers(session, plan.items, individual, session.executions);
    NoNames(approval.id);
    NothingToTell(session, plan.items, individual, session.executions);
    var i := 0;
    while i < |plan.items|
      invariant 0 <= i <= |plan.items| && |result.outcomes| == i && result.halt.Running?
      invariant session.Valid() && Extends(old(session.records), session.records)
      invariant Runs(session.events) == old(Runs(session.events)) + runs && RunsInOrder(runs, plan.items, individual)
      invariant old(session.events) <= session.events
      invariant |runs| == i && Distinct(RunIds(session.events) + ids[i..])
      invariant InOrder(result, plan.items, individual) && result == Refreshed(result, result.completedAtMs)
      invariant result.approvalId == approval.id && Reports(result, plan, at, runs)
      invariant i > 0 ==> CheckpointRecord(approval.id, i) in session.records
      invariant i > 0 ==> session.records[CheckpointRecord(approval.id, i)] == OfCheckpoint(result)
      invariant session.executions == old(session.executions) + i && session.writings == first + 2 * i
      invariant session.records.Keys == names + ResultNames(answers[..i]) + CheckpointNames(approval.id, i)
      invariant forall k :: 0 <= k < i ==> ItemGoes(session, names, answers, approval.id, first, k)
      invariant AllTell(session, result.outcomes, plan.items, individual, old(session.executions))
    {
      NextUnused(RunIds(session.events), ids, i);
      StillOnRecord(old(session.records), session.records, [], individual[i]);
      ghost var earlier, told := session.records, result.outcomes;
      var recorded, now;
      result, recorded, now := AttemptAndRecord(session, plan, approval, individual, result, i, names, answers, first,
                                                RunIds(session.events));
      ExtendsFurther(old(session.records), earlier, session.records);
      OneMoreTells(session, told, result.outcomes, plan.items, individual, old(session.executions));
      runs := runs + [Run(plan.items[i].plan, individual[i], now)];
      i := i + 1;
      if !recorded {
        return Err(CheckpointRecordFailed), runs;
      }
      if result.halt.HaltedFor? {
        EndIsConclusive(result, plan.items, individual);
        return Ok(result), runs;
      }
    }
    EndIsConclusive(result, plan.items, individual);
    r := Ok(result);
  }

  lemma NothingToTell(session: Session, items: seq<Item>, individual: seq<Approval<string>>, first: nat)
    requires |items| == |individual|
    ensures AllTell(session, [], items, individual, first)
  {
  }

  lemma NoNames(id: ApprovalId<Fingerprint>)
    ensures ResultNames([]) == {} && CheckpointNames(id, 0) == {}
  {
  }

  // ---------------------------------------------------------------- the batch

  /** The whole opening took place before anything that followed. */
  ghost predicate Prepared(before: seq<Event>, after: seq<Event>, plan: Plan, approval: Approval<Fingerprint>,
                           first: nat) {
    before + Opening(plan, approval, first) <= after
  }

  /** The opening itself evicts nothing. */
  lemma OpeningEvictsNothing(plan: Plan, approval: Approval<Fingerprint>, first: nat)
    ensures Runs(Opening(plan, approval, first)) == []
  {
    NoRuns(Opening(plan, approval, first));
  }

  lemma {:induction false} NoRuns(events: seq<Event>)
    requires forall e <- events :: !e.Ran?
    ensures Runs(events) == []
  {
    if events != [] {
      NoRuns(events[..|events| - 1]);
    }
  }

  lemma OpeningDone(before: seq<Event>, replanned: seq<Event>, after: seq<Event>, plan: Plan,
                    approval: Approval<Fingerprint>,
                    first: nat)
    requires replanned == before + Replans(plan.items, first)
    requires after == replanned + [Recorded(BatchApprovalRecord(approval.id))] + ApprovalsRecorded(plan.items, approval)
    ensures after == before + Opening(plan, approval, first)
  {
    hide Replans, ApprovalsRecorded;
  }

  /** A batch that is well formed has an approval of its own for every item, used for nothing yet. */
  lemma PlanHasDistinctIds(root: Root, plan: Plan, approval: Approval<Fingerprint>)
    requires WellFormed(root, plan)
    ensures Distinct(Fingerprints(plan.items)) && Distinct(Ids(plan.items, approval))
              && |plan.items| == plan.plannedCount
  {
    hide UnavailableOk, TotalsOk, SealOk, Distinct, IdFor;
    IdsAreDistinct(plan.items, approval);
  }

  lemma UsedAreRecorded(session: Session)
    requires session.Valid()
    ensures Distinct(RunIds(session.events))
    ensures forall id <- RunIds(session.events) :: ItemApprovalRecord(id) in session.records
    ensures forall run <- Runs(session.events) ::
              && ItemApprovalRecord(run.approval.id) in session.records
              && session.records[ItemApprovalRecord(run.approval.id)] == OfItemApproval(run.approval)
  {
    hide Runs, StillUnchanged;
    forall id | id in RunIds(session.events)
      ensures ItemApprovalRecord(id) in session.records
    {
      var i :| 0 <= i < |RunIds(session.events)| && RunIds(session.events)[i] == id;
      assert Runs(session.events)[i] in Runs(session.events);
    }
  }

  lemma ReadyToRun(session: Session, names: set<RecordName>, items: seq<Item>, approval: Approval<Fingerprint>,
                   first: nat,
                   individual: seq<Approval<string>>)
    requires ItemsRecordable(session, names, items, approval, first) && |individual| == |items|
    requires forall i :: 0 <= i < |items| ==> ItemApprovalFor(items[i], approval) == Ok(individual[i])
    ensures individual == AllGiven(items, approval)
    ensures forall i :: 0 <= i < |individual| ==> individual[i].id == Ids(items, approval)[i]
    ensures forall id <- Ids(items, approval) :: ItemApprovalRecord(id) !in names
  {
    hide ItemApprovalFor, IdFor, Given;
    forall i | 0 <= i < |items|
      ensures individual[i] == Given(items[i], approval) && individual[i].id == IdFor(items[i], approval)
    {
      ApprovalNamesItem(items[i], approval);
    }
    forall id | id in Ids(items, approval)
      ensures ItemApprovalRecord(id) !in names
    {
      var i :| 0 <= i < |items| && Ids(items, approval)[i] == id;
      assert ItemRecordable(session, names, items[i], approval, first + i);
    }
  }

  lemma OtherNames(session: Session, names: set<RecordName>, answers: seq<Execution>, approval: Approval<Fingerprint>,
                   ids: seq<ApprovalId<string>>, first: nat)
    ensures AllGo(session, names + {BatchApprovalRecord(approval.id)} + ApprovalNames(ids), answers, approval.id, first)
       <==> AllGo(session, names, answers, approval.id, first)
  {
    hide GoesWell, ResultNames;
    forall i | 0 <= i < |answers|
      ensures ItemGoes(session, names + {BatchApprovalRecord(approval.id)} + ApprovalNames(ids), answers, approval.id,
                       first, i)
         <==> ItemGoes(session, names, answers, approval.id, first, i)
    {
    }
  }

  /** The batch goes through from where the session stands: the approval passes, the planner confirms every item,
      every approval can be newly recorded, and every item goes well. */
  predicate GoesThrough(session: Session, names: set<RecordName>, plannings: nat, executions: nat, writings: nat,
                        root: Root, plan: Plan, approval: Approval<Fingerprint>, confirmation: Fingerprint) {
    && ApprovalOk(root, plan, approval, confirmation)
    && AllUnchanged(session, plan.items, plannings)
    && Recordable(session, names, plan.items, approval, writings)
    && AllGo(session, names, Answers(session, plan.items, AllGiven(plan.items, approval), executions), approval.id,
             writings + 1 + |plan.items|)
  }

  /** Runs one batch.  Nothing is evicted unless the planner confirmed every item and every approval was newly
      recorded; a batch approval that is already on record stops the run before that; and the result says that all
      is verified exactly if the batch goes through. */
  method ExecuteBatch(session: Session, root: Root, plan: Plan, approval: Approval<Fingerprint>,
                      confirmation: Fingerprint, at: nat)
    returns (r: Result<BatchResult>, ghost runs: seq<Run>)
    requires session.Valid()
    modifies session
    ensures session.Valid() && Extends(old(session.records), session.records)
    ensures Runs(session.events) == old(Runs(session.events)) + runs
    ensures r.Ok? || runs != [] ==> ApprovalOk(root, plan, approval, confirmation)
    ensures r.Ok? || runs != [] ==> AllUnchanged(session, plan.items, old(session.plannings))
    ensures r.Ok? || runs != [] ==>
              Prepared(old(session.events), session.events, plan, approval, old(session.plannings))
    ensures r.Ok? || runs != [] ==> BatchApprovalRecord(approval.id) in session.records
    ensures BatchApprovalRecord(approval.id) in old(session.records) ==>
              r.Err? && runs == [] && session.records == old(session.records)
    ensures RunsInOrder(runs, plan.items, AllGiven(plan.items, approval))
    ensures r.Ok? ==> Conclusive(r.value, plan.items, |runs|) && r.value.approvalId == approval.id
    ensures r.Ok? ==> Reports(r.value, plan, at, runs)
    ensures r.Ok? ==>
              AllTell(session, r.value.outcomes, plan.items, AllGiven(plan.items, approval), old(session.executions))
    ensures r.Ok? && runs != [] ==> CheckpointRecord(approval.id, |runs|) in session.records
    ensures r.Ok? && runs != [] ==> session.records[CheckpointRecord(approval.id, |runs|)] == OfCheckpoint(r.value)
    ensures r.Ok? && r.value.verificationComplete <==>
              GoesThrough(session, old(session.records).Keys, old(session.plannings), old(session.executions),
                          old(session.writings), root, plan, approval, confirmation)
  {
    hide Runs, RunIds, Session.Valid, Distinct, Conclusive, ItemApprovalFor, IdFor, Ids, WellFormed, AllUnchanged;
    hide Verdict;
    hide StandsAgainst, AllTell, Reports;
    hide Opening, Replans, ApprovalsRecorded, ItemsRecordable, AllGo, Answers, Given, ApprovalNames;
    runs := [];
    var checked := ValidateBatchApproval(root, plan, approval, confirmation);
    if checked.Err? {
      return Err(checked.error), runs;
    }
    checked := Preflight(session, root, plan);
    if checked.Err? {
      return Err(checked.error), runs;
    }
    UsedAreRecorded(session);
    PlanHasDistinctIds(root, plan, approval);
    ghost var records, replanned, first := session.records, session.events, session.writings;
    var individual := RecordApprovals(session, plan, approval);
    if individual.Err? {
      return Err(individual.error), runs;
    }
    OpeningDone(old(session.events), replanned, session.events, plan, approval, old(session.plannings));
    ReadyToRun(session, records.Keys, plan.items, approval, first + 1, individual.value);
    ApprovalsUnused(RunIds(session.events), plan.items, approval, records);
    OtherNames(session, records.Keys, Answers(session, plan.items, individual.value, session.executions), approval,
               Ids(plan.items, approval), first + 1 + |plan.items|);
    r, runs := RunItems(session, plan, approval, individual.value, at);
  }

  /** An approval works once: after a run that evicted anything or ended well, it evicts nothing more. */
  method RunTwice(session: Session, root: Root, first: Plan, second: Plan, approval: Approval<Fingerprint>, at: nat,
                  later: nat)
    returns (r1: Result<BatchResult>, r2: Result<BatchResult>, ghost runs1: seq<Run>, ghost runs2: seq<Run>)
    requires session.Valid()
    modifies session
    ensures session.Valid()
    ensures r1.Ok? || runs1 != [] ==> r2.Err? && runs2 == []
    ensures Runs(session.events) == old(Runs(session.events)) + runs1 + runs2
  {
    hide Runs, Session.Valid, Conclusive, Prepared, IdFor, ApprovalOk, GoesThrough, RunsInOrder;
    r1, runs1 := ExecuteBatch(session, root, first, approval, first.fingerprint, at);
    r2, runs2 := ExecuteBatch(session, root, second, approval, second.fingerprint, later);
  }

  /** Where a fingerprint binds what makes a plan safe: a batch that is not eligible goes through exactly if it
      has no items, its approval is new, and the one write succeeds. */
  lemma IneligibleGoesThrough(session: Session, names: set<RecordName>, plannings: nat, executions: nat, writings: nat,
                              root: Root, plan: Plan, approval: Approval<Fingerprint>)
    requires ApprovalOk(root, plan, approval, plan.fingerprint) && !plan.eligible
    requires forall i :: 0 <= i < |plan.items| ==>
               (StillUnchanged(session.planner(plannings + i, plan.items[i].plan.path), plan.items[i].plan) ==>
                  ItemIsSafe(plan.items[i].plan))
    ensures GoesThrough(session, names, plannings, executions, writings, root, plan, approval, plan.fingerprint) <==>
              plan.items == [] && BatchApprovalRecord(approval.id) !in names && !session.writeFails(writings)
  {
    hide StillUnchanged, ItemIsSafe, ItemGoes, ItemRecordable, ShapeOk, ItemsOk, UnavailableOk, TotalsOk;
    hide IsHuman, IsRationale, Trim, FingerprintFor;
    if plan.items != [] {
      var item :| item in plan.items && !ItemIsSafe(item.plan);
      var i :| 0 <= i < |plan.items| && plan.items[i] == item;
      assert !StillUnchanged(session.planner(plannings + i, plan.items[i].plan.path), plan.items[i].plan);
    }
  }

  lemma NothingIsNotEligible(root: Root, plan: Plan)
    requires WellFormed(root, plan) && plan.items == []
    ensures !plan.eligible
  {
    hide ShapeOk, ItemsOk, UnavailableOk, TotalsOk;
  }

  function ShortApproval(plan: Plan): Approval<Fingerprint> {
    Approval(BATCH_VERSION, ApprovalId(plan.fingerprint, plan.observedAtMs, "human:a", "a"), plan.fingerprint,
             plan.observedAtMs, "human:a", "a")
  }

  lemma ShortApprovalPasses(root: Root, plan: Plan)
    requires WellFormed(root, plan)
    ensures ApprovalOk(root, plan, ShortApproval(plan), plan.fingerprint)
  {
    hide Trim, WellFormed;
    assert "human:a"[..6] == "human:";
  }

  /** Such a run: one input that cannot be planned, and an approval by a human that passes. */
  method RunBatchOfNothing() returns (plan: Plan, r: Result<BatchResult>)
    ensures !plan.eligible && plan.inputCount == 1 && plan.items == []
    ensures ApprovalOk(Root(true, 0, "/"), plan, ShortApproval(plan), plan.fingerprint)
    ensures r.Ok? && r.value.verificationComplete
  {
    hide WellFormed, ApprovalOk, GoesThrough, Conclusive, Prepared, RunsInOrder, ShortApproval, AllUnchanged;
    hide NotPlanned;
    hide Session.Valid, Runs;
    var root := Root(true, 0, "/");
    var planner: Planner := (i, path) => Failed("gone");
    assert PlannedItems(["/a"], planner, 1) == PlannedItems(["/a"], planner, 0) == [];
    var planned := PlanBatchWith(root, ["/a"], 0, planner);
    plan := planned.value;
    var session := new Session(planner, (i, item, given) => ExecutionFailed("none"), i => false, i => 0);
    assert session.records.Keys == {};
    ShortApprovalPasses(root, plan);
    NothingIsNotEligible(root, plan);
    IneligibleGoesThrough(session, {}, 0, 0, 0, root, plan, ShortApproval(plan));
    ghost var runs;
    r, runs := ExecuteBatch(session, root, plan, ShortApproval(plan), plan.fingerprint, 0);
  }
}
