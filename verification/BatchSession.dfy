/** The outside world of a batch run, its record directory, and what holds of everything it did. */
module BatchSession {
  import opened BatchPlan
  import opened BatchResults
  import opened Lists

  // ---------------------------------------------------------------- what happened

  /** `Unchanged`: the answer of one call of the planner confirmed an item's plan. */
  datatype Event =
    | Unchanged(call: nat, plan: ItemPlan)
    | Recorded(name: RecordName)
    | Ran(run: Run)

  datatype Run = Run(plan: ItemPlan, approval: Approval<string>, atMs: nat)

  /** The evictions among the events, in order. */
  ghost function Runs(events: seq<Event>): seq<Run> {
    if events == [] then []
    else
      var last := events[|events| - 1];
      Runs(events[..|events| - 1]) + if last.Ran? then [last.run] else []
  }

  ghost function RunIds(events: seq<Event>): seq<ApprovalId<string>> {
    var runs := Runs(events);
    seq(|runs|, i requires 0 <= i < |runs| => runs[i].approval.id)
  }

  lemma RunsOne(a: seq<Event>, e: Event)
    ensures Runs(a + [e]) == if e.Ran? then Runs(a) + [e.run] else Runs(a)
    ensures RunIds(a + [e]) == if e.Ran? then RunIds(a) + [e.run.approval.id] else RunIds(a)
  {
    assert (a + [e])[..|a|] == a;
  }

  // ---------------------------------------------------------------- the session

  /** What a new look at an item must say for the batch to go on. */
  predicate StillUnchanged(now: Planning, plan: ItemPlan) {
    now.Planned? && now.plan.fingerprint == plan.fingerprint && ItemIsSafe(now.plan)
  }

  predicate OnRecord(records: map<RecordName, Record>, approval: Approval<string>) {
    ItemApprovalRecord(approval.id) in records && records[ItemApprovalRecord(approval.id)] == OfItemApproval(approval)
  }

  /** Records stay as they were written. */
  predicate Extends(before: map<RecordName, Record>, now: map<RecordName, Record>) {
    forall name <- before :: name in now && now[name] == before[name]
  }

  lemma ExtendsItself(records: map<RecordName, Record>)
    ensures Extends(records, records)
  {
  }

  lemma ExtendsFurther(before: map<RecordName, Record>, between: map<RecordName, Record>, now: map<RecordName, Record>)
    requires Extends(before, between) && Extends(between, now)
    ensures Extends(before, now)
  {
  }

  /** Planner, evictions, record directory and clock, each answering by call number.  Records are created new
      and never replaced. */
  class Session {
    const planner: (nat, string) -> Planning
    const executor: (nat, ItemPlan, Approval<string>) -> Execution
    const writeFails: nat -> bool
    const clock: nat -> nat
    var plannings: nat
    var executions: nat
    var writings: nat
    var readings: nat
    var records: map<RecordName, Record>
    ghost var events: seq<Event>

    constructor (planner: (nat, string) -> Planning, executor: (nat, ItemPlan, Approval<string>) -> Execution,
                 writeFails: nat -> bool, clock: nat -> nat)
      ensures Valid() && events == [] && records == map[]
      ensures plannings == 0 && executions == 0 && writings == 0 && readings == 0
      ensures this.planner == planner && this.executor == executor
      ensures this.writeFails == writeFails && this.clock == clock
    {
      this.planner, this.executor, this.writeFails, this.clock := planner, executor, writeFails, clock;
      plannings, executions, writings, readings, records, events := 0, 0, 0, 0, map[], [];
    }

    /** No approval was used for two evictions, each one used is on record, every call of the executor is
        among the evictions, and every confirmation is what the planner answered in that call. */
    ghost predicate Valid()
      reads this`plannings, this`executions, this`readings, this`records, this`events
    {
      && Distinct(RunIds(events)) && executions == |Runs(events)| == readings
      && (forall i :: 0 <= i < |Runs(events)| ==> Runs(events)[i].atMs == clock(i))
      && (forall run <- Runs(events) :: OnRecord(records, run.approval))
      && (forall e <- events :: e.Unchanged? ==>
          e.call < plannings && StillUnchanged(planner(e.call, e.plan.path), e.plan))
    }

    method Plan(path: string) returns (r: Planning)
      modifies this`plannings
      ensures r == planner(old(plannings), path) && plannings == old(plannings) + 1
    {
      r := planner(plannings, path);
      plannings := plannings + 1;
    }

    method Write(name: RecordName, record: Record) returns (ok: bool)
      requires Valid()
      modifies this`writings, this`records, this`events
      ensures Valid() && Extends(old(records), records)
      ensures ok <==> name !in old(records) && !writeFails(old(writings))
      ensures writings == old(writings) + 1
      ensures records == if ok then old(records)[name := record] else old(records)
      ensures events == old(events) + if ok then [Recorded(name)] else []
      ensures Runs(events) == old(Runs(events)) && RunIds(events) == old(RunIds(events))
    {
      hide Runs, RunIds, Distinct, StillUnchanged;
      ok := name !in records && !writeFails(writings);
      writings := writings + 1;
      if ok {
        RunsOne(events, Recorded(name));
        records := records[name := record];
        events := events + [Recorded(name)];
      }
    }

    /** Re-plans an item; it must still be safe and have the same fingerprint. */
    method Replan(plan: ItemPlan) returns (r: Result<Unit>)
      requires Valid()
      modifies this`plannings, this`events
      ensures Valid() && plannings == old(plannings) + 1
      ensures Runs(events) == old(Runs(events)) && RunIds(events) == old(RunIds(events))
      ensures events == old(events) + if r.Ok? then [Unchanged(old(plannings), plan)] else []
      ensures r.Ok? <==> StillUnchanged(planner(old(plannings), plan.path), plan)
      ensures r.Ok? <==> var now := planner(old(plannings), plan.path);
                         && now.Planned? && now.plan.fingerprint == plan.fingerprint
                         && forall o :: !StandsAgainst(o, now.plan)
      ensures r.Err? ==> r.error == if planner(old(plannings), plan.path).Failed? then PreflightItemUnavailable
                                    else PreflightItemChanged
    {
      hide ItemIsSafe, StandsAgainst, Runs, RunIds, Distinct, OnRecord;
      var now := Plan(plan.path);
      if now.Planned? {
        SafeIfNothingStandsAgainst(now.plan);
      }
      if now.Failed? {
        return Err(PreflightItemUnavailable);
      }
      if now.plan.fingerprint != plan.fingerprint || !ItemIsSafe(now.plan) {
        return Err(PreflightItemChanged);
      }
      RunsOne(events, Unchanged(plannings - 1, plan));
      events := events + [Unchanged(plannings - 1, plan)];
      r := Ok(Unit);
    }

    /** Evicts one item under an approval that is on record and was not used before. */
    method Evict(plan: ItemPlan, approval: Approval<string>) returns (execution: Execution, at: nat)
      requires Valid() && approval.id !in RunIds(events) && OnRecord(records, approval)
      modifies this`executions, this`readings, this`events
      ensures Valid() && at == clock(old(readings)) && execution == executor(old(executions), plan, approval)
      ensures executions == old(executions) + 1
      ensures events == old(events) + [Ran(Run(plan, approval, at))]
      ensures Runs(events) == old(Runs(events)) + [Run(plan, approval, at)]
      ensures RunIds(events) == old(RunIds(events)) + [approval.id]
    {
      hide Runs, RunIds, StillUnchanged, OnRecord;
      at := clock(readings);
      readings := readings + 1;
      execution := executor(executions, plan, approval);
      executions := executions + 1;
      RunsOne(events, Ran(Run(plan, approval, at)));
      events := events + [Ran(Run(plan, approval, at))];
    }
  }
}
