/** The paired ADR and Goal projections of one receipt: two files, replaced one after the other
    under a lock, guarded by an acceptance test; blocker writes that must not rewind them; and
    the reader that trusts only an agreeing pair. */
module Projections {
  import opened Lists
  import opened Optional

  datatype GoalState = CopyVerified | PendingProviderSync | ProviderSyncConfirmed | EvictionReady | SourceEvicted

  datatype SyncState =
    | Complete | PendingUpload | NotUbiquitous | NotLocalCurrent | Uploading
    | ExcludedFromSync | SyncPaused | RemoteUnavailable | ContentMismatch | Unknown

  datatype Adr = Adr(
    state: GoalState, sync: SyncState, syncComplete: bool, context: seq<string>, decision: string,
    consequences: seq<string>, evidenceRecordId: Option<string>, updatedAtMs: nat)

  datatype Goal = Goal(
    status: string, state: GoalState, sync: SyncState, gates: map<string, bool>,
    evidenceRecordId: Option<string>, updatedAtMs: nat)

  function Rank(s: GoalState): nat {
    match s
    case CopyVerified => 0
    case PendingProviderSync => 1
    case ProviderSyncConfirmed => 2
    case EvictionReady => 3
    case SourceEvicted => 4
  }

  function SyncName(s: SyncState): string {
    match s
    case Complete => "complete"
    case PendingUpload => "pending-upload"
    case NotUbiquitous => "not-ubiquitous"
    case NotLocalCurrent => "not-local-current"
    case Uploading => "uploading"
    case ExcludedFromSync => "excluded-from-sync"
    case SyncPaused => "sync-paused"
    case RemoteUnavailable => "remote-unavailable"
    case ContentMismatch => "content-mismatch"
    case Unknown => "unknown"
  }

  function DecisionFor(s: GoalState, sync: SyncState): string {
    match s
    case CopyVerified => "retain-source-after-copy"
    case PendingProviderSync => "retain-source-provider-state-" + SyncName(sync)
    case ProviderSyncConfirmed => "retain-source-eviction-gate-pending"
    case EvictionReady => "source-eviction-permit-issued"
    case SourceEvicted => "source-moved-to-os-trash"
  }

  // ---------------------------------------------------------------- the acceptance test

  /** Progress of a projection: rank first, then time. */
  datatype Key = Key(rank: nat, time: nat)

  function AdrKey(a: Adr): Key { Key(Rank(a.state), a.updatedAtMs) }

  function GoalKey(g: Goal): Key { Key(Rank(g.state), g.updatedAtMs) }

  predicate NotBefore(k: Key, earlier: Key) {
    k.rank > earlier.rank || (k.rank == earlier.rank && k.time >= earlier.time)
  }

  /** The test of `write_latest_json`. */
  predicate Regresses(previous: GoalState, previousTime: nat, incoming: GoalState, incomingTime: nat) {
    Rank(incoming) < Rank(previous) || (incoming == previous && incomingTime < previousTime)
  }

  predicate AdrAccepts(file: Option<Adr>, a: Adr) {
    file.None? || !Regresses(file.value.state, file.value.updatedAtMs, a.state, a.updatedAtMs)
  }

  predicate GoalAccepts(file: Option<Goal>, g: Goal) {
    file.None? || !Regresses(file.value.state, file.value.updatedAtMs, g.state, g.updatedAtMs)
  }

  /** ADR and Goal that say the same. */
  predicate Agree(a: Adr, g: Goal) {
    a.state == g.state && a.sync == g.sync && a.updatedAtMs == g.updatedAtMs
  }

  // ---------------------------------------------------------------- blocker writes

  /** One write: the snapshots, and the blockers it reports, if any. */
  datatype Request = Request(adr: Adr, goal: Goal, sourceBlocker: Option<string>, providerBlocker: Option<string>)

  predicate Blocks(r: Request) {
    r.sourceBlocker.Some? || r.providerBlocker.Some?
  }

  /** Whether a blocker write would rewind the recorded Goal. */
  predicate Lifts(r: Request, adr: Option<Adr>, goal: Option<Goal>) {
    adr.Some? && goal.Some? && Rank(goal.value.state) > Rank(r.goal.state)
  }

  /** Nothing is written over an evicted source. */
  predicate LeavesEvicted(adr: Option<Adr>, goal: Option<Goal>) {
    adr.Some? && goal.Some? && goal.value.state == SourceEvicted
  }

  const PERMIT_GATE := "explicit-eviction-permit"
  const MAY_PROCEED := "explicit-trash-step-may-proceed"

  function BlockedGoal(r: Request, s: GoalState): Goal {
    var gates1 := if r.sourceBlocker.Some? then r.goal.gates["source-present" := false] else r.goal.gates;
    var gates2 := if r.providerBlocker.Some? then gates1["provider-sync-state-complete" := false] else gates1;
    r.goal.(state := s, status := "blocked", gates := gates2[PERMIT_GATE := false])
  }

  function BlockedDecision(r: Request, s: GoalState): string {
    var decisionState := if r.sourceBlocker.Some? && Rank(s) >= Rank(ProviderSyncConfirmed) then ProviderSyncConfirmed
          else s;
    DecisionFor(decisionState, r.adr.sync)
    + (if r.sourceBlocker.Some? then "-source-state-unverified" else "")
    + (if r.providerBlocker.Some? then "-provider-state-unverified" else "")
  }

  function BlockedConsequences(r: Request): seq<string> {
    var kept := Without(r.adr.consequences, MAY_PROCEED);
    var withSource :=
      if r.sourceBlocker.Some?
      then PushUnique(PushUnique(kept, "source-state-blocked:" + r.sourceBlocker.value),
                      "eviction-blocked-until-source-state")
      else kept;
    if r.providerBlocker.Some?
    then PushUnique(PushUnique(withSource, "provider-state-blocked:" + r.providerBlocker.value),
                    "eviction-blocked-until-provider-proof")
    else withSource
  }

  /** What a write tries to put in the files, given what they hold; nothing for a blocker over an
      evicted source. */
  function Effective(r: Request, adr: Option<Adr>, goal: Option<Goal>): Option<(Adr, Goal)> {
    if !Blocks(r) then Some((r.adr, r.goal))
    else if LeavesEvicted(adr, goal) then None
    else
      var lifts := Lifts(r, adr, goal);
      var s := if lifts then goal.value.state else r.goal.state;
      Some((r.adr.(state := if lifts then goal.value.state else r.adr.state,
                   decision := BlockedDecision(r, s), consequences := BlockedConsequences(r)),
            BlockedGoal(r, s)))
  }

  // ---------------------------------------------------------------- the reader

  datatype Reading = Incomplete | Divergent | Absent | Observed(state: GoalState, sync: SyncState, updatedAtMs: nat)

  predicate IsRefused(r: Reading) {
    r.Incomplete? || r.Divergent?
  }

  /** What the two files tell a reader. */
  function Read(adr: Option<Adr>, goal: Option<Goal>): Reading {
    match (adr, goal)
    case (None, None) => Absent
    case (Some(a), Some(g)) => if Agree(a, g) then Observed(g.state, g.sync, g.updatedAtMs) else Divergent
    case _ => Incomplete
  }

  // ---------------------------------------------------------------- the writers, in place

  /** The projection files of one receipt, and the writers that replace them. */
  class ProjectionFiles {
    var adr: Option<Adr>
    var goal: Option<Goal>

    constructor ()
      ensures adr.None? && goal.None?
    {
      adr, goal := None, None;
    }

    method WriteLatestSnapshot(snapshot: Adr) returns (written: bool)
      modifies this`adr
      ensures written == AdrAccepts(old(adr), snapshot)
      ensures adr == if written then Some(snapshot) else old(adr)
    {
      if adr.Some? && Regresses(adr.value.state, adr.value.updatedAtMs, snapshot.state, snapshot.updatedAtMs) {
        return false;
      }
      adr := Some(snapshot);
      return true;
    }

    method WriteLatestGoalSnapshot(snapshot: Goal) returns (written: bool)
      modifies this`goal
      ensures written == GoalAccepts(old(goal), snapshot)
      ensures goal == if written then Some(snapshot) else old(goal)
    {
      if goal.Some? && Regresses(goal.value.state, goal.value.updatedAtMs, snapshot.state, snapshot.updatedAtMs) {
        return false;
      }
      goal := Some(snapshot);
      return true;
    }

    method WriteProjectionPair(a: Adr, g: Goal) returns (adrWritten: bool, goalWritten: bool)
      modifies this
      ensures adrWritten == AdrAccepts(old(adr), a) && goalWritten == GoalAccepts(old(goal), g)
      ensures adr == if adrWritten then Some(a) else old(adr)
      ensures goal == if goalWritten then Some(g) else old(goal)
    {
      adrWritten := WriteLatestSnapshot(a);
      goalWritten := WriteLatestGoalSnapshot(g);
    }

    /** `read_projection_state`. */
    method ReadProjectionState() returns (r: Reading)
      ensures r == Read(adr, goal)
    {
      if adr.None? && goal.None? {
        return Absent;
      }
      if adr.None? || goal.None? {
        return Incomplete;
      }
      if adr.value.state != goal.value.state || adr.value.sync != goal.value.sync
         || adr.value.updatedAtMs != goal.value.updatedAtMs {
        return Divergent;
      }
      return Observed(goal.value.state, goal.value.sync, goal.value.updatedAtMs);
    }

    /** A write with or without blockers: it offers the files exactly `Effective`. */
    method WriteWithBlockers(r: Request) returns (wrote: bool)
      modifies this
      ensures var effective := Effective(r, old(adr), old(goal));
              if effective.None? then !wrote && adr == old(adr) && goal == old(goal)
              else
                && (adr == if AdrAccepts(old(adr), effective.value.0) then Some(effective.value.0) else old(adr))
                && (goal == if GoalAccepts(old(goal), effective.value.1) then Some(effective.value.1) else old(goal))
                && wrote == (AdrAccepts(old(adr), effective.value.0) || GoalAccepts(old(goal), effective.value.1))
    {
      hide BlockedGoal, BlockedDecision, BlockedConsequences, Regresses;
      var a, g := r.adr, r.goal;
      if r.sourceBlocker.Some? || r.providerBlocker.Some? {
        if adr.Some? && goal.Some? {
          if goal.value.state == SourceEvicted {
            return false;
          }
          if Rank(goal.value.state) > Rank(g.state) {
            a := a.(state := goal.value.state);
            g := g.(state := goal.value.state);
          }
        }
        g := BlockGoal(r, g.state);
        var decision := BlockDecision(r, g.state);
        var consequences := BlockConsequences(r);
        a := a.(decision := decision, consequences := consequences);
      }
      var adrWritten, goalWritten := WriteProjectionPair(a, g);
      return adrWritten || goalWritten;
    }
  }

  method BlockGoal(r: Request, s: GoalState) returns (g: Goal)
    ensures g == BlockedGoal(r, s) && g.state == s
  {
    g := r.goal.(state := s, status := "blocked");
    if r.sourceBlocker.Some? {
      g := g.(gates := g.gates["source-present" := false]);
    }
    if r.providerBlocker.Some? {
      g := g.(gates := g.gates["provider-sync-state-complete" := false]);
    }
    g := g.(gates := g.gates[PERMIT_GATE := false]);
  }

  method BlockDecision(r: Request, s: GoalState) returns (decision: string)
    ensures decision == BlockedDecision(r, s)
  {
    hide DecisionFor;
    var decisionState := if r.sourceBlocker.Some? && Rank(s) >= Rank(ProviderSyncConfirmed) then ProviderSyncConfirmed
          else s;
    decision := DecisionFor(decisionState, r.adr.sync);
    assert decision + "" == decision;
    if r.sourceBlocker.Some? {
      decision := decision + "-source-state-unverified";
    }
    assert decision + "" == decision;
    if r.providerBlocker.Some? {
      decision := decision + "-provider-state-unverified";
    }
  }

  method BlockConsequences(r: Request) returns (consequences: seq<string>)
    ensures consequences == BlockedConsequences(r)
  {
    hide Without, PushUnique;
    consequences := Without(r.adr.consequences, MAY_PROCEED);
    if r.sourceBlocker.Some? {
      consequences := PushUnique(consequences, "source-state-blocked:" + r.sourceBlocker.value);
      consequences := PushUnique(consequences, "eviction-blocked-until-source-state");
    }
    if r.providerBlocker.Some? {
      consequences := PushUnique(consequences, "provider-state-blocked:" + r.providerBlocker.value);
      consequences := PushUnique(consequences, "eviction-blocked-until-provider-proof");
    }
  }
}
