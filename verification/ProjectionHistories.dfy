/** What a run of interleaved writers leaves in the two files, told from its events: whose write the files
    hold, when a reader refuses them, and whether a blocker write takes the leave to proceed away. */
module ProjectionHistories {
  import opened Optional
  import opened Projections
  import opened ProjectionRuns

  // ---------------------------------------------------------------- the last write the ADR file took

  /** Whether the step replaces the ADR file. */
  predicate TakesAdr(t: System, e: Event) {
    e.ReplaceAdr? && e.p in t.processes && t.processes[e.p].BeforeAdr? && AdrAccepts(t.adr, t.processes[e.p].adr)
  }

  function LastTake(s: System, events: seq<Event>): Option<nat> {
    if events == [] then None
    else
      var n := |events| - 1;
      if TakesAdr(Steps(s, events[..n]), events[n]) then Some(n) else LastTake(s, events[..n])
  }

  lemma {:induction false} LastTakeIsLast(s: System, events: seq<Event>)
    ensures var last := LastTake(s, events);
            && (last.Some? ==> last.value < |events| && TakesAdr(Steps(s, events[..last.value]), events[last.value]))
            && forall k | 0 <= k < |events| && (last.Some? ==> last.value < k) ::
                 !TakesAdr(Steps(s, events[..k]), events[k])
  {
    hide Steps, TakesAdr;
    if events != [] {
      var n := |events| - 1;
      LastTakeIsLast(s, events[..n]);
      forall k | 0 <= k < n
        ensures events[..n][..k] == events[..k]
      {
      }
    }
  }

  datatype Fate = Halfway | Whole | CutShort

  /** What became of a writer, from what happened after it had replaced the ADR file: it replaced the
      Goal as well, or died first, or neither so far. */
  function FateOf(p: Pid, after: seq<Event>): Fate {
    if after == [] then Halfway
    else NextFate(p, FateOf(p, after[..|after| - 1]), after[|after| - 1])
  }

  function NextFate(p: Pid, fate: Fate, e: Event): Fate {
    if fate != Halfway then fate
    else if e == ReplaceGoal(p) then Whole
    else if e == Die(p) then CutShort
    else Halfway
  }

  /** What the request of a process comes to, once the files are as in `t`. */
  function Offer(s: System, t: System, p: Pid): Option<(Adr, Goal)> {
    if p in s.processes && s.processes[p].Waiting? then Effective(s.processes[p].request, t.adr, t.goal) else None
  }

  /** The Goal file already says what the write has to say. */
  predicate Repeats(file: Option<Goal>, g: Goal) {
    file.Some? && file.value.state == g.state && file.value.sync == g.sync && file.value.updatedAtMs == g.updatedAtMs
  }

  // ---------------------------------------------------------------- what is offered is what was asked for

  predicate OffersOk(s: System, t: System) {
    forall p | p in t.processes ::
      && (t.processes[p].Waiting? ==> p in s.processes && s.processes[p] == t.processes[p])
      && (t.processes[p].BeforeAdr? ==> Offer(s, t, p) == Some((t.processes[p].adr, t.processes[p].goal)))
  }

  lemma StepKeepsOffers(s: System, t: System, e: Event)
    requires Inv(t) && OffersOk(s, t)
    ensures OffersOk(s, Step(t, e))
  {
    hide Effective;
  }

  lemma {:induction false} StepsKeepOffers(s: System, events: seq<Event>)
    requires Initial(s)
    ensures Inv(Steps(s, events)) && OffersOk(s, Steps(s, events))
  {
    StepsKeepInv(s, events);
    if events != [] {
      hide Step, OffersOk, Inv;
      var n := |events| - 1;
      StepsKeepOffers(s, events[..n]);
      StepKeepsOffers(s, Steps(s, events[..n]), events[n]);
    } else {
      hide Effective;
    }
  }

  // ---------------------------------------------------------------- whose write the files hold

  /** What the files hold after process `p` replaced the ADR file in state `before` and nobody after it. */
  predicate Tells(before: System, t: System, p: Pid, a: Adr, g: Goal, fate: Fate) {
    && t.adr == Some(a) && Agree(a, g)
    && p in t.processes
    && (forall q | q in t.processes && q != p && t.processes[q].BeforeGoal? :: !AdrAccepts(t.adr, t.processes[q].adr))
    && match fate
       case Halfway => t.processes[p] == BeforeGoal(a, g) && t.holder == Some(p) && t.goal == before.goal
       case Whole => t.processes[p].Done? && t.goal == Some(g)
       case CutShort => t.processes[p].Done? && (Repeats(before.goal, g) <==> Repeats(t.goal, g))
  }

  lemma TakeTells(s: System, t: System, e: Event)
    requires Inv(t) && OffersOk(s, t) && TakesAdr(t, e)
    ensures var offer := Offer(s, t, e.p);
            offer.Some? && Tells(t, Step(t, e), e.p, offer.value.0, offer.value.1, Halfway)
  {
    hide Offer;
  }

  lemma StepTells(before: System, t: System, p: Pid, a: Adr, g: Goal, fate: Fate, e: Event)
    requires Inv(t) && Tells(before, t, p, a, g, fate) && !TakesAdr(t, e)
    requires Trailing(before.adr, before.goal)
    requires before.adr.Some? ==> NotBefore(AdrKey(a), AdrKey(before.adr.value))
    ensures Tells(before, Step(t, e), p, a, g, NextFate(p, fate, e))
  {
    hide Effective;
    if e.p == p {
      OwnStepTells(before, t, p, a, g, fate, e);
    } else if fate.Halfway? {
      assert Step(t, e).adr == t.adr && Step(t, e).goal == t.goal && Step(t, e).holder == t.holder;
    } else {
      OtherStepTells(before, t, p, a, g, fate, e);
    }
  }

  lemma OwnStepTells(before: System, t: System, p: Pid, a: Adr, g: Goal, fate: Fate, e: Event)
    requires Inv(t) && Tells(before, t, p, a, g, fate) && e.p == p
    requires Trailing(before.adr, before.goal)
    requires before.adr.Some? ==> NotBefore(AdrKey(a), AdrKey(before.adr.value))
    ensures Tells(before, Step(t, e), p, a, g, NextFate(p, fate, e))
  {
    hide Effective;
  }

  lemma OtherStepTells(before: System, t: System, p: Pid, a: Adr, g: Goal, fate: Fate, e: Event)
    requires Inv(t) && Tells(before, t, p, a, g, fate) && e.p != p && !TakesAdr(t, e) && !fate.Halfway?
    ensures Tells(before, Step(t, e), p, a, g, fate)
  {
    hide Effective;
    if e.p in t.processes && t.processes[e.p].BeforeGoal? {
      assert !AdrAccepts(t.adr, t.processes[e.p].adr);
    }
  }

  /** What the run has left in the files, if write `j` is the last that the ADR file took. */
  predicate HoldsWrite(s: System, events: seq<Event>, j: nat)
    requires j < |events|
  {
    var p, before := events[j].p, Steps(s, events[..j]);
    var offer := Offer(s, before, p);
    offer.Some? && Tells(before, Steps(s, events), p, offer.value.0, offer.value.1, FateOf(p, events[j + 1..]))
  }

  /** Whatever happened: the ADR file holds the ADR of the last write it took; the Goal file holds the other
      half of that write if its process got to replace it; and if the process died before, the Goal agrees with the
      ADR exactly if it had said the same already. */
  lemma {:induction false} FilesHoldTheLastWrite(s: System, events: seq<Event>)
    requires Initial(s)
    ensures var t, last := Steps(s, events), LastTake(s, events);
            && (last.None? ==> t.adr.None? && t.goal.None?)
            && (last.Some? ==> last.value < |events| && HoldsWrite(s, events, last.value))
  {
    if events != [] {
      hide Steps, Step, TakesAdr, Inv, Offer, Tells, Trailing, OffersOk, HoldsWrite;
      var n := |events| - 1;
      var front, e := events[..n], events[n];
      FilesHoldTheLastWrite(s, front);
      StepsKeepOffers(s, front);
      LastStep(s, events);
      if TakesAdr(Steps(s, front), e) {
        TakeHolds(s, events);
      } else if LastTake(s, front).Some? {
        StepHolds(s, events, LastTake(s, front).value);
      } else {
        StaysEmpty(Steps(s, front), e);
      }
    }
  }

  lemma TakeHolds(s: System, events: seq<Event>)
    requires events != [] && Inv(Steps(s, events[..|events| - 1])) && OffersOk(s, Steps(s, events[..|events| - 1]))
    requires TakesAdr(Steps(s, events[..|events| - 1]), events[|events| - 1])
    ensures HoldsWrite(s, events, |events| - 1)
  {
    hide Steps, Step, TakesAdr, Inv, Offer, Tells, OffersOk;
    LastStep(s, events);
    TakeTells(s, Steps(s, events[..|events| - 1]), events[|events| - 1]);
  }

  lemma StepHolds(s: System, events: seq<Event>, j: nat)
    requires Initial(s) && events != [] && Inv(Steps(s, events[..|events| - 1]))
    requires !TakesAdr(Steps(s, events[..|events| - 1]), events[|events| - 1])
    requires LastTake(s, events[..|events| - 1]) == Some(j) && j < |events| - 1
               && HoldsWrite(s, events[..|events| - 1], j)
    ensures HoldsWrite(s, events, j)
  {
    hide Steps, Step, TakesAdr, Inv, Offer, Tells, Trailing;
    var n := |events| - 1;
    var front, e := events[..n], events[n];
    assert front[..j] == events[..j];
    assert events[j + 1..][..n - j - 1] == front[j + 1..];
    LastStep(s, events);
    TakenFollows(s, front, j);
    var before, p := Steps(s, events[..j]), events[j].p;
    var offer := Offer(s, before, p).value;
    StepTells(before, Steps(s, front), p, offer.0, offer.1, FateOf(p, front[j + 1..]), e);
  }

  lemma LastStep(s: System, events: seq<Event>)
    requires events != []
    ensures Steps(s, events) == Step(Steps(s, events[..|events| - 1]), events[|events| - 1])
  {
  }

  lemma TakenFollows(s: System, events: seq<Event>, j: nat)
    requires Initial(s) && LastTake(s, events) == Some(j)
    ensures j < |events|
    ensures var before := Steps(s, events[..j]);
            && Trailing(before.adr, before.goal)
            && TakesAdr(before, events[j])
            && Offer(s, before, events[j].p).Some?
            && (before.adr.Some? ==>
                  NotBefore(AdrKey(Offer(s, before, events[j].p).value.0), AdrKey(before.adr.value)))
  {
    hide Steps, Offer;
    LastTakeIsLast(s, events);
    StepsKeepOffers(s, events[..j]);
  }

  lemma StaysEmpty(t: System, e: Event)
    requires Inv(t) && t.adr.None? && t.goal.None? && !TakesAdr(t, e)
    ensures Step(t, e).adr.None? && Step(t, e).goal.None?
  {
    hide Effective;
  }

  // ---------------------------------------------------------------- what a reader is told

  /** The last write the ADR file took was cut short by the death of its process, and had something new to say. */
  predicate LeftHalfWritten(s: System, events: seq<Event>) {
    var last := LastTake(s, events);
    && last.Some? && last.value < |events|
    && var p, before := events[last.value].p, Steps(s, events[..last.value]);
       && FateOf(p, events[last.value + 1..]) == CutShort
       && Offer(s, before, p).Some?
       && !Repeats(before.goal, Offer(s, before, p).value.1)
  }

  /** A reader who gets the lock is refused exactly after such a history. */
  lemma RefusedExactly(s: System, events: seq<Event>)
    requires Initial(s) && Steps(s, events).holder.None?
    ensures var t := Steps(s, events);
            IsRefused(Read(t.adr, t.goal)) <==> LeftHalfWritten(s, events)
  {
    hide Steps, LastTake, FateOf, Offer;
    FilesHoldTheLastWrite(s, events);
  }

  /** What a reader who gets the lock is told: nothing exactly if no write was ever taken, and a state only if
      both files name that state, that provider state and that time. */
  lemma WhatIsRead(s: System, events: seq<Event>)
    requires Initial(s) && Steps(s, events).holder.None?
    ensures var t := Steps(s, events);
            var told := Read(t.adr, t.goal);
            && (told == Absent <==> LastTake(s, events).None?)
            && (told.Incomplete? <==> t.adr.Some? && t.goal.None?)
            && (told.Observed? <==>
                  && t.adr.Some? && t.goal.Some? && t.adr.value.state == t.goal.value.state
                  && t.adr.value.sync == t.goal.value.sync && t.adr.value.updatedAtMs == t.goal.value.updatedAtMs)
            && (told.Observed? ==>
                  && told.state == t.adr.value.state && told.sync == t.adr.value.sync
                  && told.updatedAtMs == t.adr.value.updatedAtMs)
  {
    hide Steps, LastTake, FateOf, Offer, LeftHalfWritten;
    StepsKeepInv(s, events);
    FilesHoldTheLastWrite(s, events);
  }

  /** When nobody dies, that is what the last write taken says, as its request came to at the time. */
  lemma ReadTellsTheLastWrite(s: System, events: seq<Event>)
    requires Initial(s) && NoDeaths(events) && Steps(s, events).holder.None? && LastTake(s, events).Some?
    ensures var t, j := Steps(s, events), LastTake(s, events).value;
            && j < |events|
            && var offer := Offer(s, Steps(s, events[..j]), events[j].p);
               && offer.Some?
               && Read(t.adr, t.goal) == Observed(offer.value.0.state, offer.value.0.sync, offer.value.0.updatedAtMs)
  {
    hide Steps, LastTake, Offer;
    OneWriteInBothFiles(s, events);
    WhatIsRead(s, events);
    ReadAlwaysAvailable(s, events);
  }

  lemma {:induction false} DeathCutsShort(p: Pid, after: seq<Event>)
    ensures FateOf(p, after) == CutShort ==> Die(p) in after
  {
    if after != [] {
      DeathCutsShort(p, after[..|after| - 1]);
    }
  }

  /** When nobody dies, whoever gets the lock finds no file, or the two halves of one write: the last that
      the ADR file took, as its request came to at the time. */
  lemma OneWriteInBothFiles(s: System, events: seq<Event>)
    requires Initial(s) && NoDeaths(events) && Steps(s, events).holder.None?
    ensures var t, last := Steps(s, events), LastTake(s, events);
            if last.None? then t.adr.None? && t.goal.None?
            else
              && last.value < |events| && t.adr.Some? && t.goal.Some?
              && Offer(s, Steps(s, events[..last.value]), events[last.value].p) == Some((t.adr.value, t.goal.value))
  {
    hide Steps, LastTake, FateOf, Offer;
    FilesHoldTheLastWrite(s, events);
    var last := LastTake(s, events);
    if last.Some? {
      var p, after := events[last.value].p, events[last.value + 1..];
      DeathCutsShort(p, after);
      assert Die(p) in after ==> Die(p) in events;
    }
  }

  // ---------------------------------------------------------------- blocker writes in a run

  /** One process writes from beginning to end. */
  function Written(t: System, p: Pid): System {
    Step(Step(Step(t, Acquire(p)), ReplaceAdr(p)), ReplaceGoal(p))
  }

  /** It leaves the files as the writer in place does. */
  lemma WrittenFiles(t: System, p: Pid)
    requires t.holder.None? && p in t.processes && t.processes[p].Waiting?
    ensures var effective, u := Effective(t.processes[p].request, t.adr, t.goal), Written(t, p);
            && u.holder.None? && u.processes == t.processes[p := Done]
            && if effective.None? then u.adr == t.adr && u.goal == t.goal
            else
              && u.adr == (if AdrAccepts(t.adr, effective.value.0) then Some(effective.value.0) else t.adr)
              && u.goal == (if GoalAccepts(t.goal, effective.value.1) then Some(effective.value.1) else t.goal)
  {
    hide Effective, AdrAccepts, GoalAccepts;
  }

  function HigherRank(goal: Option<Goal>, s: GoalState): nat {
    if goal.Some? && Rank(goal.value.state) > Rank(s) then Rank(goal.value.state) else Rank(s)
  }

  /** The Goal on record lets a blocker in: the source is not evicted, and the blocker is no older or reports
      further progress. */
  predicate LetsBlockerIn(goal: Option<Goal>, r: Request) {
    goal.Some? ==>
      && goal.value.state != SourceEvicted
      && (Rank(goal.value.state) < Rank(r.goal.state) || goal.value.updatedAtMs <= r.goal.updatedAtMs)
  }

  predicate MayProceed(adr: Option<Adr>) {
    adr.Some? && "explicit-trash-step-may-proceed" in adr.value.consequences
  }

  /** The Goal says that the source is blocked, and is nowhere rewound. */
  predicate Blocked(goal: Option<Goal>, before: Option<Goal>, r: Request) {
    && goal.Some?
    && GoalKey(goal.value) == Key(HigherRank(before, r.goal.state), r.goal.updatedAtMs)
    && var g := goal.value;
       && g.status == "blocked"
       && "explicit-eviction-permit" in g.gates && !g.gates["explicit-eviction-permit"]
       && (r.sourceBlocker.Some? ==> "source-present" in g.gates && !g.gates["source-present"])
       && (r.providerBlocker.Some? ==>
             "provider-sync-state-complete" in g.gates && !g.gates["provider-sync-state-complete"])
       && forall gate | gate in r.goal.gates.Keys - {PERMIT_GATE, "source-present", "provider-sync-state-complete"} ::
            gate in g.gates && g.gates[gate] == r.goal.gates[gate]
  }

  /** What a blocker write comes to on files of which the Goal is not ahead. */
  lemma BlockerOffersGoal(r: Request, adr: Option<Adr>, goal: Option<Goal>)
    requires Blocks(r) && Trailing(adr, goal)
    ensures var effective := Effective(r, adr, goal);
            if LetsBlockerIn(goal, r) then
              && effective.Some? && GoalAccepts(goal, effective.value.1) && Blocked(Some(effective.value.1), goal, r)
            else effective.Some? ==> !GoalAccepts(goal, effective.value.1)
  {
    hide BlockedDecision, BlockedConsequences;
  }

  /** Whatever deaths there were: the Goal takes a blocker exactly if it lets it in, and says so then. */
  lemma GoalTakesBlocker(s: System, events: seq<Event>, p: Pid)
    requires Initial(s)
    requires var t := Steps(s, events);
             t.holder.None? && p in t.processes && t.processes[p].Waiting? && Blocks(t.processes[p].request)
    ensures var t := Steps(s, events);
            var r, u := t.processes[p].request, Written(t, p);
            if LetsBlockerIn(t.goal, r) then Blocked(u.goal, t.goal, r) else u.goal == t.goal
  {
    hide Steps, Step, Written, Effective, Blocked;
    var t := Steps(s, events);
    StepsKeepInv(s, events);
    WrittenFiles(t, p);
    BlockerOffersGoal(t.processes[p].request, t.adr, t.goal);
  }

  /** When nobody dies: a blocker write takes effect in both files, which then agree and give no leave to
      proceed, or changes neither; which it is can be told from the Goal on record. */
  lemma BlockerTakesEffect(s: System, events: seq<Event>, p: Pid)
    requires Initial(s) && NoDeaths(events)
    requires var t := Steps(s, events);
             t.holder.None? && p in t.processes && t.processes[p].Waiting? && Blocks(t.processes[p].request)
    ensures var t := Steps(s, events);
            var r, u := t.processes[p].request, Written(t, p);
            if LetsBlockerIn(t.goal, r) then
              && Blocked(u.goal, t.goal, r)
              && u.adr.Some? && Agree(u.adr.value, u.goal.value) && !MayProceed(u.adr)
            else u.adr == t.adr && u.goal == t.goal
  {
    hide Steps, Step, Written, Effective, Blocked, AdrAccepts, GoalAccepts;
    var t := Steps(s, events);
    var r := t.processes[p].request;
    StepsKeepInv(s, events);
    WrittenFiles(t, p);
    BlockerOffersGoal(r, t.adr, t.goal);
    EffectiveAgrees(r, t.adr, t.goal);
    var effective := Effective(r, t.adr, t.goal);
    if effective.Some? {
      BothAcceptOrBothRefuse(s, events, effective.value.0, effective.value.1);
      EffectiveForbids(r, t.adr, t.goal);
    }
  }

  lemma EffectiveForbids(r: Request, adr: Option<Adr>, goal: Option<Goal>)
    requires Blocks(r) && Effective(r, adr, goal).Some?
    ensures !MayProceed(Some(Effective(r, adr, goal).value.0))
  {
    hide BlockedGoal, BlockedDecision, BlockedConsequences;
    BlockedConsequencesForbid(r);
  }

  /** The ADR on record outlives the blocker: it is ahead of what the Goal on record and the blocker say, or
      as far and newer than the blocker. */
  predicate AdrOutlives(adr: Adr, goal: Option<Goal>, r: Request) {
    var rank := HigherRank(goal, r.goal.state);
    Rank(adr.state) > rank || (Rank(adr.state) == rank && adr.updatedAtMs > r.adr.updatedAtMs)
  }

  /** Whatever deaths there were: after a blocker write the ADR gives leave to proceed exactly if it did before
      and the source is evicted in the Goal or the ADR outlives the blocker. */
  lemma LeaveSurvivesExactly(s: System, events: seq<Event>, p: Pid)
    requires Initial(s)
    requires var t := Steps(s, events);
             t.holder.None? && p in t.processes && t.processes[p].Waiting? && Blocks(t.processes[p].request)
    ensures var t := Steps(s, events);
            MayProceed(Written(t, p).adr) <==>
              && MayProceed(t.adr)
              && ((t.goal.Some? && t.goal.value.state == SourceEvicted)
                  || AdrOutlives(t.adr.value, t.goal, t.processes[p].request))
  {
    hide Steps, Step, Written, BlockedGoal, BlockedDecision, BlockedConsequences;
    var t := Steps(s, events);
    StepsKeepInv(s, events);
    WrittenFiles(t, p);
    BlockedConsequencesForbid(t.processes[p].request);
  }

  /** Leave that survives in the ADR while the Goal takes the blocker is never told a reader: the pair was
      refused before the write and is refused after it. */
  lemma SurvivingLeaveIsRefused(s: System, events: seq<Event>, p: Pid)
    requires Initial(s)
    requires var t := Steps(s, events);
             t.holder.None? && p in t.processes && t.processes[p].Waiting? && Blocks(t.processes[p].request)
    requires var t := Steps(s, events);
             LetsBlockerIn(t.goal, t.processes[p].request) && MayProceed(Written(t, p).adr)
    ensures var t := Steps(s, events);
            var u := Written(t, p);
            && IsRefused(Read(t.adr, t.goal)) && IsRefused(Read(u.adr, u.goal))
  {
    hide Steps, Step, Written, BlockedDecision, BlockedConsequences;
    var t := Steps(s, events);
    StepsKeepInv(s, events);
    WrittenFiles(t, p);
    BlockedConsequencesForbid(t.processes[p].request);
  }

  // ---------------------------------------------------------------- runs that show it

  /** A whole write of one process, and one that its death cuts short between the two replacements. */
  function WholeWrite(p: Pid): seq<Event> {
    [Acquire(p), ReplaceAdr(p), ReplaceGoal(p)]
  }

  function WriteCutShort(p: Pid): seq<Event> {
    [Acquire(p), ReplaceAdr(p), Die(p)]
  }

  lemma StepsOfThree(s: System, events: seq<Event>, a: Event, b: Event, c: Event)
    ensures Steps(s, events + [a, b, c]) == Step(Step(Step(Steps(s, events), a), b), c)
  {
    hide Steps, Step;
    var all, n := events + [a, b, c], |events|;
    LastStep(s, all);
    LastStep(s, all[..n + 2]);
    LastStep(s, all[..n + 1]);
    assert all[..n + 2][..n + 1] == all[..n + 1] && all[..n + 1][..n] == events;
  }

  lemma CutShortFiles(t: System, p: Pid)
    requires t.holder.None? && p in t.processes && t.processes[p].Waiting? && !Blocks(t.processes[p].request)
    ensures var u, r := Step(Step(Step(t, Acquire(p)), ReplaceAdr(p)), Die(p)), t.processes[p].request;
            && u.holder.None? && u.processes == t.processes[p := Done] && u.goal == t.goal
            && u.adr == if AdrAccepts(t.adr, r.adr) then Some(r.adr) else t.adr
  {
    hide AdrAccepts;
  }

  /** The snapshots of a state reached at a time, with nothing else of interest in them. */
  function Plain(state: GoalState, sync: SyncState, time: nat, consequences: seq<string>,
                 sourceBlocker: Option<string>): Request {
    Request(Adr(state, sync, false, [], DecisionFor(state, sync), consequences, None, time),
            Goal("active", state, sync, map[], None, time), sourceBlocker, None)
  }

  function Writers(requests: seq<Request>): System {
    System(None, None, None, map p: nat | p < |requests| :: Waiting(requests[p]))
  }

  /** A first write completes and a second dies halfway. */
  lemma SecondCutShort(s: System)
    requires s.adr.None? && s.goal.None? && s.holder.None? && 0 in s.processes && 1 in s.processes
    requires s.processes[0].Waiting? && !Blocks(s.processes[0].request)
    requires s.processes[1].Waiting? && !Blocks(s.processes[1].request)
    ensures var t, first, second :=
              Steps(s, WholeWrite(0) + WriteCutShort(1)), s.processes[0].request, s.processes[1].request;
            && t.holder.None? && t.processes == s.processes[0 := Done][1 := Done] && t.goal == Some(first.goal)
            && t.adr == Some(if AdrAccepts(Some(first.adr), second.adr) then second.adr else first.adr)
  {
    hide Step;
    StepsOfThree(s, [], Acquire(0), ReplaceAdr(0), ReplaceGoal(0));
    StepsOfThree(s, WholeWrite(0), Acquire(1), ReplaceAdr(1), Die(1));
    assert [] + WholeWrite(0) == WholeWrite(0) && Steps(s, []) == s;
    WrittenFiles(s, 0);
    CutShortFiles(Written(s, 0), 1);
  }

  /** Two writes of one state and time: the second dies halfway, and the files name different provider states. */
  lemma DeathLeavesTwoSyncs()
    ensures var s := Writers([Plain(PendingProviderSync, PendingUpload, 5, [], None),
                              Plain(PendingProviderSync, Uploading, 5, [], None)]);
            var t := Steps(s, WholeWrite(0) + WriteCutShort(1));
            && Initial(s) && t.holder.None? && t.adr.Some? && t.goal.Some?
            && AdrKey(t.adr.value) == GoalKey(t.goal.value)
            && t.adr.value.sync == Uploading && t.goal.value.sync == PendingUpload
            && IsRefused(Read(t.adr, t.goal))
  {
    var s := Writers([Plain(PendingProviderSync, PendingUpload, 5, [], None),
                      Plain(PendingProviderSync, Uploading, 5, [], None)]);
    hide Steps, Step, DecisionFor;
    SecondCutShort(s);
  }

  /** A permit dies halfway into the files, a source blocker comes after it: the Goal takes the blocker, and the ADR
      still gives leave to proceed. */
  lemma BlockerMissesAdr()
    ensures var s := Writers([Plain(CopyVerified, Unknown, 1, [], None),
                              Plain(EvictionReady, Complete, 2, [MAY_PROCEED], None),
                              Plain(PendingProviderSync, Uploading, 3, [], Some("missing"))]);
            var t := Steps(s, WholeWrite(0) + WriteCutShort(1));
            var u := Steps(s, WholeWrite(0) + WriteCutShort(1) + WholeWrite(2));
            && Initial(s) && t.holder.None? && 2 in t.processes && t.processes[2].Waiting?
               && Blocks(t.processes[2].request)
            && u.goal.Some? && u.goal.value.status == "blocked" && u.goal.value.updatedAtMs == 3
            && u.adr == t.adr && MayProceed(u.adr) && u.adr.value.decision == "source-eviction-permit-issued"
  {
    hide Steps, Step, BlockedDecision, BlockedConsequences;
    var s := Writers([Plain(CopyVerified, Unknown, 1, [], None), Plain(EvictionReady, Complete, 2, [MAY_PROCEED], None),
                      Plain(PendingProviderSync, Uploading, 3, [], Some("missing"))]);
    SecondCutShort(s);
    StepsOfThree(s, WholeWrite(0) + WriteCutShort(1), Acquire(2), ReplaceAdr(2), ReplaceGoal(2));
    WrittenFiles(Steps(s, WholeWrite(0) + WriteCutShort(1)), 2);
  }
}
