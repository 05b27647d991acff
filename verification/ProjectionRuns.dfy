/** What the projections keep when writers interleave and may die at any step: no file goes back, and the
    Goal never gets ahead of the ADR.  What the texts of blocker writes say is proved first. */
module ProjectionRuns {
  import opened Lists
  import opened Optional
  import opened Projections

  // ---------------------------------------------------------------- acceptance and blockers

  /** The order of progress. */
  lemma ProgressOrder()
    ensures Rank(CopyVerified) < Rank(PendingProviderSync) < Rank(ProviderSyncConfirmed) < Rank(EvictionReady)
            < Rank(SourceEvicted)
  {
  }

  /** It accepts exactly what is not lexicographically earlier. */
  lemma RegressesIsEarlier(previous: GoalState, previousTime: nat, incoming: GoalState, incomingTime: nat)
    ensures Regresses(previous, previousTime, incoming, incomingTime)
       <==> !NotBefore(Key(Rank(incoming), incomingTime), Key(Rank(previous), previousTime))
  {
  }

  const WAITING := "retain-source-provider-state-"

  lemma DecisionTexts(sync: SyncState)
    ensures DecisionFor(CopyVerified, sync) == "retain-source-after-copy"
    ensures DecisionFor(PendingProviderSync, sync) == WAITING + SyncName(sync)
    ensures DecisionFor(ProviderSyncConfirmed, sync) == "retain-source-eviction-gate-pending"
    ensures DecisionFor(EvictionReady, sync) == "source-eviction-permit-issued"
    ensures DecisionFor(SourceEvicted, sync) == "source-moved-to-os-trash"
  {
  }

  /** A character by which the texts can be told apart. */
  lemma DecisionMarks(s: GoalState, sync: SyncState)
    ensures var text := DecisionFor(s, sync);
            && |text| > 14
            && (text[0], text[7], text[14]) == match s
               case CopyVerified => ('r', 's', 'a')
               case PendingProviderSync => ('r', 's', 'p')
               case ProviderSyncConfirmed => ('r', 's', 'e')
               case EvictionReady => ('s', 'e', 'n')
               case SourceEvicted => ('s', 'm', 'o')
  {
  }

  /** The decision text tells the state, and for one that waits for the provider what it waits for. */
  lemma DecisionTellsState(s: GoalState, sync: SyncState, s': GoalState, sync': SyncState)
    requires DecisionFor(s, sync) == DecisionFor(s', sync')
    ensures s == s' && (s == PendingProviderSync ==> sync == sync')
  {
    hide DecisionFor, SyncName;
    DecisionMarks(s, sync);
    DecisionMarks(s', sync');
    if s == s' == PendingProviderSync {
      DecisionTexts(sync);
      DecisionTexts(sync');
      assert (WAITING + SyncName(sync))[|WAITING|..] == SyncName(sync);
      assert (WAITING + SyncName(sync'))[|WAITING|..] == SyncName(sync');
      SyncNamesDiffer(sync, sync');
    }
  }

  lemma SyncNamesDiffer(a: SyncState, b: SyncState)
    requires SyncName(a) == SyncName(b)
    ensures a == b
  {
    assert SyncName(Complete)[0] == 'c' && SyncName(ContentMismatch)[2] == 'n' && SyncName(Complete)[2] == 'm';
    assert SyncName(PendingUpload)[0] == 'p' && SyncName(NotUbiquitous)[0] == 'n'
             && SyncName(NotLocalCurrent)[0] == 'n';
    assert SyncName(NotUbiquitous)[4] == 'u' && SyncName(NotLocalCurrent)[4] == 'l' && SyncName(Uploading)[0] == 'u';
    assert SyncName(Uploading)[1] == 'p' && SyncName(Unknown)[1] == 'n' && SyncName(ExcludedFromSync)[0] == 'e';
    assert SyncName(SyncPaused)[0] == 's' && SyncName(RemoteUnavailable)[0] == 'r'
             && SyncName(ContentMismatch)[0] == 'c';
  }

  lemma PushUniqueKeeps(values: seq<string>, value: string, other: string)
    requires other !in values && other != value
    ensures other !in PushUnique(values, value)
  {
  }

  lemma BlockedConsequencesForbid(r: Request)
    ensures MAY_PROCEED !in BlockedConsequences(r)
  {
    var kept := Without(r.adr.consequences, MAY_PROCEED);
    var source := "source-state-blocked:" + if r.sourceBlocker.Some? then r.sourceBlocker.value else "";
    var provider := "provider-state-blocked:" + if r.providerBlocker.Some? then r.providerBlocker.value else "";
    assert MAY_PROCEED[0] == 'e' && source[0] == 's' && provider[0] == 'p';
    assert MAY_PROCEED[1] == 'x' && "eviction-blocked-until-source-state"[1] == 'v';
    assert "eviction-blocked-until-provider-proof"[1] == 'v';
    PushUniqueKeeps(kept, source, MAY_PROCEED);
    PushUniqueKeeps(PushUnique(kept, source), "eviction-blocked-until-source-state", MAY_PROCEED);
    var withSource := if r.sourceBlocker.Some?
          then PushUnique(PushUnique(kept, source), "eviction-blocked-until-source-state") else kept;
    PushUniqueKeeps(withSource, provider, MAY_PROCEED);
    PushUniqueKeeps(PushUnique(withSource, provider), "eviction-blocked-until-provider-proof", MAY_PROCEED);
  }

  /** The decision text of a blocked ADR still begins with the issued permit exactly when no source
      blocker is given and the recorded state is the one that issued it. */
  lemma BlockedDecisionNamesPermit(r: Request, s: GoalState)
    requires Blocks(r)
    ensures DecisionFor(EvictionReady, r.adr.sync) <= BlockedDecision(r, s) <==>
              r.sourceBlocker.None? && s == EvictionReady
  {
    var permit := DecisionFor(EvictionReady, r.adr.sync);
    assert permit[0] == 's' && permit[7] == 'e';
    assert "retain"[0] == 'r' && DecisionFor(SourceEvicted, r.adr.sync)[7] == 'm';
    var decision := BlockedDecision(r, s);
    var decisionState := if r.sourceBlocker.Some? && Rank(s) >= Rank(ProviderSyncConfirmed) then ProviderSyncConfirmed
          else s;
    assert decision[0] == DecisionFor(decisionState, r.adr.sync)[0];
    assert decisionState == SourceEvicted ==> decision[7] == 'm';
  }

  // ---------------------------------------------------------------- interleaved writers

  type Pid = nat

  datatype Process =
    | Waiting(request: Request)
    | BeforeAdr(adr: Adr, goal: Goal)
    | BeforeGoal(adr: Adr, goal: Goal)
    | Done

  /** The two files, the holder of the receipt's lock, and the writers. */
  datatype System = System(adr: Option<Adr>, goal: Option<Goal>, holder: Option<Pid>, processes: map<Pid, Process>)

  datatype Event = Acquire(p: Pid) | ReplaceAdr(p: Pid) | ReplaceGoal(p: Pid) | Die(p: Pid)

  /** One step of one process; a step that is not enabled changes nothing.  The last replacement
      releases the lock, and so does the death of its holder. */
  function Step(s: System, e: Event): System {
    if e.p !in s.processes then s
    else
      var process := s.processes[e.p];
      match e
      case Acquire(p) =>
        if s.holder.Some? || !process.Waiting? then s
        else
          var write := Effective(process.request, s.adr, s.goal);
          if write.None? then s.(processes := s.processes[p := Done])
          else s.(holder := Some(p), processes := s.processes[p := BeforeAdr(write.value.0, write.value.1)])
      case ReplaceAdr(p) =>
        if !process.BeforeAdr? then s
        else
          s.(adr := if AdrAccepts(s.adr, process.adr) then Some(process.adr) else s.adr,
             processes := s.processes[p := BeforeGoal(process.adr, process.goal)])
      case ReplaceGoal(p) =>
        if !process.BeforeGoal? then s
        else
          s.(goal := if GoalAccepts(s.goal, process.goal) then Some(process.goal) else s.goal,
             holder := None, processes := s.processes[p := Done])
      case Die(p) =>
        s.(holder := if s.holder == Some(p) then None else s.holder, processes := s.processes[p := Done])
  }

  function Steps(s: System, events: seq<Event>): System {
    if events == [] then s else Step(Steps(s, events[..|events| - 1]), events[|events| - 1])
  }

  /** No files yet, nobody in, every request's ADR and Goal in agreement. */
  predicate Initial(s: System) {
    && s.adr.None? && s.goal.None? && s.holder.None?
    && forall p | p in s.processes ::
         s.processes[p].Done?
         || (s.processes[p].Waiting? && Agree(s.processes[p].request.adr, s.processes[p].request.goal))
  }

  /** The Goal file never gets ahead of the ADR file. */
  predicate Trailing(adr: Option<Adr>, goal: Option<Goal>) {
    goal.Some? ==>
      adr.Some? && NotBefore(AdrKey(adr.value), GoalKey(goal.value))
  }

  predicate InStep(adr: Option<Adr>, goal: Option<Goal>) {
    adr.Some? == goal.Some? && (adr.Some? ==> Agree(adr.value, goal.value))
  }

  /** What a process in each position knows about the files. */
  predicate ProcessOk(s: System, p: Pid)
    requires p in s.processes
  {
    match s.processes[p]
    case Waiting(request) => Agree(request.adr, request.goal)
    case BeforeAdr(a, g) => s.holder == Some(p) && Agree(a, g)
    case BeforeGoal(a, g) => s.holder == Some(p) && Agree(a, g) && (s.adr == Some(a) || !AdrAccepts(s.adr, a))
    case Done => s.holder != Some(p)
  }

  predicate Inv(s: System) {
    && Trailing(s.adr, s.goal)
    && (s.holder.Some? ==> s.holder.value in s.processes && !s.processes[s.holder.value].Waiting?)
    && forall p | p in s.processes :: ProcessOk(s, p)
  }

  /** Without deaths: the files are in step except between the two replacements, and there the
      ADR is the new one and the Goal will take its partner, or both refuse. */
  predicate CrashFree(s: System) {
    if s.holder.Some? && s.holder.value in s.processes && s.processes[s.holder.value].BeforeGoal? then
      var w := s.processes[s.holder.value];
      || (s.adr == Some(w.adr) && GoalAccepts(s.goal, w.goal))
      || (InStep(s.adr, s.goal) && !AdrAccepts(s.adr, w.adr))
    else InStep(s.adr, s.goal)
  }

  predicate NoDeaths(events: seq<Event>) {
    forall e | e in events :: !e.Die?
  }

  lemma EffectiveAgrees(r: Request, adr: Option<Adr>, goal: Option<Goal>)
    requires Agree(r.adr, r.goal)
    ensures Effective(r, adr, goal).Some? ==> Agree(Effective(r, adr, goal).value.0, Effective(r, adr, goal).value.1)
  {
    hide BlockedConsequences, BlockedDecision;
  }

  lemma StepKeepsInv(s: System, e: Event)
    requires Inv(s)
    ensures Inv(Step(s, e))
  {
    hide Effective;
    if e.p in s.processes && s.processes[e.p].Waiting? {
      EffectiveAgrees(s.processes[e.p].request, s.adr, s.goal);
    }
  }

  lemma StepKeepsCrashFree(s: System, e: Event)
    requires Inv(s) && CrashFree(s) && !e.Die?
    ensures CrashFree(Step(s, e))
  {
    hide Effective;
    if e.p in s.processes && s.processes[e.p].Waiting? {
      EffectiveAgrees(s.processes[e.p].request, s.adr, s.goal);
    }
  }

  /** Neither file ever goes back. */
  lemma StepIsMonotone(s: System, e: Event)
    requires Inv(s)
    ensures s.adr.Some? ==> Step(s, e).adr.Some? && NotBefore(AdrKey(Step(s, e).adr.value), AdrKey(s.adr.value))
    ensures s.goal.Some? ==> Step(s, e).goal.Some? && NotBefore(GoalKey(Step(s, e).goal.value), GoalKey(s.goal.value))
  {
    hide Effective;
  }

  // ---------------------------------------------------------------- main results

  lemma {:induction false} StepsKeepInv(s: System, events: seq<Event>)
    requires Initial(s)
    ensures Inv(Steps(s, events))
    ensures NoDeaths(events) ==> CrashFree(Steps(s, events))
  {
    hide Step;
    if events != [] {
      var n := |events| - 1;
      StepsKeepInv(s, events[..n]);
      StepKeepsInv(Steps(s, events[..n]), events[n]);
      if NoDeaths(events) {
        StepKeepsCrashFree(Steps(s, events[..n]), events[n]);
      }
    }
  }

  /** When nobody dies, whoever gets the lock finds both files or neither, and in agreement. */
  lemma ReadAlwaysAvailable(s: System, events: seq<Event>)
    requires Initial(s) && NoDeaths(events) && Steps(s, events).holder.None?
    ensures !IsRefused(Read(Steps(s, events).adr, Steps(s, events).goal))
  {
    hide Steps;
    StepsKeepInv(s, events);
  }

  /** Then both files take a write, or both refuse it. */
  lemma BothAcceptOrBothRefuse(s: System, events: seq<Event>, a: Adr, g: Goal)
    requires Initial(s) && NoDeaths(events) && Steps(s, events).holder.None? && Agree(a, g)
    ensures AdrAccepts(Steps(s, events).adr, a) <==> GoalAccepts(Steps(s, events).goal, g)
  {
    hide Steps;
    StepsKeepInv(s, events);
  }

  /** In no run does either file go back. */
  lemma {:induction false} FilesAreMonotone(s: System, events: seq<Event>, more: seq<Event>)
    requires Initial(s)
    ensures var t, u := Steps(s, events), Steps(s, events + more);
            && (t.adr.Some? ==> u.adr.Some? && NotBefore(AdrKey(u.adr.value), AdrKey(t.adr.value)))
            && (t.goal.Some? ==> u.goal.Some? && NotBefore(GoalKey(u.goal.value), GoalKey(t.goal.value)))
    decreases |more|
  {
    if more == [] {
      assert events + more == events;
    } else {
      hide Step;
      var n := |more| - 1;
      FilesAreMonotone(s, events, more[..n]);
      assert (events + more)[..|events + more| - 1] == events + more[..n];
      StepsKeepInv(s, events + more[..n]);
      StepIsMonotone(Steps(s, events + more[..n]), more[n]);
    }
  }

  /** An evicted source stays evicted in both files, whatever is written afterwards. */
  lemma EvictedIsAbsorbing(s: System, events: seq<Event>, more: seq<Event>)
    requires Initial(s)
    ensures var t, u := Steps(s, events), Steps(s, events + more);
            && (t.adr.Some? && t.adr.value.state == SourceEvicted ==> u.adr.Some? && u.adr.value.state == SourceEvicted)
            && (t.goal.Some? && t.goal.value.state == SourceEvicted ==>
                u.goal.Some? && u.goal.value.state == SourceEvicted)
  {
    hide Steps;
    FilesAreMonotone(s, events, more);
  }

  /** After any deaths, a write that the ADR file takes and that completes puts the files back in
      agreement. */
  lemma CompletedWriteHeals(s: System, events: seq<Event>, p: Pid)
    requires Initial(s)
    requires var t := Steps(s, events);
             p in t.processes && t.processes[p].BeforeAdr? && AdrAccepts(t.adr, t.processes[p].adr)
    ensures var t := Steps(s, events);
            var u := Step(Step(t, ReplaceAdr(p)), ReplaceGoal(p));
            && u.adr == Some(t.processes[p].adr) && u.goal == Some(t.processes[p].goal)
            && Read(u.adr, u.goal).Observed? && u.holder.None?
  {
    hide Steps;
    StepsKeepInv(s, events);
  }

  /** A blocker that finds an evicted source in the Goal, with both files there, writes nothing. */
  lemma BlockerLeavesEvicted(s: System, p: Pid)
    requires s.holder.None? && p in s.processes && s.processes[p].Waiting? && Blocks(s.processes[p].request)
    ensures LeavesEvicted(s.adr, s.goal) <==>
              Step(s, Acquire(p)) == s.(processes := s.processes[p := Done])
  {
    hide BlockedConsequences, BlockedDecision, BlockedGoal;
    assert !LeavesEvicted(s.adr, s.goal) ==> Step(s, Acquire(p)).processes[p].BeforeAdr?;
    assert s.(processes := s.processes[p := Done]).processes[p].Done?;
  }
}
