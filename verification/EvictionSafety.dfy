/** What eviction keeps over every sequence of calls, whatever fails in them and wherever each is cut short. */
module EvictionSafety {
  import opened Eviction
  import opened Optional
  import opened Text

  // ---------------------------------------------------------------- the file is never lost

  predicate Undisturbing(attempts: seq<Attempt>, r: Receipt) {
    forall a | a in attempts :: a.before.None? && Undisturbed(a.world) && a.call.receipt == r
  }

  /** The file is in exactly one of the three places. */
  predicate InOnePlace(d: Disk, f: Entry) {
    || (d.source == Some(f) && d.Staged().None? && d.trash == [])
    || (d.source.None? && d.Staged() == Some(f) && d.trash == [])
    || (d.source.None? && d.staging.None? && d.trash == [f])
  }

  predicate GoodIntent(i: Intent, f: Entry, r: Receipt) {
    && i.id == i.fields && i.fields.version == RECORD_VERSION && i.fields.binding == BindingOf(r)
    && Verify(Some(f), r, Some(i.fields.identity)).Ok?
  }

  predicate Consistent(d: Disk, f: Entry, r: Receipt) {
    && InOnePlace(d, f)
    && (d.staging.Some? ==> !d.staging.value.unexpected && d.intent.Some?)
    && (d.intent.None? || d.intent.value.Partial? ==> d.source == Some(f) && d.staging.None? && d.completion.None?)
    && (d.intent.Some? && d.intent.value.Sealed? ==> GoodIntent(d.intent.value.value, f, r))
    && (d.completion.Some? ==> d.trash == [f])
    && (d.completion.Some? && d.completion.value.Sealed? ==>
          CompletionRefusal(d.completion.value.value, d.intent.value.value).None?)
  }

  predicate AllConsistent(trace: seq<Disk>, f: Entry, r: Receipt) {
    forall k :: 0 <= k < |trace| ==> Consistent(trace[k], f, r)
  }

  lemma CompleteKeeps(d: Disk, intent: Intent, c: Call, w: World, f: Entry, reconciled: bool)
    requires Consistent(d, f, c.receipt) && d.trash == [f]
    requires d.intent == Some(Sealed(intent))
    ensures AllConsistent(Complete(d, intent, c, w, reconciled).trace, f, c.receipt)
  {
  }

  lemma DisposeKeeps(d: Disk, intent: Intent, c: Call, w: World, f: Entry)
    requires Consistent(d, f, c.receipt) && Undisturbed(w)
    requires d.intent == Some(Sealed(intent)) && d.Staged() == Some(f) && d.completion.None?
    ensures AllConsistent(Dispose(d, intent, c, w).trace, f, c.receipt)
  {
    hide Verify, Complete, CompletionRefusal, GoodIntent;
    var trashed := d.(staging := None, trash := [f]);
    assert d.trash + [f] == [f];
    assert Consistent(trashed, f, c.receipt);
    CompleteKeeps(trashed, intent, c, w, f, false);
  }

  lemma RenameKeeps(d: Disk, intent: Intent, c: Call, w: World, f: Entry)
    requires Consistent(d, f, c.receipt) && Undisturbed(w)
    requires d.intent == Some(Sealed(intent)) && d.source == Some(f) && d.completion.None?
    ensures AllConsistent(Rename(d, intent, c, w).trace, f, c.receipt)
  {
    hide Verify, Dispose, PutBack, CompletionRefusal;
    if d.staging.Some? {
      var staged := d.(source := None, staging := Some(Staging(d.source, d.staging.value.unexpected)));
      assert Consistent(staged, f, c.receipt);
      DisposeKeeps(staged, intent, c, w, f);
    }
  }

  lemma StageKeeps(d: Disk, intent: Intent, c: Call, w: World, f: Entry)
    requires Consistent(d, f, c.receipt) && Undisturbed(w)
    requires d.intent == Some(Sealed(intent)) && d.source == Some(f) && d.completion.None?
    ensures AllConsistent(Stage(d, intent, c, w).trace, f, c.receipt)
  {
    hide Verify, Rename, CompletionRefusal, GoodIntent;
    RenameKeeps(d, intent, c, w, f);
    if d.staging.None? {
      var created := d.(staging := Some(Staging(None, false)));
      assert Consistent(created, f, c.receipt);
      RenameKeeps(created, intent, c, w, f);
    }
  }

  lemma ProceedKeeps(d: Disk, intent: Intent, c: Call, w: World, f: Entry)
    requires Consistent(d, f, c.receipt) && Undisturbed(w)
    requires d.intent == Some(Sealed(intent))
    ensures AllConsistent(Proceed(d, intent, c, w).trace, f, c.receipt)
  {
    hide Stage, Dispose, Complete, CompletionRefusal, GoodIntent;
    if d.completion.None? {
      if d.source.Some? {
        StageKeeps(d, intent, c, w, f);
      } else if d.Staged().Some? {
        DisposeKeeps(d, intent, c, w, f);
      } else {
        CompleteKeeps(d, intent, c, w, f, true);
      }
    }
  }

  /** Whatever fails within a call, as long as no outside writer touches the source path, every
      disk it leaves is consistent. */
  lemma CallKeepsConsistent(d: Disk, c: Call, w: World, f: Entry)
    requires Consistent(d, f, c.receipt) && Undisturbed(w)
    ensures AllConsistent(Run(d, c, w).trace, f, c.receipt)
  {
    hide Proceed, Refusal, CompletionRefusal;
    if d.intent.Some? && d.intent.value.Sealed? {
      ProceedKeeps(d, d.intent.value.value, c, w, f);
    } else if d.intent.None? && Verify(d.source, c.receipt, None).Ok? {
      var intent := NewIntent(c, Verify(d.source, c.receipt, None).identity);
      var d1 := d.(intent := Some(Sealed(intent)));
      assert Consistent(d1, f, c.receipt);
      ProceedKeeps(d1, intent, c, w, f);
    }
  }

  lemma HalfWrittenKeeps(before: Disk, after: Disk, f: Entry, r: Receipt)
    requires Consistent(before, f, r) && Consistent(after, f, r)
    ensures Consistent(HalfWritten(before, after), f, r)
  {
    hide CompletionRefusal, GoodIntent;
  }

  /** No outside writer: after every sequence of calls, whatever fails in them and wherever each is
      cut short, the file is in exactly one of source, staging and trash; there is no staging
      directory without an intent; and an intent whose file is at neither path has it in the trash. */
  lemma {:induction false} NeverLost(f: Entry, r: Receipt, attempts: seq<Attempt>)
    requires Undisturbing(attempts, r)
    ensures Consistent(Replay(Untouched(Some(f)), attempts), f, r)
  {
    if attempts != [] {
      var n := |attempts| - 1;
      NeverLost(f, r, attempts[..n]);
      AttemptKeeps(Replay(Untouched(Some(f)), attempts[..n]), attempts[n], f);
    }
  }

  lemma AttemptKeeps(d: Disk, a: Attempt, f: Entry)
    requires a.before.None? && Undisturbed(a.world) && Consistent(d, f, a.call.receipt)
    ensures Consistent(After(d, a), f, a.call.receipt)
  {
    hide Run, Consistent;
    CallKeepsConsistent(d, a.call, a.world, f);
    assert Disturbed(d, a.before) == d;
    var o := Run(d, a.call, a.world);
    if a.halfWritten && a.survived < |o.trace| {
      HalfWrittenKeeps(DiskAfter(d, o, a.survived), o.trace[a.survived], f, a.call.receipt);
    }
  }

  /** What makes the reconciling branch sound. */
  lemma MissingMeansTrashed(f: Entry, r: Receipt, attempts: seq<Attempt>)
    requires Undisturbing(attempts, r)
    ensures var d := Replay(Untouched(Some(f)), attempts);
            d.intent.Some? && d.source.None? && d.Staged().None? ==> d.trash == [f]
  {
    NeverLost(f, r, attempts);
  }

  // ---------------------------------------------------------------- resumption

  predicate NoPartialRecord(d: Disk) {
    d.intent != Some(Partial) && d.completion != Some(Partial)
  }

  /** Attempts that repeat one call, at any times. */
  predicate Repeats(attempts: seq<Attempt>, c: Call) {
    forall a | a in attempts :: a.before.None? && Undisturbed(a.world) && a.call == c.(nowMs := a.call.nowMs)
  }

  /** The intent on disk, if readable, is one this call accepts. */
  predicate IntentAccepts(d: Disk, c: Call) {
    d.intent.Some? && d.intent.value.Sealed? ==> IntentRefusal(d.intent.value.value, c).None?
  }

  /** Past the intent, a call changes no intent and leaves no completion it did not finish. */
  predicate RecordsKept(d: Disk, trace: seq<Disk>) {
    forall k :: 0 <= k < |trace| ==>
      trace[k].intent == d.intent && (trace[k].completion == Some(Partial) ==> d.completion == Some(Partial))
  }

  /** Everything trashed had the receipt's size, time and digests and the intent's identity. */
  predicate TrashVerified(d: Disk, r: Receipt) {
    && (d.intent.None? || d.intent.value.Partial? ==> d.trash == [] && d.completion.None?)
    && (d.intent.Some? && d.intent.value.Sealed? ==>
          forall x | x in d.trash :: Verify(Some(x), r, Some(d.intent.value.value.fields.identity)).Ok?)
  }

  /** Past the intent, a call keeps the records, and trashes nothing it did not verify. */
  predicate PastIntent(d: Disk, trace: seq<Disk>, r: Receipt) {
    RecordsKept(d, trace) && (TrashVerified(d, r) ==> forall k :: 0 <= k < |trace| ==> TrashVerified(trace[k], r))
  }

  lemma DisposeKeepsRecords(d: Disk, intent: Intent, c: Call, w: World)
    requires d.intent == Some(Sealed(intent))
    ensures PastIntent(d, Dispose(d, intent, c, w).trace, c.receipt)
  {
  }

  lemma RenameKeepsRecords(d: Disk, intent: Intent, c: Call, w: World)
    requires d.intent == Some(Sealed(intent))
    ensures PastIntent(d, Rename(d, intent, c, w).trace, c.receipt)
  {
    hide Verify, Dispose;
    if d.source.Some? && d.staging.Some? {
      var staged := d.(source := None, staging := Some(Staging(d.source, d.staging.value.unexpected)));
      assert TrashVerified(d, c.receipt) ==> TrashVerified(staged, c.receipt);
      DisposeKeepsRecords(staged, intent, c, w);
    }
  }

  lemma ProceedKeepsRecords(d: Disk, intent: Intent, c: Call, w: World)
    requires d.intent == Some(Sealed(intent))
    ensures PastIntent(d, Proceed(d, intent, c, w).trace, c.receipt)
  {
    hide Verify, Rename, Dispose, CompletionRefusal;
    DisposeKeepsRecords(d, intent, c, w);
    RenameKeepsRecords(Disturbed(d, w.sourceBeforeRename), intent, c, w);
    RenameKeepsRecords(Disturbed(d.(staging := Some(Staging(None, false))), w.sourceBeforeRename), intent, c, w);
  }

  lemma CallKeepsIntent(d: Disk, c: Call, w: World)
    requires IntentAccepts(d, c)
    ensures forall k :: 0 <= k < |Run(d, c, w).trace| ==> IntentAccepts(Run(d, c, w).trace[k], c)
  {
    hide Proceed, Refusal;
    if d.intent.Some? && d.intent.value.Sealed? {
      ProceedKeepsRecords(d, d.intent.value.value, c, w);
    } else if d.intent.None? && Verify(d.source, c.receipt, None).Ok? {
      var intent := NewIntent(c, Verify(d.source, c.receipt, None).identity);
      ProceedKeepsRecords(d.(intent := Some(Sealed(intent))), intent, c, w);
    }
  }

  lemma {:induction false} ReplayKeepsIntent(f: Entry, c: Call, attempts: seq<Attempt>)
    requires Repeats(attempts, c)
    ensures IntentAccepts(Replay(Untouched(Some(f)), attempts), c)
  {
    if attempts != [] {
      var n := |attempts| - 1;
      ReplayKeepsIntent(f, c, attempts[..n]);
      var d, a := Replay(Untouched(Some(f)), attempts[..n]), attempts[n];
      CallKeepsIntent(d, a.call, a.world);
      hide Run;
      assert Disturbed(d, a.before) == d;
    }
  }

  /** A call that ended with its completion on disk and the file in the trash. */
  predicate Finished(d: Disk, o: Outcome, f: Entry) {
    && o.result.Completed?
    && Final(d, o).trash == [f] && Final(d, o).source.None? && Final(d, o).staging.None?
    && Final(d, o).completion == Some(Sealed(o.result.completion))
  }

  lemma FaultFreeDispose(d: Disk, intent: Intent, c: Call, w: World, f: Entry)
    requires FaultFree(w) && d.source.None? && d.Staged() == Some(f) && d.trash == []
    requires Verify(Some(f), c.receipt, Some(intent.fields.identity)).Ok?
    ensures Finished(d, Dispose(d, intent, c, w), f)
  {
    hide Verify;
  }

  lemma FaultFreeRename(d: Disk, intent: Intent, c: Call, w: World, f: Entry)
    requires FaultFree(w) && d.source == Some(f) && d.staging.Some? && d.trash == []
    requires Verify(Some(f), c.receipt, Some(intent.fields.identity)).Ok?
    ensures Finished(d, Rename(d, intent, c, w), f)
  {
    hide Verify, Dispose;
    FaultFreeDispose(d.(source := None, staging := Some(Staging(d.source, d.staging.value.unexpected))), intent, c, w,
                     f);
  }

  lemma FaultFreeProceed(d: Disk, intent: Intent, c: Call, w: World, f: Entry)
    requires Consistent(d, f, c.receipt) && d.intent == Some(Sealed(intent)) && FaultFree(w)
    ensures Proceed(d, intent, c, w).result.Completed? <==> d.completion != Some(Partial)
    ensures d.completion != Some(Partial) ==> Finished(d, Proceed(d, intent, c, w), f)
  {
    hide Verify, Dispose, Rename, CompletionRefusal;
    if d.completion.None? {
      if d.source.Some? {
        FaultFreeRename(d.(staging := Some(Staging(None, false))), intent, c, w, f);
        assert d.staging.Some? ==> d.(staging := Some(Staging(None, false))) == d;
      } else if d.Staged().Some? {
        FaultFreeDispose(d, intent, c, w, f);
      }
    }
  }

  /** One call on a consistent disk, nothing failing: it completes exactly when no record is
      unreadable, and then the file is in the trash and the completion is on disk. */
  lemma FaultFreeCall(d: Disk, c: Call, w: World, f: Entry)
    requires Consistent(d, f, c.receipt) && IntentAccepts(d, c) && FaultFree(w)
    requires Refusal(c).None? && Verify(Some(f), c.receipt, None).Ok?
    ensures Run(d, c, w).result.Completed? <==> NoPartialRecord(d)
    ensures NoPartialRecord(d) ==> Finished(d, Run(d, c, w), f)
  {
    hide Refusal, Proceed, CompletionRefusal, IntentRefusal;
    if d.intent.Some? && d.intent.value.Sealed? {
      FaultFreeProceed(d, d.intent.value.value, c, w, f);
    } else if d.intent.None? {
      var intent := NewIntent(c, Verify(d.source, c.receipt, None).identity);
      FaultFreeProceed(d.(intent := Some(Sealed(intent))), intent, c, w, f);
    }
  }

  /** From whatever repeated, crashed calls left, one more without faults completes, unless a crash
      cut a record write short. */
  lemma Resumes(f: Entry, c: Call, attempts: seq<Attempt>, w: World)
    requires Repeats(attempts, c) && FaultFree(w)
    requires Refusal(c).None? && Verify(Some(f), c.receipt, None).Ok?
    ensures var d := Replay(Untouched(Some(f)), attempts);
            && (Run(d, c, w).result.Completed? <==> NoPartialRecord(d))
            && (NoPartialRecord(d) ==> Finished(d, Run(d, c, w), f))
  {
    hide Run, Consistent, Refusal;
    NeverLost(f, c.receipt, attempts);
    ReplayKeepsIntent(f, c, attempts);
    FaultFreeCall(Replay(Untouched(Some(f)), attempts), c, w, f);
  }

  /** Records cut short occur only where a write was cut short. */
  lemma {:induction false} WholeWritesLeaveNoPartialRecord(d: Disk, attempts: seq<Attempt>)
    requires NoPartialRecord(d) && forall a | a in attempts :: !a.halfWritten
    ensures NoPartialRecord(Replay(d, attempts))
  {
    if attempts != [] {
      var n := |attempts| - 1;
      WholeWritesLeaveNoPartialRecord(d, attempts[..n]);
      CallLeavesNoPartialRecord(Disturbed(Replay(d, attempts[..n]), attempts[n].before), attempts[n].call,
                                attempts[n].world);
      hide Run;
    }
  }

  lemma CallLeavesNoPartialRecord(d: Disk, c: Call, w: World)
    requires NoPartialRecord(d)
    ensures forall k :: 0 <= k < |Run(d, c, w).trace| ==> NoPartialRecord(Run(d, c, w).trace[k])
  {
    hide Proceed, Refusal, IntentRefusal, Verify;
    if d.intent.Some? && d.intent.value.Sealed? {
      ProceedKeepsRecords(d, d.intent.value.value, c, w);
    } else if d.intent.None? && Verify(d.source, c.receipt, None).Ok? {
      var intent := NewIntent(c, Verify(d.source, c.receipt, None).identity);
      ProceedKeepsRecords(d.(intent := Some(Sealed(intent))), intent, c, w);
    }
  }

  // ---------------------------------------------------------------- done is done

  /** Once the completion is on disk no call, whatever its arguments and the world, changes
      anything, even with a new file at the source path; a matching call says so. */
  lemma {:induction false} CompletedForever(d: Disk, attempts: seq<Attempt>)
    requires d.intent.Some? && d.completion.Some?
    ensures Replay(d, attempts) == d.(source := Replay(d, attempts).source)
    ensures (forall a | a in attempts :: a.before.None?) ==> Replay(d, attempts) == d
  {
    if attempts != [] {
      var n := |attempts| - 1;
      CompletedForever(d, attempts[..n]);
      CompletedCallChangesNothing(Disturbed(Replay(d, attempts[..n]), attempts[n].before), attempts[n].call,
                                  attempts[n].world);
    }
  }

  lemma CompletedCallChangesNothing(d: Disk, c: Call, w: World)
    requires d.intent.Some? && d.completion.Some?
    ensures Run(d, c, w).trace == []
    ensures && d.intent.value.Sealed? && d.completion.value.Sealed? && Refusal(c).None? && IntentAccepts(d, c)
            && CompletionRefusal(d.completion.value.value, d.intent.value.value).None?
            ==> Run(d, c, w).result == Completed(d.intent.value.value, d.completion.value.value, false, true)
  {
  }

  /** What a call that completed leaves. */
  lemma FinishedKeepsRecords(d: Disk, c: Call, w: World, f: Entry)
    requires Consistent(d, f, c.receipt) && IntentAccepts(d, c) && Undisturbed(w) && Finished(d, Run(d, c, w), f)
    ensures var e := Final(d, Run(d, c, w));
            && Consistent(e, f, c.receipt) && IntentAccepts(e, c) && e.intent.Some? && e.intent.value.Sealed?
  {
    hide Run, IntentAccepts, CompletionRefusal, GoodIntent;
    CallKeepsConsistent(d, c, w, f);
    CallKeepsIntent(d, c, w);
  }

  /** After a call without faults completed, whatever calls follow, and whatever appears at the source path before
      or between them: the same call at any time, in any world, changes nothing and answers that it is done. */
  lemma ResumedStaysCompleted(f: Entry, c: Call, attempts: seq<Attempt>, w: World,
                              more: seq<Attempt>, appeared: Option<Option<Entry>>, later: nat, w2: World)
    requires Repeats(attempts, c) && FaultFree(w)
    requires Refusal(c).None? && Verify(Some(f), c.receipt, None).Ok?
    requires NoPartialRecord(Replay(Untouched(Some(f)), attempts))
    ensures var before := Replay(Untouched(Some(f)), attempts);
            var d := Final(before, Run(before, c, w));
            var e := Disturbed(Replay(d, more), appeared);
            && d.intent.Some? && d.intent.value.Sealed? && d.completion.Some? && d.completion.value.Sealed?
            && e == d.(source := e.source) && e.trash == [f]
            && Run(e, c.(nowMs := later), w2) ==
               Outcome([], Completed(d.intent.value.value, d.completion.value.value, false, true))
  {
    hide Run, Consistent, Refusal, Replay, Finished, IntentAccepts;
    NeverLost(f, c.receipt, attempts);
    ReplayKeepsIntent(f, c, attempts);
    Resumes(f, c, attempts, w);
    var before := Replay(Untouched(Some(f)), attempts);
    FinishedKeepsRecords(before, c, w, f);
    FinishedFields(before, Run(before, c, w), f);
    CompletedAnswers(Final(before, Run(before, c, w)), c, f, more, appeared, later, w2);
  }

  lemma FinishedFields(d: Disk, o: Outcome, f: Entry)
    requires Finished(d, o, f)
    ensures Final(d, o).trash == [f] && Final(d, o).completion.Some? && Final(d, o).completion.value.Sealed?
  {
  }

  lemma CompletedAnswers(d: Disk, c: Call, f: Entry, more: seq<Attempt>, appeared: Option<Option<Entry>>, later: nat,
                         w: World)
    requires Consistent(d, f, c.receipt) && IntentAccepts(d, c) && Refusal(c).None?
    requires d.intent.Some? && d.intent.value.Sealed? && d.completion.Some? && d.completion.value.Sealed?
    ensures var e := Disturbed(Replay(d, more), appeared);
            && e == d.(source := e.source)
            && Run(e, c.(nowMs := later), w) ==
               Outcome([], Completed(d.intent.value.value, d.completion.value.value, false, true))
  {
    hide Run, Replay, CompletionRefusal, GoodIntent;
    CompletedForever(d, more);
    var e := Disturbed(Replay(d, more), appeared);
    assert IntentAccepts(e, c.(nowMs := later));
    CompletedCallChangesNothing(e, c.(nowMs := later), w);
    OutcomeOf(Run(e, c.(nowMs := later), w));
  }

  lemma OutcomeOf(o: Outcome)
    ensures o.trace == [] ==> o == Outcome([], o.result)
  {
  }

  // ---------------------------------------------------------------- a record cut short is the end

  /** A record that no call can read, as a crash within a record write leaves it. */
  predicate Stuck(d: Disk) {
    d.intent.Some? && (d.intent.value.Partial? || d.completion == Some(Partial))
  }

  lemma StuckCall(d: Disk, c: Call, w: World)
    requires Stuck(d)
    ensures Run(d, c, w).trace == [] && Run(d, c, w).result.Stopped?
  {
  }

  /** No later calls, whatever their arguments and whatever happens around them, get past it. */
  lemma {:induction false} StuckForever(d: Disk, attempts: seq<Attempt>, c: Call, w: World)
    requires Stuck(d)
    ensures Replay(d, attempts) == d.(source := Replay(d, attempts).source)
    ensures Run(Replay(d, attempts), c, w).trace == [] && Run(Replay(d, attempts), c, w).result.Stopped?
  {
    hide Run;
    if attempts != [] {
      var n := |attempts| - 1;
      StuckForever(d, attempts[..n], c, w);
      StuckCall(Disturbed(Replay(d, attempts[..n]), attempts[n].before), attempts[n].call, attempts[n].world);
    }
    StuckCall(Replay(d, attempts), c, w);
  }

  /** Every call that would complete can be cut short so. */
  lemma CrashInRecordWrite(f: Entry, c: Call, w: World, more: seq<Attempt>, other: Call, w2: World)
    requires FaultFree(w) && Refusal(c).None? && Verify(Some(f), c.receipt, None).Ok?
    ensures Run(Untouched(Some(f)), c, w).result.Completed?
    ensures var d := After(Untouched(Some(f)), Attempt(None, c, w, 0, true));
            && d.intent == Some(Partial) && d.source == Some(f)
            && Run(Replay(d, more), other, w2).result.Stopped?
  {
    hide Refusal, Verify, Proceed, Replay;
    FirstCallCompletes(f, c, w);
    var d := After(Untouched(Some(f)), Attempt(None, c, w, 0, true));
    assert Run(Untouched(Some(f)), c, w).trace[0].intent.Some?;
    StuckForever(d, more, other, w2);
  }

  lemma FirstCallCompletes(f: Entry, c: Call, w: World)
    requires FaultFree(w) && Refusal(c).None? && Verify(Some(f), c.receipt, None).Ok?
    ensures Run(Untouched(Some(f)), c, w).result.Completed?
  {
    hide Run;
    Resumes(f, c, [], w);
  }

  // ---------------------------------------------------------------- only the verified file is trashed

  lemma CallTrashesVerified(d: Disk, c: Call, w: World)
    requires TrashVerified(d, c.receipt)
    ensures forall k :: 0 <= k < |Run(d, c, w).trace| ==> TrashVerified(Run(d, c, w).trace[k], c.receipt)
  {
    hide Proceed, Refusal, Verify;
    if d.intent.Some? && d.intent.value.Sealed? {
      ProceedKeepsRecords(d, d.intent.value.value, c, w);
    } else if d.intent.None? && Verify(d.source, c.receipt, None).Ok? {
      var intent := NewIntent(c, Verify(d.source, c.receipt, None).identity);
      ProceedKeepsRecords(d.(intent := Some(Sealed(intent))), intent, c, w);
    }
  }

  /** Whatever an outside writer puts at the source path, before a call, while it verifies and
      renames, or after the trash, and wherever calls are cut short: nothing but a file with the
      receipt's content and the intent's identity is ever trashed. */
  lemma {:induction false} OnlyVerifiedTrashed(source: Option<Entry>, r: Receipt, attempts: seq<Attempt>)
    requires forall a | a in attempts :: a.call.receipt == r
    ensures TrashVerified(Replay(Untouched(source), attempts), r)
    ensures var d := Replay(Untouched(source), attempts);
            forall x <- d.trash ::
              && d.intent.Some? && d.intent.value.Sealed?
                 && x == Regular(d.intent.value.value.fields.identity, r.digests)
              && x.identity.bytes == r.bytes && x.identity.modifiedMs == r.modifiedMs
  {
    if attempts != [] {
      var n := |attempts| - 1;
      OnlyVerifiedTrashed(source, r, attempts[..n]);
      var a := attempts[n];
      var d := Disturbed(Replay(Untouched(source), attempts[..n]), a.before);
      hide Run, Verify, TrashVerified, Replay;
      CallTrashesVerified(d, a.call, a.world);
      AttemptTrashesVerified(Replay(Untouched(source), attempts[..n]), a);
      assert Replay(Untouched(source), attempts) == After(Replay(Untouched(source), attempts[..n]), a) by {
        LastAttempt(Untouched(source), attempts);
      }
    }
    TrashOnFields(Replay(Untouched(source), attempts), r);
  }

  lemma LastAttempt(d: Disk, attempts: seq<Attempt>)
    requires attempts != []
    ensures Replay(d, attempts) == After(Replay(d, attempts[..|attempts| - 1]), attempts[|attempts| - 1])
  {
  }

  lemma AttemptTrashesVerified(d: Disk, a: Attempt)
    requires TrashVerified(d, a.call.receipt)
    ensures TrashVerified(After(d, a), a.call.receipt)
  {
    hide Run, Verify;
    CallTrashesVerified(Disturbed(d, a.before), a.call, a.world);
  }

  /** What it is to be verified. */
  lemma TrashOnFields(d: Disk, r: Receipt)
    requires TrashVerified(d, r)
    ensures forall x <- d.trash ::
              && d.intent.Some? && d.intent.value.Sealed?
                 && x == Regular(d.intent.value.value.fields.identity, r.digests)
              && x.identity.bytes == r.bytes && x.identity.modifiedMs == r.modifiedMs
  {
  }

  /** The file at the source path is not the one the receipt describes, or not the one the intent was written for. */
  predicate Differs(d: Disk, r: Receipt) {
    || d.source.None? || d.source.value.NotRegular?
    || d.source.value.identity.bytes != r.bytes || d.source.value.identity.modifiedMs != r.modifiedMs
    || d.source.value.digests != r.digests
    || (d.intent.Some? && d.intent.value.Sealed? && d.source.value.identity != d.intent.value.value.fields.identity)
  }

  /** A call that finds such a file, before anything was completed, stops and changes nothing. */
  lemma DifferingSourceStops(d: Disk, c: Call, w: World)
    requires d.completion.None? && Differs(d, c.receipt) && (d.source.None? ==> d.intent.None?)
    ensures Run(d, c, w).trace == [] && Run(d, c, w).result.Stopped?
  {
  }

  /** And one that changes anything, or says that all is done, names the receipt, its destination and the evidence,
      comes from a permit no older than the copy, and, if a human approved, from one who saw the file not in use. */
  lemma ActsOnlyOnPermit(d: Disk, c: Call, w: World)
    requires Run(d, c, w).trace != [] || Run(d, c, w).result.Completed?
    ensures var r, p := c.receipt, c.permit;
            && c.confirmation == r.id && c.pathsSafe && r.blockers == []
            && p.receiptId == r.id && p.provider == r.provider && p.source == r.source && p.destination == r.destination
            && p.bytes == r.bytes && p.blake3 == r.digests.blake3 && p.approvedAtMs >= r.copiedAtMs
            && (exists i :: 0 <= i < |p.evidenceId| && !IsSpace(p.evidenceId[i])) && |p.evidenceRecordId| == 64
    ensures c.approval.Some? ==>
              var a, p := c.approval.value, c.permit;
              && a.version == 1 && a.id == a.fields && a.fields.attributionValid
              && a.fields.receiptId == c.receipt.id && a.fields.evidenceRecordId == p.evidenceRecordId
              && p.approvedAtMs <= a.fields.observedAtMs <= a.fields.approvedAtMs
              && a.fields.activeUse == UseEvidence("lsof-fp+ps-command", true, false, [], false, None)
  {
    hide Proceed, Verify, IntentRefusal, IsSpace, Trim;
    assert Refusal(c).None?;
    NotBlank(c.permit.evidenceId);
  }

  lemma NotBlank(s: string)
    requires Trim(s) != []
    ensures exists i :: 0 <= i < |s| && !IsSpace(s[i])
  {
    hide IsSpace;
    var before, after := TrimTakesSpaces(s);
    assert s[|before|] == Trim(s)[0];
  }

  /** A file swapped in between verification and rename is caught by the second verification and
      put back where it was; nothing is trashed. */
  lemma SwapIsUndone(d: Disk, intent: Intent, c: Call, w: World, swapped: Entry)
    requires d.intent == Some(Sealed(intent)) && d.completion.None? && d.source.Some? && d.Staged().None?
    requires d.staging.Some? ==> !d.staging.value.unexpected
    requires w.sourceBeforeRename == Some(Some(swapped)) && w.sourceBeforeRestore.None?
    requires !w.createFails && !w.renameFails && !w.restoreFails && !(c.approval.Some? && w.activeAtSource)
    requires Verify(d.source, c.receipt, Some(intent.fields.identity)).Ok?
    requires Verify(Some(swapped), c.receipt, Some(intent.fields.identity)).Failed?
    ensures var o := Proceed(d, intent, c, w);
            && o.result.Stopped? && Final(d, o).source == Some(swapped)
            && Final(d, o).Staged().None? && Final(d, o).trash == d.trash
  {
    hide Verify, Dispose;
  }
}
