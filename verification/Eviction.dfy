/** Crash-resumable movement of one verified source file to the trash: intent record, staging
    directory, rename, re-verification, trash, completion record.  `Run` is one call as a function
    from the disk before it to its result and the disks it passes through; a crash leaves any of
    them behind.  The class at the end performs the same call one change at a time. */
module Eviction {
  import opened Optional
  import opened Text

  // ---------------------------------------------------------------- records and files

  datatype Identity = Identity(bytes: nat, modifiedMs: nat, device: nat, inode: nat)

  datatype Digests = Digests(blake3: string, sha256: string, quickXor: string)

  /** What a path can hold: a regular file with its identity and content digests, or anything
      else (a link, a directory). */
  datatype Entry = Regular(identity: Identity, digests: Digests) | NotRegular

  datatype Receipt = Receipt(
    id: string, provider: string, source: string, destination: string, bytes: nat,
    digests: Digests, modifiedMs: nat, copiedAtMs: nat, blockers: seq<string>)

  datatype EvidenceKind = ProviderApi | ProviderNativeStatus

  datatype Permit = Permit(
    receiptId: string, provider: string, source: string, destination: string, bytes: nat, blake3: string,
    approvedAtMs: nat, evidenceKind: EvidenceKind, evidenceId: string, evidenceRecordId: string)

  /** What was seen of the file being open, and how. */
  datatype UseEvidence = UseEvidence(
    seenBy: string, evidenceComplete: bool, active: bool, pids: seq<nat>, resultsTruncated: bool, error: Option<string>)

  /** The fields an approval's identifier is the hash of; a hash is modelled by what it hashes. */
  datatype ApprovalFields = ApprovalFields(
    receiptId: string, evidenceRecordId: string, approvedAtMs: nat, attributionValid: bool,
    observedAtMs: nat, activeUse: UseEvidence)

  datatype Approval = Approval(version: nat, id: ApprovalFields, fields: ApprovalFields)

  /** What an intent repeats of its receipt; its staging paths follow from these. */
  datatype Binding = Binding(
    receiptId: string, provider: string, source: string, destination: string, bytes: nat, digests: Digests,
    modifiedMs: nat)

  /** What an intent repeats of its permit. */
  datatype Grant = Grant(approvedAtMs: nat, evidenceKind: EvidenceKind, evidenceId: string, evidenceRecordId: string)

  datatype IntentFields = IntentFields(
    version: nat, binding: Binding, grant: Grant, approval: Option<Approval>, createdAtMs: nat, identity: Identity)

  datatype Intent = Intent(id: IntentFields, fields: IntentFields)

  datatype CompletionFields = CompletionFields(
    version: nat, intentId: IntentFields, receiptId: string, evidenceRecordId: string,
    completedAtMs: nat, reconciled: bool)

  datatype Completion = Completion(id: CompletionFields, fields: CompletionFields)

  const RECORD_VERSION: nat := 2
  const APPROVAL_VERSION: nat := 1

  /** A record file: sealed read-only, or left behind half-written. */
  datatype Record<T> = Sealed(value: T) | Partial

  /** The staging directory: the staged file, and whether anything else is in it. */
  datatype Staging = Staging(staged: Option<Entry>, unexpected: bool)

  datatype Disk = Disk(
    source: Option<Entry>, staging: Option<Staging>,
    intent: Option<Record<Intent>>, completion: Option<Record<Completion>>,
    trash: seq<Entry>)
  {
    function Staged(): Option<Entry> {
      if staging.Some? then staging.value.staged else None
    }
  }

  // ---------------------------------------------------------------- checks

  datatype Error =
    | ReceiptBlocked | PermitReceiptMismatch | PermitInvalid | ApprovalInvalid | AttributionInvalid
    | ConfirmationMismatch | PathsNotSafe
    | RecordUnreadable | IntentIntegrity | IntentReceiptMismatch | IntentPermitMismatch | IntentApprovalMismatch
    | StagingWithoutIntent | SourceUnreadable | SizeMismatch | TimeMismatch | ContentMismatch | IdentityMismatch
    | RecordWriteFailed
    | CompletionIntegrity | CompletionIntentMismatch | UnexpectedStagingEntries | SourceAndStagingBothExist
    | ActiveUse | StagingCreateFailed | RenameFailed | RestoreFailed | TrashFailed | TrashDidNotRemoveStaging

  datatype Verified = Ok(identity: Identity) | Failed(error: Error)

  /** What is wrong with a permit for a receipt. */
  function PermitRefusal(r: Receipt, p: Permit): Option<Error> {
    if r.blockers != [] then Some(ReceiptBlocked)
    else if !NamesReceipt(r, p) then Some(PermitReceiptMismatch)
    else if p.approvedAtMs >= r.copiedAtMs && Trim(p.evidenceId) != [] && ValidHex64(p.evidenceRecordId) then None
    else Some(PermitInvalid)
  }

  predicate NamesReceipt(r: Receipt, p: Permit) {
    && p.receiptId == r.id && p.provider == r.provider && p.source == r.source && p.destination == r.destination
    && p.bytes == r.bytes && p.blake3 == r.digests.blake3
  }

  predicate NotInUse(use: UseEvidence) {
    && use.seenBy == "lsof-fp+ps-command" && use.evidenceComplete && !use.active
    && use.pids == [] && !use.resultsTruncated && use.error.None?
  }

  /** What is wrong with a human approval under a permit. */
  function ApprovalRefusal(r: Receipt, p: Permit, a: Approval): Option<Error> {
    if PermitRefusal(r, p).Some? then PermitRefusal(r, p)
    else if !(a.version == APPROVAL_VERSION && Covers(r, p, a.fields) && NotInUse(a.fields.activeUse)
              && a.id == a.fields)
    then Some(ApprovalInvalid)
    else if !a.fields.attributionValid then Some(AttributionInvalid)
    else None
  }

  /** It is about this receipt and this evidence, and the use was looked at between permit and approval. */
  predicate Covers(r: Receipt, p: Permit, fields: ApprovalFields) {
    && fields.receiptId == r.id && fields.evidenceRecordId == p.evidenceRecordId
    && p.approvedAtMs <= fields.observedAtMs <= fields.approvedAtMs
  }

  /** The size, time, digests and, if one is given, the identity of the file at a path. */
  function Verify(entry: Option<Entry>, r: Receipt, expected: Option<Identity>): Verified {
    if entry.None? || entry.value.NotRegular? then Failed(SourceUnreadable)
    else
      var file := entry.value;
      if file.identity.bytes != r.bytes then Failed(SizeMismatch)
      else if file.identity.modifiedMs != r.modifiedMs then Failed(TimeMismatch)
      else if file.digests != r.digests then Failed(ContentMismatch)
      else if expected.Some? && expected.value != file.identity then Failed(IdentityMismatch)
      else Ok(file.identity)
  }

  /** The arguments of one call.  `pathsSafe` stands for every check on the paths themselves. */
  datatype Call = Call(
    receipt: Receipt, permit: Permit, approval: Option<Approval>, confirmation: string, pathsSafe: bool, nowMs: nat)

  function Refusal(c: Call): Option<Error> {
    if PermitRefusal(c.receipt, c.permit).Some? then PermitRefusal(c.receipt, c.permit)
    else if c.approval.Some? && ApprovalRefusal(c.receipt, c.permit, c.approval.value).Some?
    then ApprovalRefusal(c.receipt, c.permit, c.approval.value)
    else if c.confirmation != c.receipt.id then Some(ConfirmationMismatch)
    else if !c.pathsSafe then Some(PathsNotSafe)
    else None
  }

  function BindingOf(r: Receipt): Binding {
    Binding(r.id, r.provider, r.source, r.destination, r.bytes, r.digests, r.modifiedMs)
  }

  function GrantOf(p: Permit): Grant {
    Grant(p.approvedAtMs, p.evidenceKind, p.evidenceId, p.evidenceRecordId)
  }

  function IntentRefusal(i: Intent, c: Call): Option<Error> {
    if i.fields.version != RECORD_VERSION || i.id != i.fields then Some(IntentIntegrity)
    else if i.fields.binding != BindingOf(c.receipt) then Some(IntentReceiptMismatch)
    else if i.fields.grant != GrantOf(c.permit) then Some(IntentPermitMismatch)
    else if i.fields.approval != c.approval then Some(IntentApprovalMismatch)
    else None
  }

  function CompletionRefusal(k: Completion, i: Intent): Option<Error> {
    if k.fields.version != RECORD_VERSION || k.id != k.fields then Some(CompletionIntegrity)
    else if || k.fields.intentId != i.id || k.fields.receiptId != i.fields.binding.receiptId
            || k.fields.evidenceRecordId != i.fields.grant.evidenceRecordId then Some(CompletionIntentMismatch)
    else None
  }

  function NewIntent(c: Call, identity: Identity): Intent {
    var fields := IntentFields(
                    RECORD_VERSION, BindingOf(c.receipt), GrantOf(c.permit), c.approval, c.nowMs, identity);
    Intent(fields, fields)
  }

  function NewCompletion(i: Intent, nowMs: nat, reconciled: bool): Completion {
    var fields := CompletionFields(
                    RECORD_VERSION, i.id, i.fields.binding.receiptId, i.fields.grant.evidenceRecordId, nowMs,
                    reconciled);
    Completion(fields, fields)
  }

  // ---------------------------------------------------------------- one call

  /** What the world does during one call: faults of single operations, active-use observations,
      the trash, and an outside writer replacing whatever is at the source path. */
  datatype World = World(
    intentWriteFails: bool, createFails: bool, renameFails: bool, restoreFails: bool, removeFails: bool,
    completionWriteFails: bool,
    activeAtSource: bool, activeAtStaging: bool,
    trashMoves: bool, trashReportsOk: bool,
    sourceBeforeRename: Option<Option<Entry>>, sourceBeforeRestore: Option<Option<Entry>>,
    sourceAfterTrash: Option<Option<Entry>>)

  /** No outside writer, whatever else goes wrong. */
  predicate Undisturbed(w: World) {
    w.sourceBeforeRename.None? && w.sourceBeforeRestore.None? && w.sourceAfterTrash.None?
  }

  predicate FaultFree(w: World) {
    && Undisturbed(w)
    && !w.intentWriteFails && !w.createFails && !w.renameFails && !w.completionWriteFails
    && !w.activeAtSource && !w.activeAtStaging && w.trashMoves && w.trashReportsOk
  }

  datatype Result =
    | Completed(intent: Intent, completion: Completion, sourceTrashed: bool, alreadyCompleted: bool)
    | Stopped(error: Error)

  /** The result of a call and the disks it leaves, one after each change. */
  datatype Outcome = Outcome(trace: seq<Disk>, result: Result)

  function Stop(error: Error): Outcome {
    Outcome([], Stopped(error))
  }

  function Then(d: Disk, rest: Outcome): Outcome {
    Outcome([d] + rest.trace, rest.result)
  }

  function Final(d: Disk, o: Outcome): Disk {
    if o.trace == [] then d else o.trace[|o.trace| - 1]
  }

  /** The disk after an outside writer replaced, or removed, what is at the source path. */
  function Disturbed(d: Disk, change: Option<Option<Entry>>): Disk {
    if change.Some? then d.(source := change.value) else d
  }

  /** The rest of a call, after such a change. */
  function Meanwhile(d: Disk, change: Option<Option<Entry>>, rest: Outcome): Outcome {
    if change.Some? then Then(Disturbed(d, change), rest) else rest
  }

  function Run(d: Disk, c: Call, w: World): Outcome {
    if Refusal(c).Some? then Stop(Refusal(c).value)
    else
      match d.intent
      case Some(Partial) => Stop(RecordUnreadable)
      case Some(Sealed(intent)) =>
        if IntentRefusal(intent, c).Some? then Stop(IntentRefusal(intent, c).value)
        else Proceed(d, intent, c, w)
      case None =>
        if d.staging.Some? then Stop(StagingWithoutIntent)
        else
          match Verify(d.source, c.receipt, None)
          case Failed(error) => Stop(error)
          case Ok(identity) =>
            if w.intentWriteFails then Stop(RecordWriteFailed)
            else
              var intent := NewIntent(c, identity);
              var d1 := d.(intent := Some(Sealed(intent)));
              Then(d1, Proceed(d1, intent, c, w))
  }

  function Proceed(d: Disk, intent: Intent, c: Call, w: World): Outcome {
    match d.completion
    case Some(Partial) => Stop(RecordUnreadable)
    case Some(Sealed(completion)) =>
      if CompletionRefusal(completion, intent).Some? then Stop(CompletionRefusal(completion, intent).value)
      else Outcome([], Completed(intent, completion, false, true))
    case None =>
      if d.staging.Some? && d.staging.value.unexpected then Stop(UnexpectedStagingEntries)
      else if d.source.Some? && d.Staged().Some? then Stop(SourceAndStagingBothExist)
      else if d.source.Some? then Stage(d, intent, c, w)
      else if d.Staged().Some? then Dispose(d, intent, c, w)
      else Complete(d, intent, c, w, true)
  }

  /** Verifies the source, moves it into the staging directory and verifies it there. */
  function Stage(d: Disk, intent: Intent, c: Call, w: World): Outcome {
    match Verify(d.source, c.receipt, Some(intent.fields.identity))
    case Failed(error) => Stop(error)
    case Ok(_) =>
      if c.approval.Some? && w.activeAtSource then Stop(ActiveUse)
      else if d.staging.None? then
        if w.createFails then Stop(StagingCreateFailed)
        else
          var d1 := d.(staging := Some(Staging(None, false)));
          Then(d1, Meanwhile(d1, w.sourceBeforeRename, Rename(Disturbed(d1, w.sourceBeforeRename), intent, c, w)))
      else Meanwhile(d, w.sourceBeforeRename, Rename(Disturbed(d, w.sourceBeforeRename), intent, c, w))
  }

  function Rename(d: Disk, intent: Intent, c: Call, w: World): Outcome {
    if w.renameFails || d.source.None? || d.staging.None? then Stop(RenameFailed)
    else
      var d1 := d.(source := None, staging := Some(Staging(d.source, d.staging.value.unexpected)));
      match Verify(d1.Staged(), c.receipt, Some(intent.fields.identity))
      case Ok(_) => Then(d1, Dispose(d1, intent, c, w))
      case Failed(error) => 
        Then(d1, Meanwhile(d1, w.sourceBeforeRestore, PutBack(Disturbed(d1, w.sourceBeforeRestore), w, error)))
  }

  /** Moves an unverified staged file back to the source path, unless something is there again. */
  function PutBack(d: Disk, w: World, error: Error): Outcome {
    if d.source.Some? || d.staging.None? then Stop(RestoreFailed)
    else if w.restoreFails then Stop(RestoreFailed)
    else Then(d.(source := d.Staged(), staging := Some(d.staging.value.(staged := None))), Stop(error))
  }

  /** Verifies the staged file once more, trashes the staging directory and completes. */
  function Dispose(d: Disk, intent: Intent, c: Call, w: World): Outcome {
    match Verify(d.Staged(), c.receipt, Some(intent.fields.identity))
    case Failed(error) => Stop(error)
    case Ok(_) =>
      if c.approval.Some? && w.activeAtStaging then Release(d, w)
      else
        var d1 := if w.trashMoves then d.(staging := None, trash := d.trash + [d.Staged().value]) else d;
        var rest :=
          if !w.trashReportsOk then Stop(TrashFailed)
          else
            var d2 := Disturbed(d1, w.sourceAfterTrash);
            Meanwhile(d1, w.sourceAfterTrash,
                      if d2.source.Some? || d2.staging.Some? then Stop(TrashDidNotRemoveStaging)
                      else Complete(d2, intent, c, w, false));
        if w.trashMoves then Then(d1, rest) else rest
  }

  /** The file is in use: back to the source path, and the staging directory goes. */
  function Release(d: Disk, w: World): Outcome {
    if d.source.Some? || d.staging.None? then Stop(ActiveUse)
    else if w.restoreFails then Stop(RenameFailed)
    else
      var d1 := d.(source := d.Staged(), staging := Some(d.staging.value.(staged := None)));
      if w.removeFails || d1.staging.value.unexpected then Then(d1, Stop(RestoreFailed))
      else Then(d1, Then(d1.(staging := None), Stop(ActiveUse)))
  }

  function Complete(d: Disk, intent: Intent, c: Call, w: World, reconciled: bool): Outcome {
    if w.completionWriteFails then Stop(RecordWriteFailed)
    else
      var completion := NewCompletion(intent, c.nowMs, reconciled);
      Then(d.(completion := Some(Sealed(completion))), Outcome([], Completed(intent, completion, !reconciled, false)))
  }

  // ---------------------------------------------------------------- runs with crashes

  /** One attempt: an outside change before it, a call, the number of its changes that reached the
      disk, and whether the next change was a record write that was cut short. */
  datatype Attempt = Attempt(before: Option<Option<Entry>>, call: Call, world: World, survived: nat, halfWritten: bool)

  /** What a record write that is cut short leaves: the record's path taken, nothing readable in
      it.  (A write changes nothing but its record.) */
  function HalfWritten(before: Disk, after: Disk): Disk {
    if before.intent.None? && after.intent.Some? then before.(intent := Some(Partial))
    else if before.completion.None? && after.completion.Some? then after.(completion := Some(Partial))
    else before
  }

  function DiskAfter(d: Disk, o: Outcome, survived: nat): Disk {
    if survived == 0 || o.trace == [] then d
    else if survived < |o.trace| then o.trace[survived - 1]
    else o.trace[|o.trace| - 1]
  }

  function After(d: Disk, a: Attempt): Disk {
    var start := Disturbed(d, a.before);
    var o := Run(start, a.call, a.world);
    var left := DiskAfter(start, o, a.survived);
    if a.halfWritten && a.survived < |o.trace| then HalfWritten(left, o.trace[a.survived]) else left
  }

  function Replay(d: Disk, attempts: seq<Attempt>): Disk {
    if attempts == [] then d else After(Replay(d, attempts[..|attempts| - 1]), attempts[|attempts| - 1])
  }

  /** A disk on which nothing has been done for the receipt yet. */
  function Untouched(source: Option<Entry>): Disk {
    Disk(source, None, None, None, [])
  }

  // ---------------------------------------------------------------- the checks, step by step

  method ValidatePermit(r: Receipt, p: Permit) returns (refusal: Option<Error>)
    ensures refusal == PermitRefusal(r, p)
  {
    if r.blockers != [] {
      return Some(ReceiptBlocked);
    }
    if p.receiptId != r.id || p.provider != r.provider || p.source != r.source || p.destination != r.destination
       || p.bytes != r.bytes || p.blake3 != r.digests.blake3 {
      return Some(PermitReceiptMismatch);
    }
    if p.approvedAtMs < r.copiedAtMs || Trim(p.evidenceId) == [] || !ValidHex64(p.evidenceRecordId) {
      return Some(PermitInvalid);
    }
    return None;
  }

  method ValidateApproval(r: Receipt, p: Permit, a: Approval) returns (refusal: Option<Error>)
    ensures refusal == ApprovalRefusal(r, p, a)
  {
    hide PermitRefusal;
    refusal := ValidatePermit(r, p);
    if refusal.Some? {
      return;
    }
    var fields := a.fields;
    var use := fields.activeUse;
    if a.version != 1 || fields.receiptId != r.id || fields.evidenceRecordId != p.evidenceRecordId
       || fields.approvedAtMs < p.approvedAtMs || fields.observedAtMs < p.approvedAtMs
       || fields.observedAtMs > fields.approvedAtMs || use.seenBy != "lsof-fp+ps-command" || !use.evidenceComplete
       || use.active || use.pids != [] || use.resultsTruncated || use.error.Some? || a.id != fields {
      return Some(ApprovalInvalid);
    }
    if !fields.attributionValid {
      return Some(AttributionInvalid);
    }
    return None;
  }

  method ValidateCall(c: Call) returns (refusal: Option<Error>)
    ensures refusal == Refusal(c)
  {
    hide PermitRefusal, ApprovalRefusal;
    refusal := ValidatePermit(c.receipt, c.permit);
    if refusal.Some? {
      return;
    }
    if c.approval.Some? {
      refusal := ValidateApproval(c.receipt, c.permit, c.approval.value);
      if refusal.Some? {
        return;
      }
    }
    if c.confirmation != c.receipt.id {
      return Some(ConfirmationMismatch);
    }
    if !c.pathsSafe {
      return Some(PathsNotSafe);
    }
    return None;
  }

  method ValidateIntent(i: Intent, c: Call) returns (refusal: Option<Error>)
    ensures refusal == IntentRefusal(i, c)
  {
    var r, p, bound, granted := c.receipt, c.permit, i.fields.binding, i.fields.grant;
    if i.fields.version != 2 || i.id != i.fields {
      return Some(IntentIntegrity);
    }
    if bound.receiptId != r.id || bound.provider != r.provider || bound.source != r.source
       || bound.destination != r.destination || bound.bytes != r.bytes || bound.digests != r.digests
       || bound.modifiedMs != r.modifiedMs {
      return Some(IntentReceiptMismatch);
    }
    if granted.approvedAtMs != p.approvedAtMs || granted.evidenceKind != p.evidenceKind
       || granted.evidenceId != p.evidenceId || granted.evidenceRecordId != p.evidenceRecordId {
      return Some(IntentPermitMismatch);
    }
    if i.fields.approval != c.approval {
      return Some(IntentApprovalMismatch);
    }
    return None;
  }

  method ValidateCompletion(k: Completion, i: Intent) returns (refusal: Option<Error>)
    ensures refusal == CompletionRefusal(k, i)
  {
    if k.fields.version != 2 || k.id != k.fields {
      return Some(CompletionIntegrity);
    }
    if k.fields.intentId != i.id || k.fields.receiptId != i.fields.binding.receiptId
       || k.fields.evidenceRecordId != i.fields.grant.evidenceRecordId {
      return Some(CompletionIntentMismatch);
    }
    return None;
  }

  method VerifySource(entry: Option<Entry>, r: Receipt, expected: Option<Identity>) returns (v: Verified)
    ensures v == Verify(entry, r, expected)
  {
    if entry.None? || entry.value.NotRegular? {
      return Failed(SourceUnreadable);
    }
    var identity, digests := entry.value.identity, entry.value.digests;
    if identity.bytes != r.bytes {
      return Failed(SizeMismatch);
    }
    if identity.modifiedMs != r.modifiedMs {
      return Failed(TimeMismatch);
    }
    if digests.blake3 != r.digests.blake3 || digests.sha256 != r.digests.sha256
       || digests.quickXor != r.digests.quickXor {
      return Failed(ContentMismatch);
    }
    if expected.Some? && expected.value != identity {
      return Failed(IdentityMismatch);
    }
    return Ok(identity);
  }

  // ---------------------------------------------------------------- the call, step by step

  /** The disk as one call sees it: each method makes its changes one after the other, and
      `changes` keeps every disk they left. */
  class Volume {
    var disk: Disk
    ghost var changes: seq<Disk>

    constructor (source: Option<Entry>)
      ensures disk == Untouched(source) && changes == []
    {
      disk, changes := Untouched(source), [];
    }

    /** From `before`, exactly the changes of `o` were made. */
    ghost predicate Did(before: Disk, log: seq<Disk>, o: Outcome)
      reads this
    {
      disk == Final(before, o) && changes == log + o.trace
    }

    method Change(d: Disk)
      modifies this
      ensures disk == d && changes == old(changes) + [d]
    {
      disk, changes := d, changes + [d];
    }

    /** An outside writer at the source path. */
    method Outside(change: Option<Option<Entry>>)
      modifies this
      ensures disk == Disturbed(old(disk), change)
      ensures changes == if change.Some? then old(changes) + [disk] else old(changes)
    {
      if change.Some? {
        Change(disk.(source := change.value));
      }
    }

    method Evict(c: Call, w: World) returns (result: Result)
      modifies this
      ensures result == Run(old(disk), c, w).result
      ensures Did(old(disk), old(changes), Run(old(disk), c, w))
    {
      hide Refusal, IntentRefusal, Verify, Proceed;
      var refusal := ValidateCall(c);
      if refusal.Some? {
        return Stopped(refusal.value);
      }
      var intent;
      if disk.intent.Some? {
        if disk.intent.value.Partial? {
          return Stopped(RecordUnreadable);
        }
        intent := disk.intent.value.value;
        var mismatch := ValidateIntent(intent, c);
        if mismatch.Some? {
          return Stopped(mismatch.value);
        }
      } else {
        if disk.staging.Some? {
          return Stopped(StagingWithoutIntent);
        }
        var verified := VerifySource(disk.source, c.receipt, None);
        if verified.Failed? {
          return Stopped(verified.error);
        }
        if w.intentWriteFails {
          return Stopped(RecordWriteFailed);
        }
        var r, p := c.receipt, c.permit;
        var fields := IntentFields(
                        2, Binding(r.id, r.provider, r.source, r.destination, r.bytes, r.digests, r.modifiedMs),
                        Grant(p.approvedAtMs, p.evidenceKind, p.evidenceId, p.evidenceRecordId), c.approval, c.nowMs,
                        verified.identity);
        intent := Intent(fields, fields);
        Change(disk.(intent := Some(Sealed(intent))));
      }
      result := AfterIntent(intent, c, w);
    }

    method AfterIntent(intent: Intent, c: Call, w: World) returns (result: Result)
      modifies this
      ensures result == Proceed(old(disk), intent, c, w).result
      ensures Did(old(disk), old(changes), Proceed(old(disk), intent, c, w))
    {
      hide Verify, Dispose, Stage;
      if disk.completion.Some? {
        if disk.completion.value.Partial? {
          return Stopped(RecordUnreadable);
        }
        var completion := disk.completion.value.value;
        var mismatch := ValidateCompletion(completion, intent);
        if mismatch.Some? {
          return Stopped(mismatch.value);
        }
        return Completed(intent, completion, false, true);
      }
      if disk.staging.Some? && disk.staging.value.unexpected {
        return Stopped(UnexpectedStagingEntries);
      }
      var sourceExists, stagedExists := disk.source.Some?, disk.Staged().Some?;
      if sourceExists && stagedExists {
        return Stopped(SourceAndStagingBothExist);
      }
      var reconciled := !sourceExists && !stagedExists;
      if sourceExists {
        result := MoveToStaging(intent, c, w);
      } else if !reconciled {
        result := TrashStaging(intent, c, w);
      } else {
        result := WriteCompletion(intent, c, w, true);
      }
    }

    method MoveToStaging(intent: Intent, c: Call, w: World) returns (result: Result)
      modifies this
      ensures result == Stage(old(disk), intent, c, w).result
      ensures Did(old(disk), old(changes), Stage(old(disk), intent, c, w))
    {
      hide Verify, Rename;
      var verified := VerifySource(disk.source, c.receipt, Some(intent.fields.identity));
      if verified.Failed? {
        return Stopped(verified.error);
      }
      if c.approval.Some? && w.activeAtSource {
        return Stopped(ActiveUse);
      }
      if disk.staging.None? {
        if w.createFails {
          return Stopped(StagingCreateFailed);
        }
        Change(disk.(staging := Some(Staging(None, false))));
      }
      Outside(w.sourceBeforeRename);
      result := RenameToStaging(intent, c, w);
    }

    method RenameToStaging(intent: Intent, c: Call, w: World) returns (result: Result)
      modifies this
      ensures result == Rename(old(disk), intent, c, w).result
      ensures Did(old(disk), old(changes), Rename(old(disk), intent, c, w))
    {
      hide Verify, Dispose, PutBack;
      if w.renameFails || disk.source.None? || disk.staging.None? {
        return Stopped(RenameFailed);
      }
      Change(disk.(source := None, staging := Some(Staging(disk.source, disk.staging.value.unexpected))));
      var verified := VerifySource(disk.Staged(), c.receipt, Some(intent.fields.identity));
      if verified.Failed? {
        result := Restore(w, verified.error);
      } else {
        result := TrashStaging(intent, c, w);
      }
    }

    method Restore(w: World, error: Error) returns (result: Result)
      modifies this
      ensures var o := Meanwhile(old(disk), w.sourceBeforeRestore,
                                 PutBack(Disturbed(old(disk), w.sourceBeforeRestore), w, error));
              result == o.result && Did(old(disk), old(changes), o)
    {
      Outside(w.sourceBeforeRestore);
      if disk.source.Some? || disk.staging.None? || w.restoreFails {
        return Stopped(RestoreFailed);
      }
      Change(disk.(source := disk.Staged(), staging := Some(disk.staging.value.(staged := None))));
      return Stopped(error);
    }

    method TrashStaging(intent: Intent, c: Call, w: World) returns (result: Result)
      modifies this
      ensures result == Dispose(old(disk), intent, c, w).result
      ensures Did(old(disk), old(changes), Dispose(old(disk), intent, c, w))
    {
      hide Complete, Release;
      var verified := VerifySource(disk.Staged(), c.receipt, Some(intent.fields.identity));
      if verified.Failed? {
        return Stopped(verified.error);
      }
      if c.approval.Some? && w.activeAtStaging {
        result := PutBackInUse(w);
        return;
      }
      if w.trashMoves {
        Change(disk.(staging := None, trash := disk.trash + [disk.Staged().value]));
      }
      if !w.trashReportsOk {
        return Stopped(TrashFailed);
      }
      Outside(w.sourceAfterTrash);
      if disk.source.Some? || disk.staging.Some? {
        return Stopped(TrashDidNotRemoveStaging);
      }
      result := WriteCompletion(intent, c, w, false);
    }

    method PutBackInUse(w: World) returns (result: Result)
      modifies this
      ensures result == Release(old(disk), w).result
      ensures Did(old(disk), old(changes), Release(old(disk), w))
    {
      if disk.source.Some? || disk.staging.None? {
        return Stopped(ActiveUse);
      }
      if w.restoreFails {
        return Stopped(RenameFailed);
      }
      Change(disk.(source := disk.Staged(), staging := Some(disk.staging.value.(staged := None))));
      if w.removeFails || disk.staging.value.unexpected {
        return Stopped(RestoreFailed);
      }
      Change(disk.(staging := None));
      return Stopped(ActiveUse);
    }

    method WriteCompletion(intent: Intent, c: Call, w: World, reconciled: bool) returns (result: Result)
      modifies this
      ensures result == Complete(old(disk), intent, c, w, reconciled).result
      ensures Did(old(disk), old(changes), Complete(old(disk), intent, c, w, reconciled))
    {
      if w.completionWriteFails {
        return Stopped(RecordWriteFailed);
      }
      var fields := CompletionFields(
                      2, intent.id, intent.fields.binding.receiptId, intent.fields.grant.evidenceRecordId, c.nowMs,
                      reconciled);
      var completion := Completion(fields, fields);
      Change(disk.(completion := Some(Sealed(completion))));
      return Completed(intent, completion, !reconciled, false);
    }
  }
}
