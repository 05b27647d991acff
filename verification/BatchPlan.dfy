/** Batch plans for local-copy eviction: planning every input, the checks a plan must pass before it is
    approved or run, and the approval bound to one plan.  A fingerprint or id stands for the fields hashed
    into it. */
module BatchPlan {
  import opened Lists
  import opened Optional
  import opened Saturation
  import opened Text

  const BATCH_VERSION: nat := 1
  const ITEM_VERSION: nat := 2
  const MAX_BATCH_ITEMS: nat := 128
  const MAX_RATIONALE_BYTES: nat := 1_024
  const HEX := "0123456789abcdefABCDEF"
  const UNAVAILABLE := "icloud-" + "local-" + "eviction-" + "batch-" + "item-" + "unavailable"

  datatype Error =
    | RequiresIcloud | InputCountInvalid | DuplicateInputPath
    | ShapeInvalid | ItemIdentityInvalid | UnavailableIdentityInvalid | InputIndexGap
    | LogicalTotalOverflow | AllocatedTotalOverflow | IntegrityMismatch
    | FingerprintMismatch | NotEligible | AttributionRequired | RationaleInvalid | ApprovalPredatesPlan
    | ApprovalIntegrityMismatch | PreflightItemUnavailable | PreflightItemChanged
    | ApprovalRecordFailed | ItemApprovalRecordFailed | CheckpointRecordFailed

  datatype Result<T> = Ok(value: T) | Err(error: Error)

  datatype Unit = Unit

  datatype Root = Root(icloud: bool, account: nat, path: string)

  datatype Blocker = ApprovalRequired | OtherBlocker(code: string)

  datatype ActiveUse = ActiveUse(evidenceComplete: bool, active: bool, resultsTruncated: bool)

  datatype Observer = FileProviderEvaluate | UbiquitousResourceValues

  /** What is known of the copy in the cloud; the last five are reported by one of the two observers only. */
  datatype CloudState = CloudState(
    observer: Observer, ubiquitous: bool, uploaded: bool, uploading: bool, downloading: bool, statusCurrent: bool,
    unresolvedConflicts: bool, excludedFromSync: bool, syncPaused: Option<bool>, trashed: Option<bool>,
    allowsEviction: Option<bool>, providerBytes: Option<nat>, identifier: Option<string>)

  datatype ItemPlan = ItemPlan(
    version: nat, icloud: bool, account: nat, root: string, path: string, observedAtMs: nat, fingerprint: string,
    logicalBytes: nat, allocatedBytes: nat, eligible: bool, blockers: seq<Blocker>, use: ActiveUse, cloud: CloudState)

  datatype Item = Item(inputIndex: nat, plan: ItemPlan)

  datatype Unavailable = Unavailable(inputIndex: nat, errorCode: string)

  datatype BatchBlocker = NoPlannedItems | ItemNotEligible | BatchApprovalRequired

  datatype Plan = Plan(
    version: nat, icloud: bool, account: nat, root: string, observedAtMs: nat,
    inputCount: nat, plannedCount: nat, unavailableCount: nat, totalLogicalBytes: nat, totalAllocatedBytes: nat,
    items: seq<Item>, unavailable: seq<Unavailable>, fingerprint: Fingerprint, eligible: bool,
    blockers: seq<BatchBlocker>, standardNotices: bool)

  datatype ItemPrint = ItemPrint(inputIndex: nat, fingerprint: string, logicalBytes: nat, allocatedBytes: nat)

  datatype Fingerprint = Fingerprint(
    icloud: bool, account: nat, root: string, inputCount: nat, plannedCount: nat, unavailableCount: nat,
    totalLogicalBytes: nat, totalAllocatedBytes: nat, items: seq<ItemPrint>, unavailable: seq<Unavailable>)

  // ---------------------------------------------------------------- text

  /** The length of a text in UTF-8. */
  function ByteLength(s: string): nat {
    if s == [] then 0
    else (if s[0] < '\U{0080}' then 1 else if s[0] < '\U{0800}' then 2 else if s[0] < '\U{10000}' then 3 else 4)
         + ByteLength(s[1..])
  }

  predicate IsCodeChar(c: char) {
    'a' <= c <= 'z' || '0' <= c <= '9' || c == '-' || c == '_' || c == ':' || c == '.'
  }

  predicate Plain(s: string) {
    forall c <- s :: IsCodeChar(c)
  }

  predicate IsErrorCode(s: string) {
    s != [] && ByteLength(s) <= 128 && Plain(s)
  }

  /** A short plain code: the error's own if it is one, else a stock one. */
  function BoundedErrorCode(error: string): (r: string)
    ensures IsErrorCode(r)
    ensures IsErrorCode(error) ==> r == error
  {
    hide UNAVAILABLE, ByteLength, IsSpace;
    StockCode();
    assert IsErrorCode(error) ==> Trim(error) == error by { if IsErrorCode(error) { PlainHasNoSpace(error); } }
    if IsErrorCode(Trim(error)) then Trim(error)
    else UNAVAILABLE
  }

  /** What is no code itself, with the white space around it taken away, becomes this one. */
  lemma StockCodeIs(error: string)
    ensures IsErrorCode(Trim(error)) ==> BoundedErrorCode(error) == Trim(error)
    ensures !IsErrorCode(Trim(error)) ==> BoundedErrorCode(error) == UNAVAILABLE
  {
    hide Trim, IsErrorCode;
  }

  const CODE_CHARS := "abcdefghijklmnopqrstuvwxyz0123456789-_:."

  lemma CodeCharsAre(c: char)
    ensures IsCodeChar(c) <==> c in CODE_CHARS
  {
  }

  /** Codes are 1 to 128 of these characters. */
  lemma ErrorCodesAre(s: string)
    ensures IsErrorCode(s) <==> 1 <= |s| <= 128 && forall c <- s :: c in CODE_CHARS
  {
    hide ByteLength, IsCodeChar;
    forall c: char
      ensures IsCodeChar(c) <==> c in CODE_CHARS
    {
      CodeCharsAre(c);
    }
    if Plain(s) {
      PlainLength(s);
    }
  }

  /** Bytes in UTF-8 (section 3 of RFC 3629): characters of up to 7, 11, 16 and 21 bits take one to four. */
  lemma {:induction false} BytesOfText(a: string, c: char, b: string)
    ensures ByteLength(a + [c] + b) == ByteLength(a) + ByteLength([c]) + ByteLength(b)
    ensures var n := c as int;
            ByteLength([c]) == if n <= 127 then 1 else if n <= 2_047 then 2 else if n <= 65_535 then 3 else 4
    ensures ByteLength("") == 0
  {
    ByteLengthJoins(a, [c] + b);
    ByteLengthJoins([c], b);
    assert a + [c] + b == a + ([c] + b);
  }

  lemma {:induction false} ByteLengthJoins(a: string, b: string)
    ensures ByteLength(a + b) == ByteLength(a) + ByteLength(b)
  {
    if a == [] {
      assert a + b == b;
    } else {
      assert (a + b)[1..] == a[1..] + b;
      ByteLengthJoins(a[1..], b);
    }
  }

  lemma PlainHasNoSpace(s: string)
    requires Plain(s) && s != []
    ensures !IsSpace(s[0]) && !IsSpace(s[|s| - 1])
  {
    assert IsCodeChar(s[0]) && IsCodeChar(s[|s| - 1]);
  }

  lemma StockCode()
    ensures IsErrorCode(UNAVAILABLE)
  {
    hide ByteLength;
    assert Plain("icloud-") && Plain("local-") && Plain("eviction-");
    assert Plain("batch-") && Plain("item-") && Plain("unavailable");
    assert |UNAVAILABLE| == 44;
    PlainLength(UNAVAILABLE);
  }

  lemma {:induction false} PlainLength(s: string)
    requires Plain(s)
    ensures ByteLength(s) == |s|
  {
    if s != [] {
      assert forall c <- s[1..] :: c in s;
      assert IsCodeChar(s[0]);
      PlainLength(s[1..]);
    }
  }

  // ---------------------------------------------------------------- what a plan must be

  function Elements<T(==)>(s: seq<T>): set<T> {
    set x | x in s
  }

  function ItemIndices(items: seq<Item>): seq<nat> {
    seq(|items|, i requires 0 <= i < |items| => items[i].inputIndex)
  }

  function UnavailableIndices(unavailable: seq<Unavailable>): seq<nat> {
    seq(|unavailable|, i requires 0 <= i < |unavailable| => unavailable[i].inputIndex)
  }

  function Paths(items: seq<Item>): seq<string> {
    seq(|items|, i requires 0 <= i < |items| => items[i].plan.path)
  }

  function Fingerprints(items: seq<Item>): seq<string> {
    seq(|items|, i requires 0 <= i < |items| => items[i].plan.fingerprint)
  }

  function LogicalBytes(items: seq<Item>): seq<nat> {
    seq(|items|, i requires 0 <= i < |items| => items[i].plan.logicalBytes)
  }

  function AllocatedBytes(items: seq<Item>): seq<nat> {
    seq(|items|, i requires 0 <= i < |items| => items[i].plan.allocatedBytes)
  }

  function Sum(values: seq<nat>): nat {
    if values == [] then 0 else Sum(values[..|values| - 1]) + values[|values| - 1]
  }

  predicate ItemIsSafe(plan: ItemPlan) {
    && plan.version == ITEM_VERSION && plan.icloud && ValidHex64(plan.fingerprint)
    && plan.logicalBytes > 0 && plan.allocatedBytes > 0 && plan.eligible
    && (forall b <- plan.blockers :: b == ApprovalRequired)
    && plan.use.evidenceComplete && !plan.use.active && !plan.use.resultsTruncated
    && plan.cloud.ubiquitous && plan.cloud.uploaded && !plan.cloud.uploading && !plan.cloud.downloading
    && plan.cloud.statusCurrent && !plan.cloud.unresolvedConflicts && !plan.cloud.excludedFromSync
    && ObserverAgrees(plan.cloud, plan.logicalBytes)
  }

  /** One observer must have reported every detail in favour, the other cannot have reported any. */
  predicate ObserverAgrees(cloud: CloudState, logicalBytes: nat) {
    match cloud.observer
    case FileProviderEvaluate =>
      && cloud.syncPaused == Some(false) && cloud.trashed == Some(false) && cloud.allowsEviction == Some(true)
      && cloud.providerBytes == Some(logicalBytes) && cloud.identifier.Some? && ValidHex64(cloud.identifier.value)
    case UbiquitousResourceValues =>
      && cloud.syncPaused.None? && cloud.trashed.None? && cloud.allowsEviction.None?
      && cloud.providerBytes.None? && cloud.identifier.None?
  }

  /** What may stand against evicting an item. */
  datatype Obstacle =
    | WrongVersion | NotIcloud | BadFingerprint | NoLogicalBytes | NoAllocatedBytes | PlannedIneligible | OtherBlockers
    | UseUnknown | InUse | UseTruncated | NotUbiquitous | NotUploaded | Uploading | Downloading | StatusOutdated
    | Conflicts | ExcludedFromSync | SyncPaused | Trashed | EvictionNotAllowed | SizeNotConfirmed | NotIdentified

  predicate NotHex64(s: string) {
    |s| != 64 || exists c <- s :: c !in HEX
  }

  /** Whether it does, obstacle by obstacle. */
  predicate StandsAgainst(o: Obstacle, p: ItemPlan) {
    var asked := p.cloud.observer.FileProviderEvaluate?;
    match o
    case WrongVersion => p.version != 2
    case NotIcloud => !p.icloud
    case BadFingerprint => NotHex64(p.fingerprint)
    case NoLogicalBytes => p.logicalBytes == 0
    case NoAllocatedBytes => p.allocatedBytes == 0
    case PlannedIneligible => !p.eligible
    case OtherBlockers => exists b <- p.blockers :: b.OtherBlocker?
    case UseUnknown => !p.use.evidenceComplete
    case InUse => p.use.active
    case UseTruncated => p.use.resultsTruncated
    case NotUbiquitous => !p.cloud.ubiquitous
    case NotUploaded => !p.cloud.uploaded
    case Uploading => p.cloud.uploading
    case Downloading => p.cloud.downloading
    case StatusOutdated => !p.cloud.statusCurrent
    case Conflicts => p.cloud.unresolvedConflicts
    case ExcludedFromSync => p.cloud.excludedFromSync
    case SyncPaused => p.cloud.syncPaused != if asked then Some(false) else None
    case Trashed => p.cloud.trashed != if asked then Some(false) else None
    case EvictionNotAllowed => p.cloud.allowsEviction != if asked then Some(true) else None
    case SizeNotConfirmed => p.cloud.providerBytes != if asked then Some(p.logicalBytes) else None
    case NotIdentified =>
      if asked then p.cloud.identifier.None? || NotHex64(p.cloud.identifier.value) else p.cloud.identifier.Some?
  }


  lemma HexExactlyIf(s: string)
    ensures ValidHex64(s) <==> !NotHex64(s)
  {
    forall c: char
      ensures c in HEX <==> '0' <= c <= '9' || 'a' <= c <= 'f' || 'A' <= c <= 'F'
    {
    }
  }

  lemma NothingAgainstSafe(plan: ItemPlan, o: Obstacle)
    requires ItemIsSafe(plan)
    ensures !StandsAgainst(o, plan)
  {
    hide ValidHex64, NotHex64;
    HexExactlyIf(plan.fingerprint);
    if plan.cloud.identifier.Some? {
      HexExactlyIf(plan.cloud.identifier.value);
    }
  }

  lemma ObserverAgainst(plan: ItemPlan) returns (o: Obstacle)
    requires !ObserverAgrees(plan.cloud, plan.logicalBytes)
    ensures StandsAgainst(o, plan)
  {
    hide ValidHex64, NotHex64;
    if plan.cloud.identifier.Some? {
      HexExactlyIf(plan.cloud.identifier.value);
    }
    var asked := plan.cloud.observer.FileProviderEvaluate?;
    o := if plan.cloud.syncPaused != (if asked then Some(false) else None) then SyncPaused
    else if plan.cloud.trashed != (if asked then Some(false) else None) then Trashed
    else if plan.cloud.allowsEviction != (if asked then Some(true) else None) then EvictionNotAllowed
    else if plan.cloud.providerBytes != (if asked then Some(plan.logicalBytes) else None) then SizeNotConfirmed
    else NotIdentified;
  }

  lemma SomethingAgainstUnsafe(plan: ItemPlan) returns (o: Obstacle)
    requires !ItemIsSafe(plan)
    ensures StandsAgainst(o, plan)
  {
    hide ValidHex64, NotHex64, ObserverAgrees;
    HexExactlyIf(plan.fingerprint);
    if !ObserverAgrees(plan.cloud, plan.logicalBytes) {
      o := ObserverAgainst(plan);
    } else {
      o := if plan.version != 2 then WrongVersion else if !plan.icloud then NotIcloud
      else if !ValidHex64(plan.fingerprint) then BadFingerprint else if plan.logicalBytes == 0 then NoLogicalBytes
      else if plan.allocatedBytes == 0 then NoAllocatedBytes else if !plan.eligible then PlannedIneligible
      else if !plan.use.evidenceComplete then UseUnknown else if plan.use.active then InUse
      else if plan.use.resultsTruncated then UseTruncated else if !plan.cloud.ubiquitous then NotUbiquitous
      else if !plan.cloud.uploaded then NotUploaded else if plan.cloud.uploading then Uploading
      else if plan.cloud.downloading then Downloading else if !plan.cloud.statusCurrent then StatusOutdated
      else if plan.cloud.unresolvedConflicts then Conflicts
      else if plan.cloud.excludedFromSync then ExcludedFromSync else OtherBlockers;
    }
  }

  lemma SafeIfNothingStandsAgainst(plan: ItemPlan)
    ensures ItemIsSafe(plan) <==> forall o :: !StandsAgainst(o, plan)
  {
    hide ItemIsSafe, StandsAgainst;
    if ItemIsSafe(plan) {
      forall o
        ensures !StandsAgainst(o, plan)
      {
        NothingAgainstSafe(plan, o);
      }
    } else {
      var o := SomethingAgainstUnsafe(plan);
    }
  }

  function BatchBlockers(items: seq<Item>): seq<BatchBlocker> {
    if items == [] then [NoPlannedItems]
    else if exists item <- items :: !ItemIsSafe(item.plan) then [ItemNotEligible]
    else [BatchApprovalRequired]
  }

  function ItemPrints(items: seq<Item>): seq<ItemPrint> {
    seq(|items|, i requires 0 <= i < |items| =>
      ItemPrint(items[i].inputIndex, items[i].plan.fingerprint, items[i].plan.logicalBytes,
                items[i].plan.allocatedBytes))
  }

  function FingerprintFor(plan: Plan): Fingerprint {
    Fingerprint(plan.icloud, plan.account, plan.root, plan.inputCount, plan.plannedCount, plan.unavailableCount,
                plan.totalLogicalBytes, plan.totalAllocatedBytes, ItemPrints(plan.items), plan.unavailable)
  }

  predicate ShapeOk(root: Root, plan: Plan) {
    && plan.version == BATCH_VERSION && plan.icloud && root.icloud
    && plan.account == root.account && plan.root == root.path
    && 0 < plan.inputCount <= MAX_BATCH_ITEMS
    && plan.plannedCount == |plan.items| && plan.unavailableCount == |plan.unavailable|
    && plan.inputCount == plan.plannedCount + plan.unavailableCount
  }

  predicate BelongsTo(root: Root, plan: ItemPlan) {
    plan.icloud == root.icloud && plan.account == root.account && plan.root == root.path
  }

  predicate ItemsOk(root: Root, inputCount: nat, items: seq<Item>) {
    && (forall item <- items :: item.inputIndex < inputCount && BelongsTo(root, item.plan))
    && Distinct(ItemIndices(items)) && Distinct(Paths(items)) && Distinct(Fingerprints(items))
  }

  predicate UnavailableOk(inputCount: nat, items: seq<Item>, unavailable: seq<Unavailable>) {
    && (forall u <- unavailable :: u.inputIndex < inputCount && IsErrorCode(u.errorCode))
    && Distinct(ItemIndices(items) + UnavailableIndices(unavailable))
  }

  predicate TotalsOk(plan: Plan) {
    && Sum(LogicalBytes(plan.items)) == plan.totalLogicalBytes <= U64_MAX
    && Sum(AllocatedBytes(plan.items)) == plan.totalAllocatedBytes <= U64_MAX
  }

  predicate SealOk(plan: Plan) {
    && plan.blockers == BatchBlockers(plan.items) && plan.eligible == (plan.blockers == [BatchApprovalRequired])
    && plan.standardNotices && plan.fingerprint == FingerprintFor(plan)
  }

  predicate WellFormed(root: Root, plan: Plan) {
    && ShapeOk(root, plan) && ItemsOk(root, plan.inputCount, plan.items)
    && UnavailableOk(plan.inputCount, plan.items, plan.unavailable) && TotalsOk(plan) && SealOk(plan)
  }

  /** A fingerprint binds everything an approval is about: two validated plans with one fingerprint have the same
      root, counts and totals, the same unavailable inputs, and the same items as far as they are identified, and are
      eligible alike unless items with one fingerprint differ in whether they are safe. */
  lemma FingerprintBinds(root: Root, plan: Plan, other: Plan)
    requires WellFormed(root, plan) && WellFormed(root, other) && plan.fingerprint == other.fingerprint
    ensures plan.icloud == other.icloud && plan.account == other.account && plan.root == other.root
    ensures plan.inputCount == other.inputCount
              && plan.plannedCount == other.plannedCount == |other.items| == |plan.items|
    ensures plan.unavailableCount == other.unavailableCount && plan.unavailable == other.unavailable
    ensures plan.totalLogicalBytes == other.totalLogicalBytes && plan.totalAllocatedBytes == other.totalAllocatedBytes
    ensures forall i :: 0 <= i < |plan.items| ==>
              var a, b := plan.items[i], other.items[i];
              && a.inputIndex == b.inputIndex && a.plan.fingerprint == b.plan.fingerprint
              && a.plan.logicalBytes == b.plan.logicalBytes && a.plan.allocatedBytes == b.plan.allocatedBytes
    ensures (forall i :: 0 <= i < |plan.items| ==>
             (ItemIsSafe(plan.items[i].plan) <==> ItemIsSafe(other.items[i].plan))) ==>
              plan.eligible == other.eligible && plan.blockers == other.blockers
  {
    hide ItemsOk, UnavailableOk, TotalsOk, ItemIsSafe, BatchBlockers, ItemPrints;
    PrintsBind(plan.items, other.items);
    if forall i :: 0 <= i < |plan.items| ==> (ItemIsSafe(plan.items[i].plan) <==> ItemIsSafe(other.items[i].plan)) {
      SafeAlike(plan.items, other.items);
    }
  }

  lemma PrintsBind(items: seq<Item>, others: seq<Item>)
    requires ItemPrints(items) == ItemPrints(others)
    ensures |items| == |others|
    ensures forall i :: 0 <= i < |items| ==>
              var a, b := items[i], others[i];
              && a.inputIndex == b.inputIndex && a.plan.fingerprint == b.plan.fingerprint
              && a.plan.logicalBytes == b.plan.logicalBytes && a.plan.allocatedBytes == b.plan.allocatedBytes
  {
    assert |items| == |ItemPrints(items)| == |ItemPrints(others)| == |others|;
    forall i | 0 <= i < |items|
      ensures var a, b := items[i], others[i];
              && a.inputIndex == b.inputIndex && a.plan.fingerprint == b.plan.fingerprint
              && a.plan.logicalBytes == b.plan.logicalBytes && a.plan.allocatedBytes == b.plan.allocatedBytes
    {
      assert ItemPrints(items)[i] == ItemPrints(others)[i];
    }
  }

  lemma SafeAlike(items: seq<Item>, others: seq<Item>)
    requires |items| == |others|
    requires forall i :: 0 <= i < |items| ==> (ItemIsSafe(items[i].plan) <==> ItemIsSafe(others[i].plan))
    ensures BatchBlockers(items) == BatchBlockers(others)
  {
    hide ItemIsSafe;
    if exists item <- items :: !ItemIsSafe(item.plan) {
      var item :| item in items && !ItemIsSafe(item.plan);
      var i :| 0 <= i < |items| && items[i] == item;
      assert others[i] in others;
    }
    if exists item <- others :: !ItemIsSafe(item.plan) {
      var item :| item in others && !ItemIsSafe(item.plan);
      var i :| 0 <= i < |others| && others[i] == item;
      assert items[i] in items;
    }
  }

  // ---------------------------------------------------------------- a validated plan is a partition

  lemma {:induction false} DistinctSize<T>(s: seq<T>)
    requires Distinct(s)
    ensures |Elements(s)| == |s|
  {
    if s != [] {
      var front, last := s[..|s| - 1], s[|s| - 1];
      DistinctSize(front);
      assert s == front + [last];
      assert Elements(s) == Elements(front) + {last};
    }
  }

  function UpTo(n: nat): (r: set<nat>)
    ensures |r| == n && forall i :: i in r <==> 0 <= i < n
  {
    if n == 0 then {} else UpTo(n - 1) + {n - 1}
  }

  /** As many distinct numbers below `n` as `n` are all of them. */
  lemma Pigeonhole(s: seq<nat>, n: nat)
    requires Distinct(s) && |s| == n && forall x <- s :: x < n
    ensures forall i :: 0 <= i < n ==> i in s
  {
    DistinctSize(s);
    var all, some := UpTo(n), Elements(s);
    assert all == some + (all - some);
    assert all - some == {};
    forall i | 0 <= i < n
      ensures i in s
    {
      assert i in all;
      assert i in some;
    }
  }

  /** A validated plan gives every input position to exactly one item or one unavailable entry. */
  lemma PlanPartitionsInputs(root: Root, plan: Plan)
    requires WellFormed(root, plan)
    ensures forall i :: 0 <= i < plan.inputCount ==>
              ((i in ItemIndices(plan.items)) <==> (i !in UnavailableIndices(plan.unavailable)))
    ensures forall i <- ItemIndices(plan.items) + UnavailableIndices(plan.unavailable) :: i < plan.inputCount
    ensures Distinct(ItemIndices(plan.items)) && Distinct(UnavailableIndices(plan.unavailable))
  {
    var a, b := ItemIndices(plan.items), UnavailableIndices(plan.unavailable);
    IndicesAreBounded(root, plan);
    Pigeonhole(a + b, plan.inputCount);
    DistinctParts(a, b);
    forall i | 0 <= i < plan.inputCount
      ensures i in a <==> i !in b
    {
      assert i in a + b;
    }
  }

  lemma IndicesAreBounded(root: Root, plan: Plan)
    requires ItemsOk(root, plan.inputCount, plan.items)
    requires UnavailableOk(plan.inputCount, plan.items, plan.unavailable)
    ensures forall i <- ItemIndices(plan.items) + UnavailableIndices(plan.unavailable) :: i < plan.inputCount
  {
    var a, b := ItemIndices(plan.items), UnavailableIndices(plan.unavailable);
    forall x | x in a + b
      ensures x < plan.inputCount
    {
      if x in a {
        var i :| 0 <= i < |a| && a[i] == x;
        assert plan.items[i] in plan.items;
      } else {
        var i :| 0 <= i < |b| && b[i] == x;
        assert plan.unavailable[i] in plan.unavailable;
      }
    }
  }

  // ---------------------------------------------------------------- validation

  lemma OneMore<T>(s: seq<T>, i: nat)
    requires i < |s|
    ensures Elements(s[..i + 1]) == Elements(s[..i]) + {s[i]}
    ensures Distinct(s[..i + 1]) <==> Distinct(s[..i]) && s[i] !in Elements(s[..i])
    ensures Distinct(s) ==> Distinct(s[..i + 1])
  {
    assert s[..i + 1] == s[..i] + [s[i]];
    if Distinct(s[..i + 1]) {
      forall j, k | 0 <= j < k < i
        ensures s[..i][j] != s[..i][k]
      {
        assert s[..i + 1][j] == s[..i][j] && s[..i + 1][k] == s[..i][k];
      }
    }
  }

  /** A checked sum over 64-bit values. */
  method CheckedTotal(values: seq<nat>) returns (fits: bool, total: nat)
    ensures fits <==> Sum(values) <= U64_MAX
    ensures fits ==> total == Sum(values)
  {
    total := 0;
    var i := 0;
    while i < |values|
      invariant 0 <= i <= |values| && total == Sum(values[..i]) <= U64_MAX
    {
      assert values[..i + 1][..i] == values[..i];
      if total + values[i] > U64_MAX {
        SumGrows(values, i + 1);
        return false, 0;
      }
      total := total + values[i];
      i := i + 1;
    }
    assert values[..i] == values;
    fits := true;
  }

  lemma {:induction false} SumGrows(values: seq<nat>, i: nat)
    requires i <= |values|
    ensures Sum(values[..i]) <= Sum(values)
  {
    if i < |values| {
      SumGrows(values[..|values| - 1], i);
      assert values[..|values| - 1][..i] == values[..i];
    } else {
      assert values[..i] == values;
    }
  }

  method CheckItems(root: Root, plan: Plan) returns (ok: bool, indices: set<nat>)
    ensures ok <==> ItemsOk(root, plan.inputCount, plan.items)
    ensures ok ==> indices == Elements(ItemIndices(plan.items))
  {
    hide Distinct, Elements;
    ghost var ids, names, prints := ItemIndices(plan.items), Paths(plan.items), Fingerprints(plan.items);
    var paths: set<string>, fingerprints: set<string> := {}, {};
    ok, indices := true, {};
    Nothing(ids);
    Nothing(names);
    Nothing(prints);
    var i := 0;
    while i < |plan.items|
      invariant 0 <= i <= |plan.items|
      invariant indices == Elements(ids[..i]) && paths == Elements(names[..i]) && fingerprints == Elements(prints[..i])
      invariant Distinct(ids[..i]) && Distinct(names[..i]) && Distinct(prints[..i])
      invariant forall k :: 0 <= k < i ==>
                  plan.items[k].inputIndex < plan.inputCount && BelongsTo(root, plan.items[k].plan)
    {
      var item := plan.items[i];
      OneMore(ids, i);
      OneMore(names, i);
      OneMore(prints, i);
      if item.inputIndex >= plan.inputCount || item.inputIndex in indices || item.plan.path in paths
         || item.plan.fingerprint in fingerprints || item.plan.icloud != root.icloud
         || item.plan.account != root.account || item.plan.root != root.path {
        assert item in plan.items;
        return false, indices;
      }
      indices, paths, fingerprints :=
        indices + {item.inputIndex}, paths + {item.plan.path}, fingerprints + {item.plan.fingerprint};
      i := i + 1;
    }
    assert ids[..i] == ids && names[..i] == names && prints[..i] == prints;
  }

  lemma Nothing<T>(s: seq<T>)
    ensures Distinct(s[..0]) && Elements(s[..0]) == {}
  {
  }

  method CheckUnavailable(plan: Plan, seen: set<nat>) returns (ok: bool, indices: set<nat>)
    requires seen == Elements(ItemIndices(plan.items)) && Distinct(ItemIndices(plan.items))
    ensures ok <==> UnavailableOk(plan.inputCount, plan.items, plan.unavailable)
    ensures ok ==> indices == Elements(ItemIndices(plan.items) + UnavailableIndices(plan.unavailable))
  {
    hide Distinct, Elements, IsErrorCode;
    ghost var taken := ItemIndices(plan.items);
    ghost var ids := taken + UnavailableIndices(plan.unavailable);
    assert ids[..|taken|] == taken;
    ok, indices := true, seen;
    var i := 0;
    while i < |plan.unavailable|
      invariant 0 <= i <= |plan.unavailable|
      invariant indices == Elements(ids[..|taken| + i]) && Distinct(ids[..|taken| + i])
      invariant forall k :: 0 <= k < i ==>
                  plan.unavailable[k].inputIndex < plan.inputCount && IsErrorCode(plan.unavailable[k].errorCode)
    {
      var u := plan.unavailable[i];
      OneMore(ids, |taken| + i);
      if u.inputIndex >= plan.inputCount || u.inputIndex in indices || u.errorCode != BoundedErrorCode(u.errorCode) {
        assert u in plan.unavailable;
        return false, indices;
      }
      indices := indices + {u.inputIndex};
      i := i + 1;
    }
    assert ids[..|taken| + i] == ids;
  }

  /** The first thing wrong with a plan; a gap in the positions never is. */
  function Verdict(root: Root, plan: Plan): Result<Unit> {
    if !ShapeOk(root, plan) then Err(ShapeInvalid)
    else if !ItemsOk(root, plan.inputCount, plan.items) then Err(ItemIdentityInvalid)
    else if !UnavailableOk(plan.inputCount, plan.items, plan.unavailable) then Err(UnavailableIdentityInvalid)
    else if Sum(LogicalBytes(plan.items)) > U64_MAX then Err(LogicalTotalOverflow)
    else if Sum(AllocatedBytes(plan.items)) > U64_MAX then Err(AllocatedTotalOverflow)
    else if TotalsOk(plan) && SealOk(plan) then Ok(Unit)
    else Err(IntegrityMismatch)
  }

  /** Passes exactly the well-formed plans, and names the first thing wrong with any other. */
  method ValidateBatchPlan(root: Root, plan: Plan) returns (r: Result<Unit>)
    ensures r.Ok? <==> WellFormed(root, plan)
    ensures r == Verdict(root, plan)
  {
    hide ItemsOk, UnavailableOk, Distinct, Elements, FingerprintFor, BatchBlockers, Sum;
    if plan.version != 1 || !plan.icloud || !root.icloud || plan.account != root.account || plan.root != root.path
       || plan.inputCount == 0 || plan.inputCount > 128 || plan.plannedCount != |plan.items|
       || plan.unavailableCount != |plan.unavailable| || plan.inputCount != plan.plannedCount + plan.unavailableCount {
      return Err(ShapeInvalid);
    }
    var ok, indices := CheckItems(root, plan);
    if !ok {
      return Err(ItemIdentityInvalid);
    }
    ItemsAreDistinct(root, plan);
    ok, indices := CheckUnavailable(plan, indices);
    if !ok {
      return Err(UnavailableIdentityInvalid);
    }
    AllPositionsTaken(plan);
    if |indices| != plan.inputCount {
      return Err(InputIndexGap);
    }
    var fits, logical := CheckedTotal(LogicalBytes(plan.items));
    if !fits {
      return Err(LogicalTotalOverflow);
    }
    var fit, local := CheckedTotal(AllocatedBytes(plan.items));
    if !fit {
      return Err(AllocatedTotalOverflow);
    }
    var blockers := BatchBlockers(plan.items);
    if plan.totalLogicalBytes != logical || plan.totalAllocatedBytes != local || plan.blockers != blockers
       || plan.eligible != (blockers == [BatchApprovalRequired]) || !plan.standardNotices
       || plan.fingerprint != FingerprintFor(plan) {
      return Err(IntegrityMismatch);
    }
    r := Ok(Unit);
  }

  lemma ItemsAreDistinct(root: Root, plan: Plan)
    requires ItemsOk(root, plan.inputCount, plan.items)
    ensures Distinct(ItemIndices(plan.items))
  {
  }

  lemma AllPositionsTaken(plan: Plan)
    requires UnavailableOk(plan.inputCount, plan.items, plan.unavailable)
    ensures |Elements(ItemIndices(plan.items) + UnavailableIndices(plan.unavailable))|
              == |plan.items| + |plan.unavailable|
  {
    hide Elements, Distinct;
    DistinctSize(ItemIndices(plan.items) + UnavailableIndices(plan.unavailable));
  }

  // ---------------------------------------------------------------- planning

  datatype Planning = Planned(plan: ItemPlan) | Failed(error: string)

  /** What the planner says of the `i`-th input. */
  type Planner = (nat, string) -> Planning

  function PlannedItems(paths: seq<string>, planner: Planner, k: nat): seq<Item>
    requires k <= |paths|
  {
    if k == 0 then []
    else
      var rest, last := PlannedItems(paths, planner, k - 1), planner(k - 1, paths[k - 1]);
      if last.Planned? then rest + [Item(k - 1, last.plan)] else rest
  }

  function NotPlanned(paths: seq<string>, planner: Planner, k: nat): seq<Unavailable>
    requires k <= |paths|
  {
    if k == 0 then []
    else
      var rest, last := NotPlanned(paths, planner, k - 1), planner(k - 1, paths[k - 1]);
      if last.Failed? then rest + [Unavailable(k - 1, BoundedErrorCode(last.error))] else rest
  }

  /** The plan made of given items, before it is checked. */
  function Assembled(root: Root, inputCount: nat, items: seq<Item>, unavailable: seq<Unavailable>, at: nat): Plan {
    var blockers := BatchBlockers(items);
    var seal := Fingerprint(true, root.account, root.path, inputCount, |items|, |unavailable|, Sum(LogicalBytes(items)),
                            Sum(AllocatedBytes(items)), ItemPrints(items), unavailable);
    Plan(BATCH_VERSION, true, root.account, root.path, at, inputCount, |items|, |unavailable|, Sum(LogicalBytes(items)),
         Sum(AllocatedBytes(items)), items, unavailable, seal, blockers == [BatchApprovalRequired], blockers, true)
  }

  method BuildBatchPlan(root: Root, inputCount: nat, items: seq<Item>, unavailable: seq<Unavailable>, at: nat)
    returns (r: Result<Plan>)
    ensures r.Ok? <==> WellFormed(root, Assembled(root, inputCount, items, unavailable, at))
    ensures r.Ok? ==> r.value == Assembled(root, inputCount, items, unavailable, at)
    ensures r.Err? ==>
              if Sum(LogicalBytes(items)) > U64_MAX then r.error == LogicalTotalOverflow
              else if Sum(AllocatedBytes(items)) > U64_MAX then r.error == AllocatedTotalOverflow
              else Verdict(root, Assembled(root, inputCount, items, unavailable, at)) == Err(r.error)
  {
    hide ShapeOk, ItemsOk, UnavailableOk, SealOk, BatchBlockers, Sum, Verdict;
    var fits, logical := CheckedTotal(LogicalBytes(items));
    if !fits {
      return Err(LogicalTotalOverflow);
    }
    var fit, local := CheckedTotal(AllocatedBytes(items));
    if !fit {
      return Err(AllocatedTotalOverflow);
    }
    var plan := Assembled(root, inputCount, items, unavailable, at);
    var checked := ValidateBatchPlan(root, plan);
    r := if checked.Ok? then Ok(plan) else Err(checked.error);
  }

  /** What the planner's own answers must satisfy for a batch to be formed. */
  predicate Consistent(root: Root, items: seq<Item>) {
    && (forall item <- items :: BelongsTo(root, item.plan))
    && Distinct(Paths(items)) && Distinct(Fingerprints(items))
    && Sum(LogicalBytes(items)) <= U64_MAX && Sum(AllocatedBytes(items)) <= U64_MAX
  }

  lemma {:induction false} PlannedFromInputs(paths: seq<string>, planner: Planner, k: nat)
    requires k <= |paths|
    ensures var items, missing := PlannedItems(paths, planner, k), NotPlanned(paths, planner, k);
            && |items| + |missing| == k
            && Distinct(ItemIndices(items)) && Distinct(UnavailableIndices(missing))
            && (forall i <- ItemIndices(items) :: i < k && planner(i, paths[i]).Planned?)
            && (forall i <- UnavailableIndices(missing) :: i < k && planner(i, paths[i]).Failed?)
            && (forall u <- missing :: IsErrorCode(u.errorCode))
  {
    hide IsErrorCode;
    if k > 0 {
      PlannedFromInputs(paths, planner, k - 1);
      var items, missing := PlannedItems(paths, planner, k - 1), NotPlanned(paths, planner, k - 1);
      var last := planner(k - 1, paths[k - 1]);
      if last.Planned? {
        assert ItemIndices(items + [Item(k - 1, last.plan)]) == ItemIndices(items) + [k - 1];
      } else {
        var u := Unavailable(k - 1, BoundedErrorCode(last.error));
        assert UnavailableIndices(missing + [u]) == UnavailableIndices(missing) + [k - 1];
      }
    }
  }

  /** A freshly planned batch can fail its own checks only on the planner's answers. */
  lemma FreshPlanIsWellFormed(root: Root, paths: seq<string>, planner: Planner, at: nat)
    requires root.icloud && 0 < |paths| <= MAX_BATCH_ITEMS
    ensures var items := PlannedItems(paths, planner, |paths|);
            WellFormed(root, Assembled(root, |paths|, items, NotPlanned(paths, planner, |paths|), at)) <==>
              Consistent(root, items)
  {
    hide IsErrorCode, Sum, BatchBlockers, BelongsTo, PlannedItems, NotPlanned;
    PlannedFromInputs(paths, planner, |paths|);
    var items, missing := PlannedItems(paths, planner, |paths|), NotPlanned(paths, planner, |paths|);
    var ids, gaps := ItemIndices(items), UnavailableIndices(missing);
    assert forall i <- ids :: i !in gaps;
    DistinctJoin(ids, gaps);
    forall item | item in items
      ensures item.inputIndex < |paths|
    {
      var i :| 0 <= i < |items| && items[i] == item;
      assert ids[i] == item.inputIndex && ids[i] in ids;
    }
    forall u | u in missing
      ensures u.inputIndex < |paths|
    {
      var i :| 0 <= i < |missing| && missing[i] == u;
      assert gaps[i] == u.inputIndex && gaps[i] in gaps;
    }
  }

  method PlanAll(paths: seq<string>, planner: Planner) returns (items: seq<Item>, unavailable: seq<Unavailable>)
    ensures items == PlannedItems(paths, planner, |paths|) && unavailable == NotPlanned(paths, planner, |paths|)
  {
    hide BoundedErrorCode, IsErrorCode;
    items, unavailable := [], [];
    var i := 0;
    while i < |paths|
      invariant 0 <= i <= |paths|
      invariant items == PlannedItems(paths, planner, i) && unavailable == NotPlanned(paths, planner, i)
    {
      var answer := planner(i, paths[i]);
      match answer {
        case Planned(plan) =>
          items := items + [Item(i, plan)];
        case Failed(error) =>
          unavailable := unavailable + [Unavailable(i, BoundedErrorCode(error))];
      }
      i := i + 1;
    }
  }

  lemma EligibleIfNothingStandsAgainst(items: seq<Item>)
    ensures BatchBlockers(items) == [BatchApprovalRequired] <==>
              items != [] && forall item <- items, o :: !StandsAgainst(o, item.plan)
    ensures items == [] ==> BatchBlockers(items) == [NoPlannedItems]
    ensures items != [] ==> BatchBlockers(items) in {[BatchApprovalRequired], [ItemNotEligible]}
  {
    hide ItemIsSafe, StandsAgainst;
    forall item | item in items
      ensures ItemIsSafe(item.plan) <==> forall o :: !StandsAgainst(o, item.plan)
    {
      SafeIfNothingStandsAgainst(item.plan);
    }
  }

  /** Plans every input in order: those the planner can plan become items, the others are listed as unavailable.
      The plan is eligible exactly if it has items and nothing stands against any of them. */
  method PlanBatchWith(root: Root, paths: seq<string>, at: nat, planner: Planner) returns (r: Result<Plan>)
    ensures r.Ok? <==>
              root.icloud && 1 <= |paths| <= 128 && Distinct(paths)
              && Consistent(root, PlannedItems(paths, planner, |paths|))
    ensures !root.icloud ==> r == Err(RequiresIcloud)
    ensures root.icloud && !(1 <= |paths| <= 128) ==> r == Err(InputCountInvalid)
    ensures root.icloud && 1 <= |paths| <= 128 && !Distinct(paths) ==> r == Err(DuplicateInputPath)
    ensures r.Ok? ==> (r.value.eligible <==>
                         r.value.items != [] && forall item <- r.value.items, o :: !StandsAgainst(o, item.plan))
    ensures r.Ok? ==> r.value.blockers == if r.value.items == [] then [NoPlannedItems]
                      else if r.value.eligible then [BatchApprovalRequired] else [ItemNotEligible]
    ensures r.Ok? ==> r.value.version == 1 && r.value.observedAtMs == at && r.value.standardNotices
    ensures r.Ok? ==> WellFormed(root, r.value) && r.value.inputCount == |paths|
    ensures r.Ok? ==> r.value.items == PlannedItems(paths, planner, |paths|)
    ensures r.Ok? ==> r.value.unavailable == NotPlanned(paths, planner, |paths|)
  {
    hide WellFormed, Consistent, Distinct, PlannedItems, NotPlanned, BatchBlockers, Sum, StandsAgainst;
    if !root.icloud {
      return Err(RequiresIcloud);
    }
    if paths == [] || |paths| > MAX_BATCH_ITEMS {
      return Err(InputCountInvalid);
    }
    if !Distinct(paths) {
      return Err(DuplicateInputPath);
    }
    var items, unavailable := PlanAll(paths, planner);
    FreshPlanIsWellFormed(root, paths, planner, at);
    r := BuildBatchPlan(root, |paths|, items, unavailable, at);
    if r.Ok? {
      EligibleIfNothingStandsAgainst(items);
    }
  }

  // ---------------------------------------------------------------- approval

  datatype ApprovalId<T> = ApprovalId(fingerprint: T, approvedAtMs: nat, approvedBy: string, rationale: string)

  datatype Approval<T> = Approval(
    version: nat, id: ApprovalId<T>, fingerprint: T, approvedAtMs: nat, approvedBy: string, rationale: string)

  predicate IsHuman(reviewer: string) {
    "human:" <= reviewer && |reviewer| > |"human:"|
  }

  predicate IsRationale(text: string) {
    text != [] && ByteLength(text) <= MAX_RATIONALE_BYTES
  }

  /** An approval of one exact eligible batch plan. */
  method ApproveBatch(plan: Plan, root: Root, fingerprint: Fingerprint, at: nat, who: string, rationale: string)
    returns (r: Result<Approval<Fingerprint>>)
    ensures r.Ok? <==>
              WellFormed(root, plan) && plan.fingerprint == fingerprint && plan.eligible
              && IsHuman(Trim(who)) && IsRationale(Trim(rationale)) && at >= plan.observedAtMs
    ensures r.Ok? ==> ApprovalOk(root, plan, r.value, plan.fingerprint)
    ensures r.Ok? ==>
              r.value.approvedBy == Trim(who) && r.value.rationale == Trim(rationale) && r.value.approvedAtMs == at
    ensures WellFormed(root, plan) && r.Err? ==>
              r.error == if plan.fingerprint != fingerprint || !plan.eligible then FingerprintMismatch
              else if !IsHuman(Trim(who)) then AttributionRequired
              else if !IsRationale(Trim(rationale)) then RationaleInvalid else ApprovalPredatesPlan
    ensures !WellFormed(root, plan) ==> r.Err? && Verdict(root, plan) == Err(r.error)
  {
    hide WellFormed, Verdict, ByteLength, IsSpace;
    var checked := ValidateBatchPlan(root, plan);
    if checked.Err? {
      return Err(checked.error);
    }
    if plan.fingerprint != fingerprint || !plan.eligible {
      return Err(FingerprintMismatch);
    }
    var reviewer, reason := Trim(who), Trim(rationale);
    if |reviewer| <= 6 || reviewer[..6] != "human:" {
      return Err(AttributionRequired);
    }
    if reason == [] || ByteLength(reason) > 1_024 {
      return Err(RationaleInvalid);
    }
    if at < plan.observedAtMs {
      return Err(ApprovalPredatesPlan);
    }
    r := Ok(Approval(BATCH_VERSION, ApprovalId(plan.fingerprint, at, reviewer, reason), plan.fingerprint, at, reviewer,
                     reason));
  }

  /** What running a batch asks of its approval; eligibility of the plan is not asked again. */
  predicate ApprovalOk(root: Root, plan: Plan, approval: Approval<Fingerprint>, confirmation: Fingerprint) {
    && WellFormed(root, plan)
    && approval.version == BATCH_VERSION && approval.fingerprint == plan.fingerprint == confirmation
    && approval.id == ApprovalId(approval.fingerprint, approval.approvedAtMs, approval.approvedBy, approval.rationale)
    && approval.approvedAtMs >= plan.observedAtMs
    && Trim(approval.approvedBy) == approval.approvedBy && IsHuman(approval.approvedBy)
    && Trim(approval.rationale) == approval.rationale && IsRationale(approval.rationale)
  }

  method ValidateBatchApproval(root: Root, plan: Plan, approval: Approval<Fingerprint>, confirmation: Fingerprint)
    returns (r: Result<Unit>)
    ensures r.Ok? <==> ApprovalOk(root, plan, approval, confirmation)
    ensures r.Err? ==> if WellFormed(root, plan) then r.error == ApprovalIntegrityMismatch
                       else Verdict(root, plan) == Err(r.error)
  {
    hide WellFormed, Verdict, ByteLength, IsSpace, Trim;
    var checked := ValidateBatchPlan(root, plan);
    if checked.Err? {
      return checked;
    }
    var reviewer, rationale := Trim(approval.approvedBy), Trim(approval.rationale);
    if approval.version != 1 || approval.fingerprint != plan.fingerprint || approval.fingerprint != confirmation
       || approval.id != ApprovalId(approval.fingerprint, approval.approvedAtMs, approval.approvedBy,
                                    approval.rationale)
       || approval.approvedAtMs < plan.observedAtMs || reviewer != approval.approvedBy || |reviewer| <= 6
       || reviewer[..6] != "human:" || rationale != approval.rationale || rationale == []
       || ByteLength(rationale) > 1_024 {
      return Err(ApprovalIntegrityMismatch);
    }
    r := Ok(Unit);
  }

  /** An approval is one that approving the plan gives, exactly if it passes and the plan is eligible. */
  method ApproveAgain(root: Root, plan: Plan, approval: Approval<Fingerprint>) returns (given: bool)
    ensures given <==> ApprovalOk(root, plan, approval, plan.fingerprint) && plan.eligible
  {
    hide WellFormed, IsRationale, IsSpace;
    var r := ApproveBatch(plan, root, plan.fingerprint, approval.approvedAtMs, approval.approvedBy, approval.rationale);
    given := r == Ok(approval);
  }

  /** The approval of one item under the batch's approval. */
  function ApproveItem(plan: ItemPlan, at: nat, who: string, rationale: string): (r: Result<Approval<string>>)
    ensures r.Ok? <==>
              plan.version == ITEM_VERSION && ValidHex64(plan.fingerprint) && plan.eligible
              && (forall b <- plan.blockers :: b == ApprovalRequired)
              && IsHuman(Trim(who)) && IsRationale(Trim(rationale)) && at >= plan.observedAtMs
    ensures r.Ok? ==>
              && r.value.id == ApprovalId(plan.fingerprint, at, r.value.approvedBy, r.value.rationale)
              && r.value.version == 2 && r.value.fingerprint == plan.fingerprint && r.value.approvedAtMs == at
              && r.value.approvedBy == Trim(who) && r.value.rationale == Trim(rationale)
    ensures r.Err? ==>
              r.error == if plan.version != ITEM_VERSION || !ValidHex64(plan.fingerprint) then FingerprintMismatch
              else if !plan.eligible || (exists b <- plan.blockers :: b.OtherBlocker?) then NotEligible
              else if !IsHuman(Trim(who)) then AttributionRequired
              else if !IsRationale(Trim(rationale)) then RationaleInvalid else ApprovalPredatesPlan
  {
    hide ByteLength, IsSpace;
    var reviewer, reason := Trim(who), Trim(rationale);
    if plan.version != 2 || !ValidHex64(plan.fingerprint) then Err(FingerprintMismatch)
    else if !plan.eligible || exists b <- plan.blockers :: b != ApprovalRequired then Err(NotEligible)
    else if |reviewer| <= 6 || reviewer[..6] != "human:" then Err(AttributionRequired)
    else if reason == [] || ByteLength(reason) > 1_024 then Err(RationaleInvalid)
    else if at < plan.observedAtMs then Err(ApprovalPredatesPlan)
    else Ok(Approval(ITEM_VERSION, ApprovalId(plan.fingerprint, at, reviewer, reason), plan.fingerprint, at, reviewer,
                     reason))
  }
}
