/** The bounded breadth-first inventory of a directory tree: entry, depth and time limits,
    checkpoints, and what a report that claims complete evidence really means.  The tree stands
    for the file system during one run; entries are identified by their index path from the root. */
module Inventory {
  import opened Lists
  import opened Optional
  import opened Saturation
  import opened Sorting

  const MAX_ENTRY_LIMIT: nat := 1_000_000
  const MAX_RESULT_LIMIT: nat := 10_000
  const MAX_DEPTH_LIMIT: nat := 64
  const MAX_DURATION_LIMIT_MS: nat := 300_000
  const MAX_ISSUE_LIMIT: nat := 1_000
  const CHECKPOINT_ENTRY_INTERVAL: nat := 256
  const CHECKPOINT_INTERVAL_MS: nat := 1_000

  // ---------------------------------------------------------------- the tree

  type Position = seq<nat>

  /** What a directory iterator yields, with what its metadata says. */
  datatype Entry =
    | ReadFailed(reason: string)
    | MetadataFailed(reason: string)
    | Symlink
    | Special
    | File(path: string, local: AllocatedBytes)
    | Directory(listing: Listing)

  datatype AllocatedBytes = NotReported | Bytes(n: nat)

  datatype Listing = Unreadable(reason: string) | Entries(entries: seq<Entry>)

  function Size(listing: Listing): nat {
    match listing
    case Unreadable(_) => 0
    case Entries(entries) => |entries|
  }

  /** Every entry strictly below a directory at `at`. */
  function Below(at: Position, listing: Listing): multiset<Position>
    decreases listing, 1
  {
    From(at, listing, 0)
  }

  /** Those of its entries from number `i` on, with all that is below them. */
  function From(at: Position, listing: Listing, i: nat): multiset<Position>
    decreases listing, 0, Size(listing) - i
  {
    if i >= Size(listing) then multiset{}
    else multiset{at + [i]} + Under(at + [i], listing.entries[i]) + From(at, listing, i + 1)
  }

  /** What is below one entry. */
  function Under(at: Position, entry: Entry): multiset<Position>
    decreases entry, 0
  {
    if entry.Directory? then Below(at, entry.listing) else multiset{}
  }

  /** The candidate a file is, if it holds enough local bytes. */
  function Candidates(entry: Entry, threshold: nat): multiset<Candidate> {
    match entry
    case File(path, Bytes(n)) => if n == 0 || n < threshold then multiset{} else multiset{Candidate(path, n)}
    case _ => multiset{}
  }

  /** What an entry adds to the candidates, with all that is below it. */
  function EntryCandidates(entry: Entry, threshold: nat): multiset<Candidate>
    decreases entry, 1
  {
    Candidates(entry, threshold) + CandidatesUnder(entry, threshold)
  }

  /** All candidates below a directory, each as often as it occurs. */
  function CandidatesBelow(listing: Listing, threshold: nat): multiset<Candidate>
    decreases listing, 1
  {
    CandidatesFrom(listing, 0, threshold)
  }

  function CandidatesFrom(listing: Listing, i: nat, threshold: nat): multiset<Candidate>
    decreases listing, 0, Size(listing) - i
  {
    if i >= Size(listing) then multiset{}
    else
      EntryCandidates(listing.entries[i], threshold) + CandidatesFrom(listing, i + 1, threshold)
  }

  function CandidatesUnder(entry: Entry, threshold: nat): multiset<Candidate>
    decreases entry, 0
  {
    if entry.Directory? then CandidatesBelow(entry.listing, threshold) else multiset{}
  }

  /** A directory that can be read, of files with known allocation and directories that lie
      within `depth` more levels and are fine themselves. */
  predicate Sound(listing: Listing, depth: nat)
    decreases listing, 1
  {
    listing.Entries? && SoundFrom(listing, 0, depth)
  }

  predicate SoundFrom(listing: Listing, i: nat, depth: nat)
    decreases listing, 0, Size(listing) - i
  {
    i >= Size(listing) || (SoundEntry(listing.entries[i], depth) && SoundFrom(listing, i + 1, depth))
  }

  predicate SoundEntry(entry: Entry, depth: nat)
    decreases entry, 0
  {
    match entry
    case File(_, local) => local.Bytes?
    case Directory(listing) => depth > 0 && Sound(listing, depth - 1)
    case _ => false
  }

  /** No position is counted twice. */
  lemma {:induction false} PositionsAreUnique(at: Position, listing: Listing, p: Position)
    ensures Below(at, listing)[p] <= 1
    ensures p in Below(at, listing) ==> Extends(p, at) && p[|at|] < Size(listing)
    decreases listing, 1
  {
    UniqueFrom(at, listing, 0, p);
  }

  predicate Extends(p: Position, at: Position) {
    |at| < |p| && p[..|at|] == at
  }

  lemma {:induction false} UniqueFrom(at: Position, listing: Listing, i: nat, p: Position)
    ensures From(at, listing, i)[p] <= 1
    ensures p in From(at, listing, i) ==> Extends(p, at) && i <= p[|at|] < Size(listing)
    decreases listing, 0, Size(listing) - i
  {
    hide Below, Extends;
    if i < Size(listing) {
      var here, entry := at + [i], listing.entries[i];
      UniqueFrom(at, listing, i + 1, p);
      if entry.Directory? {
        PositionsAreUnique(here, entry.listing, p);
      }
      InBranch(at, i, p);
    }
  }

  /** An entry and all below it lie in one branch, and the entry is not below itself. */
  lemma InBranch(at: Position, i: nat, p: Position)
    ensures p == at + [i] || Extends(p, at + [i]) ==> Extends(p, at) && p[|at|] == i
    ensures !Extends(at + [i], at + [i])
  {
    if Extends(p, at + [i]) {
      assert p[..|at|] == (at + [i])[..|at|];
    }
  }

  /** The entry at a position below the root, if there is one. */
  function EntryAt(root: Listing, at: Position): Option<Entry>
    requires at != []
    decreases |at|, 0
  {
    var last := |at| - 1;
    var listing := ListingAt(root, at[..last]);
    if listing.Some? && at[last] < Size(listing.value) then Some(listing.value.entries[at[last]]) else None
  }

  /** What the directory at a position holds. */
  function ListingAt(root: Listing, at: Position): Option<Listing>
    decreases |at|, 1
  {
    if at == [] then Some(root)
    else
      var entry := EntryAt(root, at);
      if entry.Some? && entry.value.Directory? then Some(entry.value.listing) else None
  }

  /** How many of some positions hold a file. */
  function FilesAmong(root: Listing, positions: seq<Position>): nat {
    if positions == [] then 0
    else
      var last := positions[|positions| - 1];
      FilesAmong(root, positions[..|positions| - 1])
        + if last != [] && EntryAt(root, last).Some? && EntryAt(root, last).value.File? then 1 else 0
  }

  /** How many of them hold a directory. */
  function DirectoriesAmong(root: Listing, positions: seq<Position>): nat {
    if positions == [] then 0
    else
      var last := positions[|positions| - 1];
      DirectoriesAmong(root, positions[..|positions| - 1])
        + if last != [] && EntryAt(root, last).Some? && EntryAt(root, last).value.Directory? then 1 else 0
  }

  // ---------------------------------------------------------------- options and reports

  datatype Options = Options(
    minAllocatedBytes: nat, maxEntries: nat, maxResults: nat, maxDepth: nat, maxDurationMs: nat, maxIssues: nat)

  predicate ValidOptions(o: Options) {
    && 0 < o.maxEntries <= MAX_ENTRY_LIMIT && 0 < o.maxResults <= MAX_RESULT_LIMIT && o.maxDepth <= MAX_DEPTH_LIMIT
    && 0 < o.maxDurationMs <= MAX_DURATION_LIMIT_MS && 0 < o.maxIssues <= MAX_ISSUE_LIMIT
  }

  datatype Reason = MaxDuration | MaxEntries | MaxDepth | EntryErrors | AllocationUnavailable | HardTimeout

  datatype Notice =
    | CandidateOutputTruncated | CheckpointNotTerminal | Incomplete | IssuesTruncated
    | WorkerHardTimeout | PartialInventoryRecovered

  datatype Issue = Issue(at: Position, kind: string, reason: string)

  datatype Candidate = Candidate(path: string, bytes: nat)

  /** What a run reports; `scope` stands for the version and the identity of the cloud root. */
  datatype Report = Report(
    scope: string, options: Options, visitedEntries: nat, visitedFiles: nat, visitedDirectories: nat,
    skippedEntries: nat,
    issues: seq<Issue>, issuesTruncated: bool, allocatedCandidateBytes: nat, candidates: seq<Candidate>,
    resultsTruncated: bool, evidenceComplete: bool, stopReasons: seq<Reason>, notices: seq<Notice>)

  // ---------------------------------------------------------------- the report

  /** Larger candidates first, equal ones by path. */
  predicate CandidateLe(a: Candidate, b: Candidate) {
    a.bytes > b.bytes || (a.bytes == b.bytes && TextLe(a.path, b.path))
  }

  lemma CandidateOrder()
    ensures TotalPreorder(CandidateLe)
  {
    forall a, b
      ensures CandidateLe(a, b) || CandidateLe(b, a)
    {
      TextLeTotal(a.path, b.path);
    }
    forall a, b, c | CandidateLe(a, b) && CandidateLe(b, c)
      ensures CandidateLe(a, c)
    {
      if a.bytes == b.bytes == c.bytes {
        TextLeTransitive(a.path, b.path, c.path);
      }
    }
  }

  /** What is wrong with entry `at` of directory `dir`, if anything. */
  function FaultOf(dir: Position, at: Position, entry: Entry): seq<Issue> {
    match entry
    case ReadFailed(reason) => [Issue(dir, "read-entry-failed", reason)]
    case MetadataFailed(reason) => [Issue(at, "read-metadata-failed", reason)]
    case Symlink => [Issue(at, "symlink-skipped", "policy-not-followed")]
    case Special => [Issue(at, "unsupported-entry-type", "policy-not-file-or-directory")]
    case File(_, NotReported) => [Issue(at, "allocation-evidence-unavailable", "platform-unsupported")]
    case _ => []
  }

  /** Why the evidence is not complete after an entry, if it is not; the entry may be a directory that is too deep. */
  function ReasonFor(entry: Entry, atLimit: bool): seq<Reason> {
    match entry
    case ReadFailed(_) => [EntryErrors]
    case MetadataFailed(_) => [EntryErrors]
    case File(_, NotReported) => [AllocationUnavailable]
    case Directory(_) => if atLimit then [MaxDepth] else []
    case _ => []
  }

  /** Each reason is listed once. */
  function Noted(reasons: seq<Reason>, more: seq<Reason>): seq<Reason> {
    if more == [] then reasons else PushUnique(reasons, more[0])
  }

  function SumOf(candidates: seq<Candidate>): nat {
    if candidates == [] then 0 else SumOf(candidates[..|candidates| - 1]) + candidates[|candidates| - 1].bytes
  }

  /** What was dropped from the candidates ranks after everything kept. */
  predicate KeepsLargest(all: seq<Candidate>, kept: seq<Candidate>) {
    && SortedBy(CandidateLe, kept)
    && multiset(kept) <= multiset(all)
    && forall k, d | k in kept && d in multiset(all) - multiset(kept) :: CandidateLe(k, d)
  }

  /** The first so many of a sorted list are its largest. */
  lemma PrefixKeepsLargest(sorted: seq<Candidate>, n: nat)
    requires n <= |sorted| && SortedBy(CandidateLe, sorted)
    ensures KeepsLargest(sorted, sorted[..n])
  {
    hide CandidateLe;
    var kept, dropped := sorted[..n], sorted[n..];
    assert sorted == kept + dropped;
    forall k, d | k in kept && d in multiset(sorted) - multiset(kept)
      ensures CandidateLe(k, d)
    {
      assert d in dropped;
      var i, j :| 0 <= i < n && sorted[i] == k && n <= j < |sorted| && sorted[j] == d;
    }
  }

  function Truncated<T>(s: seq<T>, n: nat): seq<T> {
    if |s| > n then s[..n] else s[..|s|]
  }

  function NoticesFor(resultsTruncated: bool, checkpoint: bool, complete: bool, issuesTruncated: bool): (r: seq<Notice>)
    ensures CheckpointNotTerminal in r <==> checkpoint
    ensures Incomplete in r <==> !checkpoint && !complete
    ensures CandidateOutputTruncated in r <==> resultsTruncated
    ensures IssuesTruncated in r <==> issuesTruncated
  {
    (if resultsTruncated then [CandidateOutputTruncated] else [])
    + (if checkpoint then [CheckpointNotTerminal] else if !complete then [Incomplete] else [])
    + (if issuesTruncated then [IssuesTruncated] else [])
  }

  /** The candidates a report shows: the largest, at most so many. */
  method Largest(candidates: seq<Candidate>, maxResults: nat) returns (kept: seq<Candidate>)
    ensures KeepsLargest(candidates, kept)
    ensures |kept| == if |candidates| > maxResults then maxResults else |candidates|
  {
    hide CandidateLe;
    CandidateOrder();
    SortedIsSorted(candidates, CandidateLe);
    var sorted := Sorted(candidates, CandidateLe);
    kept := Truncated(sorted, maxResults);
    PrefixKeepsLargest(sorted, |kept|);
  }

  // ---------------------------------------------------------------- the scan

  /** A directory waiting to be read. */
  datatype Pending = Pending(at: Position, listing: Listing, depth: nat)

  /** What entry `i` of a directory adds to the queue. */
  function Deeper(dir: Pending, i: nat, maxDepth: nat): seq<Pending>
    requires i < Size(dir.listing)
  {
    var entry := dir.listing.entries[i];
    if entry.Directory? && dir.depth < maxDepth then [Pending(dir.at + [i], entry.listing, dir.depth + 1)] else []
  }

  function QueueBelow(queue: seq<Pending>): multiset<Position> {
    if queue == [] then multiset{} else Below(queue[0].at, queue[0].listing) + QueueBelow(queue[1..])
  }

  function QueueCandidates(queue: seq<Pending>, threshold: nat): multiset<Candidate> {
    if queue == [] then multiset{}
    else CandidatesBelow(queue[0].listing, threshold) + QueueCandidates(queue[1..], threshold)
  }

  predicate PendingSound(p: Pending, maxDepth: nat) {
    p.depth <= maxDepth && Sound(p.listing, maxDepth - p.depth)
  }

  predicate QueueSound(queue: seq<Pending>, maxDepth: nat) {
    queue == [] || (PendingSound(queue[0], maxDepth) && QueueSound(queue[1..], maxDepth))
  }

  /** Level by level: no entry comes after a deeper one. */
  predicate ByLevel(visited: seq<Position>) {
    forall i, j :: 0 <= i < j < |visited| ==> |visited[i]| <= |visited[j]|
  }

  /** While the directories of one level are read: what waits is on that level or, after those, on the next; and
      nothing visited is deeper than the entries of that level. */
  predicate InLevels(visited: seq<Position>, queue: seq<Pending>, level: nat, maxDepth: nat) {
    && ByLevel(visited) && (forall v <- visited :: |v| <= level + 1)
    && (forall p <- queue :: level <= |p.at| <= level + 1 && p.depth <= maxDepth)
    && forall i, j :: 0 <= i < j < |queue| ==> |queue[i].at| <= |queue[j].at|
  }

  /** What waits is what the tree holds there, and the counts are those of the files and directories visited. */
  predicate Placed(root: Listing, visited: seq<Position>, queue: seq<Pending>, files: nat, directories: nat) {
    && (forall p <- queue :: ListingAt(root, p.at) == Some(p.listing))
    && files == FilesAmong(root, visited) && directories == DirectoriesAmong(root, visited)
  }

  /** A directory is being read: it and what waits lie in the tree, level by level. */
  predicate Reading(root: Listing, visited: seq<Position>, queue: seq<Pending>, files: nat, directories: nat,
                    dir: Pending,
                    maxDepth: nat) {
    && InLevels(visited, queue, |dir.at|, maxDepth)
    && Placed(root, visited, queue, files, directories) && ListingAt(root, dir.at) == Some(dir.listing)
  }

  lemma ReadingOn(root: Listing, visited: seq<Position>, queue: seq<Pending>, files: nat, directories: nat,
                  dir: Pending,
                  i: nat, maxDepth: nat)
    requires Reading(root, visited, queue, files, directories, dir, maxDepth) && i < Size(dir.listing)
    ensures var entry := dir.listing.entries[i];
            Reading(root, visited + [dir.at + [i]], queue + Deeper(dir, i, maxDepth),
                    files + if entry.File? then 1 else 0,
                    directories + if entry.Directory? then 1 else 0, dir, maxDepth)
  {
    hide InLevels, Placed, ListingAt, Deeper;
    EntryInLevels(visited, queue, dir, i, maxDepth);
    EntryPlaced(root, visited, queue, files, directories, dir, i, maxDepth);
  }

  lemma PlacedNext(root: Listing, visited: seq<Position>, queue: seq<Pending>, files: nat, directories: nat)
    requires Placed(root, visited, queue, files, directories) && queue != []
    ensures Placed(root, visited, queue[1..], files, directories)
    ensures ListingAt(root, queue[0].at) == Some(queue[0].listing)
  {
    hide ListingAt, FilesAmong, DirectoriesAmong;
    assert queue[0] in queue && forall p <- queue[1..] :: p in queue;
  }

  lemma EntryPlaced(root: Listing, visited: seq<Position>, queue: seq<Pending>, files: nat, directories: nat,
                    dir: Pending,
                    i: nat, maxDepth: nat)
    requires Placed(root, visited, queue, files, directories) && ListingAt(root, dir.at) == Some(dir.listing)
    requires i < Size(dir.listing)
    ensures var entry := dir.listing.entries[i];
            Placed(root, visited + [dir.at + [i]], queue + Deeper(dir, i, maxDepth),
                   files + if entry.File? then 1 else 0, directories + if entry.Directory? then 1 else 0)
  {
    var at, more := dir.at + [i], visited + [dir.at + [i]];
    assert at[..|at| - 1] == dir.at && at[|at| - 1] == i;
    assert EntryAt(root, at) == Some(dir.listing.entries[i]);
    assert more[..|more| - 1] == visited && more[|more| - 1] == at;
  }

  /** The head of the queue gives the level to read next. */
  lemma HeadInLevels(visited: seq<Position>, queue: seq<Pending>, level: nat, maxDepth: nat)
    requires InLevels(visited, queue, level, maxDepth) && queue != []
    ensures queue[0].depth <= maxDepth && InLevels(visited, queue[1..], |queue[0].at|, maxDepth)
  {
    assert queue[0] in queue;
    forall p | p in queue[1..]
      ensures |queue[0].at| <= |p.at| <= |queue[0].at| + 1 && p.depth <= maxDepth
    {
      var i :| 0 <= i < |queue[1..]| && queue[1..][i] == p;
      assert queue[i + 1] == p && p in queue;
    }
  }

  lemma EntryInLevels(visited: seq<Position>, queue: seq<Pending>, dir: Pending, i: nat, maxDepth: nat)
    requires InLevels(visited, queue, |dir.at|, maxDepth) && i < Size(dir.listing)
    ensures InLevels(visited + [dir.at + [i]], queue + Deeper(dir, i, maxDepth), |dir.at|, maxDepth)
  {
    var more, waiting := visited + [dir.at + [i]], queue + Deeper(dir, i, maxDepth);
    forall k, j | 0 <= k < j < |more|
      ensures |more[k]| <= |more[j]|
    {
      assert more[k] in visited;
    }
    forall k, j | 0 <= k < j < |waiting|
      ensures |waiting[k].at| <= |waiting[j].at|
    {
      assert waiting[k] in queue;
    }
  }

  lemma AddBetween<T>(a: multiset<T>, b: multiset<T>, c: multiset<T>, more: multiset<T>)
    ensures a + (b + more) + c == a + b + c + more
  {
  }

  /** A directory adds what is below it, a file the candidate that it may be, and only a file with known allocation
      is fine otherwise. */
  lemma EntryKinds(dir: Position, at: Position, entry: Entry, threshold: nat, depth: nat)
    ensures entry.Directory? ==>
              && Under(at, entry) == Below(at, entry.listing)
              && EntryCandidates(entry, threshold) == CandidatesBelow(entry.listing, threshold)
              && (SoundEntry(entry, depth) <==> depth > 0 && Sound(entry.listing, depth - 1))
              && FaultOf(dir, at, entry) == []
    ensures !entry.Directory? ==>
              && Under(at, entry) == multiset{}
              && EntryCandidates(entry, threshold) == Candidates(entry, threshold)
              && (SoundEntry(entry, depth) <==> entry.File? && entry.local.Bytes?)
  {
    hide Below, CandidatesBelow, Sound;
  }

  lemma {:induction false} QueueAppend(queue: seq<Pending>, p: Pending, threshold: nat, maxDepth: nat)
    ensures QueueBelow(queue + [p]) == QueueBelow(queue) + Below(p.at, p.listing)
    ensures QueueCandidates(queue + [p], threshold)
              == QueueCandidates(queue, threshold) + CandidatesBelow(p.listing, threshold)
    ensures QueueSound(queue + [p], maxDepth) <==> QueueSound(queue, maxDepth) && PendingSound(p, maxDepth)
  {
    hide Below, CandidatesBelow, PendingSound;
    if queue == [] {
      assert queue + [p] == [p];
      assert [p][1..] == [];
    } else {
      assert (queue + [p])[1..] == queue[1..] + [p];
      QueueAppend(queue[1..], p, threshold, maxDepth);
    }
  }

  /** The sum of saturating additions saturates where the sum does. */
  lemma SumOfAppend(candidates: seq<Candidate>, c: Candidate)
    ensures SumOf(candidates + [c]) == SumOf(candidates) + c.bytes
  {
    assert (candidates + [c])[..|candidates|] == candidates;
  }

  class Scan {
    const scope: string
    const options: Options
    var candidates: seq<Candidate>
    var visitedEntries: nat
    var visitedFiles: nat
    var visitedDirectories: nat
    var skippedEntries: nat
    var issues: seq<Issue>
    var allocatedCandidateBytes: nat
    var stopReasons: seq<Reason>
    var queue: seq<Pending>
    /** Entries visited, in order, and what lies below directories that were too deep. */
    ghost var visited: seq<Position>
    ghost var lost: multiset<Position>
    ghost var lostCandidates: multiset<Candidate>
    /** The tree being read. */
    ghost const root: Listing
    /** Every issue met, in order. */
    ghost var faults: seq<Issue>

    constructor (scope: string, options: Options, root: Listing)
      requires ValidOptions(options)
      ensures Valid() && this.scope == scope && this.options == options && this.root == root
      ensures queue == [Pending([], root, 0)] && Clean() && visited == [] && candidates == []
      ensures visitedFiles == 0 && visitedDirectories == 0
      ensures skippedEntries == 0 && stopReasons == [] && faults == []
    {
      this.scope, this.options, this.root := scope, options, root;
      candidates, visitedEntries, visitedFiles, visitedDirectories, skippedEntries := [], 0, 0, 0, 0;
      issues, allocatedCandidateBytes, stopReasons, queue := [], 0, [], [Pending([], root, 0)];
      visited, lost, lostCandidates, faults := [], multiset{}, multiset{}, [];
    }

    /** Nothing skipped, nothing cut off. */
    ghost predicate Clean()
      reads this`stopReasons, this`skippedEntries
    {
      stopReasons == [] && skippedEntries == 0
    }

    ghost predicate Valid()
      reads this
    {
      && ValidOptions(options)
      && visitedEntries == |visited| <= options.maxEntries
      && visitedFiles + visitedDirectories <= visitedEntries
      && allocatedCandidateBytes == Saturated(SumOf(candidates))
      && (Clean() ==> lost == multiset{} && lostCandidates == multiset{})
      && skippedEntries == |faults| && issues == Truncated(faults, options.maxIssues)
    }

    /** Every entry that is visited, given up, or still below a waiting directory. */
    ghost function Accounted(): multiset<Position>
      reads this`visited, this`lost, this`queue
    {
      multiset(visited) + lost + QueueBelow(queue)
    }

    ghost function AccountedCandidates(): multiset<Candidate>
      reads this`candidates, this`lostCandidates, this`queue
    {
      multiset(candidates) + lostCandidates + QueueCandidates(queue, options.minAllocatedBytes)
    }

    /** What waits, and what was counted, is in the tree. */
    ghost predicate TreePlaced()
      reads this`visited, this`queue, this`visitedFiles, this`visitedDirectories
    {
      Placed(root, visited, queue, visitedFiles, visitedDirectories)
    }

    ghost predicate StillSound()
      reads this`stopReasons, this`skippedEntries, this`queue
    {
      Clean() && QueueSound(queue, options.maxDepth)
    }

    method RecordIssue(at: Position, kind: string, reason: string)
      requires Valid()
      modifies this`skippedEntries, this`issues, this`faults
      ensures Valid() && faults == old(faults) + [Issue(at, kind, reason)] && !Clean()
    {
      hide SumOf, Saturated, ValidOptions;
      skippedEntries := skippedEntries + 1;
      faults := faults + [Issue(at, kind, reason)];
      if |issues| < options.maxIssues {
        issues := issues + [Issue(at, kind, reason)];
      }
    }

    method StopFor(reason: Reason)
      requires Valid()
      modifies this`stopReasons
      ensures Valid() && stopReasons == PushUnique(old(stopReasons), reason) && !Clean()
    {
      stopReasons := PushUnique(stopReasons, reason);
    }

    method CountEntry(ghost at: Position)
      requires Valid() && visitedEntries < options.maxEntries
      modifies this`visitedEntries, this`visited
      ensures Valid() && visitedEntries == old(visitedEntries) + 1 && visited == old(visited) + [at]
      ensures visitedFiles + visitedDirectories < visitedEntries
      ensures Accounted() == old(Accounted()) + multiset{at}
    {
      hide QueueBelow, SumOf, Saturated, ValidOptions;
      visitedEntries := visitedEntries + 1;
      visited := visited + [at];
      assert multiset(visited) == multiset(old(visited)) + multiset{at};
    }

    /** A directory joins the queue, and what lies below it is waited for. */
    method Enqueue(p: Pending)
      requires Valid()
      modifies this`queue
      ensures Valid() && queue == old(queue) + [p]
      ensures Accounted() == old(Accounted()) + Below(p.at, p.listing)
      ensures AccountedCandidates()
                == old(AccountedCandidates()) + CandidatesBelow(p.listing, options.minAllocatedBytes)
      ensures QueueSound(queue, options.maxDepth) <==>
                old(QueueSound(queue, options.maxDepth)) && PendingSound(p, options.maxDepth)
    {
      hide Below, CandidatesBelow, PendingSound, QueueBelow, QueueCandidates, QueueSound, Saturated, SumOf;
      hide ValidOptions;
      QueueAppend(queue, p, options.minAllocatedBytes, options.maxDepth);
      queue := queue + [p];
    }

    /** A directory that is too deep is given up, and the scan is no longer complete. */
    method GiveUp(ghost at: Position, ghost listing: Listing)
      requires Valid()
      modifies this`stopReasons, this`lost, this`lostCandidates
      ensures Valid() && !Clean() && stopReasons == PushUnique(old(stopReasons), MaxDepth)
      ensures Accounted() == old(Accounted()) + Below(at, listing)
      ensures AccountedCandidates() == old(AccountedCandidates()) + CandidatesBelow(listing, options.minAllocatedBytes)
    {
      hide Below, CandidatesBelow, PendingSound, QueueBelow, QueueCandidates, QueueSound, Saturated, SumOf;
      hide ValidOptions;
      StopFor(MaxDepth);
      AddBetween(multiset(visited), lost, QueueBelow(queue), Below(at, listing));
      AddBetween(multiset(candidates), lostCandidates, QueueCandidates(queue, options.minAllocatedBytes),
                 CandidatesBelow(listing, options.minAllocatedBytes));
      lost := lost + Below(at, listing);
      lostCandidates := lostCandidates + CandidatesBelow(listing, options.minAllocatedBytes);
    }

    /** A directory within the depth limit joins the queue; a deeper one is given up. */
    method VisitDirectory(at: Position, depth: nat, listing: Listing)
      requires Valid() && depth <= options.maxDepth && visitedFiles + visitedDirectories < visitedEntries
      modifies this`visitedDirectories, this`queue, this`stopReasons, this`lost, this`lostCandidates
      ensures Valid() && visitedDirectories == old(visitedDirectories) + 1
      ensures stopReasons == Noted(old(stopReasons), ReasonFor(Directory(listing), depth >= options.maxDepth))
      ensures queue == old(queue) + if depth < options.maxDepth then [Pending(at, listing, depth + 1)] else []
      ensures Accounted() == old(Accounted()) + Below(at, listing)
      ensures AccountedCandidates() == old(AccountedCandidates()) + CandidatesBelow(listing, options.minAllocatedBytes)
      ensures StillSound() <==> old(StillSound()) && SoundEntry(Directory(listing), options.maxDepth - depth)
    {
      hide Below, CandidatesBelow, Accounted, AccountedCandidates, Valid, QueueSound, Sound, QueueBelow;
      hide QueueCandidates;
      CountDirectory();
      if depth < options.maxDepth {
        Enqueue(Pending(at, listing, depth + 1));
      } else {
        GiveUp(at, listing);
      }
    }

    method CountDirectory()
      requires Valid() && visitedFiles + visitedDirectories < visitedEntries
      modifies this`visitedDirectories
      ensures Valid() && visitedDirectories == old(visitedDirectories) + 1
    {
      visitedDirectories := visitedDirectories + 1;
    }

    method AddCandidate(c: Candidate)
      requires Valid()
      modifies this`candidates, this`allocatedCandidateBytes
      ensures Valid() && candidates == old(candidates) + [c]
      ensures AccountedCandidates() == old(AccountedCandidates()) + multiset{c}
    {
      hide QueueCandidates, SumOf, ValidOptions, Clean;
      SumOfAppend(candidates, c);
      allocatedCandidateBytes := SaturatingAdd(allocatedCandidateBytes, c.bytes);
      candidates := candidates + [c];
    }

    method CountFile()
      requires Valid() && visitedFiles + visitedDirectories < visitedEntries
      modifies this`visitedFiles
      ensures Valid() && visitedFiles == old(visitedFiles) + 1
    {
      visitedFiles := visitedFiles + 1;
    }

    method VisitFile(dir: Position, at: Position, path: string, local: AllocatedBytes)
      requires Valid() && visitedFiles + visitedDirectories < visitedEntries
      modifies this`visitedFiles, this`skippedEntries, this`issues, this`faults, this`stopReasons, this`candidates,
               this`allocatedCandidateBytes
      ensures Valid() && faults == old(faults) + FaultOf(dir, at, File(path, local))
      ensures visitedFiles == old(visitedFiles) + 1
      ensures stopReasons == Noted(old(stopReasons), ReasonFor(File(path, local), false))
      ensures AccountedCandidates()
                == old(AccountedCandidates()) + Candidates(File(path, local), options.minAllocatedBytes)
      ensures Clean() <==> old(Clean()) && local.Bytes?
    {
      hide Valid, AccountedCandidates;
      CountFile();
      match local {
        case NotReported =>
          RecordIssue(at, "allocation-evidence-unavailable", "platform-unsupported");
          StopFor(AllocationUnavailable);
        case Bytes(n) =>
          if n != 0 && n >= options.minAllocatedBytes {
            AddCandidate(Candidate(path, n));
          }
      }
    }

    /** What becomes of a counted entry. */
    method Classify(dir: Position, at: Position, depth: nat, entry: Entry)
      requires Valid() && depth <= options.maxDepth && visitedFiles + visitedDirectories < visitedEntries
      modifies this`visitedFiles, this`visitedDirectories, this`skippedEntries, this`issues, this`faults,
               this`stopReasons,
               this`candidates, this`allocatedCandidateBytes, this`queue, this`lost, this`lostCandidates
      ensures Valid() && faults == old(faults) + FaultOf(dir, at, entry)
      ensures stopReasons == Noted(old(stopReasons), ReasonFor(entry, depth >= options.maxDepth))
      ensures visitedFiles == old(visitedFiles) + (if entry.File? then 1 else 0)
      ensures visitedDirectories == old(visitedDirectories) + (if entry.Directory? then 1 else 0)
      ensures queue == old(queue)
                       + if entry.Directory? && depth < options.maxDepth then [Pending(at, entry.listing, depth + 1)]
                         else []
      ensures Accounted() == old(Accounted()) + Under(at, entry)
      ensures AccountedCandidates() == old(AccountedCandidates()) + EntryCandidates(entry, options.minAllocatedBytes)
      ensures StillSound() <==> old(StillSound()) && SoundEntry(entry, options.maxDepth - depth)
    {
      hide Valid, Accounted, AccountedCandidates, Clean, QueueSound, Under, EntryCandidates, SoundEntry, FaultOf;
      EntryKinds(dir, at, entry, options.minAllocatedBytes, options.maxDepth - depth);
      if entry.Directory? {
        VisitDirectory(at, depth, entry.listing);
      } else {
        assert Accounted() + multiset{} == Accounted();
        VisitLeaf(dir, at, entry);
      }
    }

    /** An entry with nothing below it. */
    method VisitLeaf(dir: Position, at: Position, entry: Entry)
      requires Valid() && !entry.Directory? && visitedFiles + visitedDirectories < visitedEntries
      modifies this`visitedFiles, this`skippedEntries, this`issues, this`faults, this`stopReasons, this`candidates,
               this`allocatedCandidateBytes
      ensures Valid() && faults == old(faults) + FaultOf(dir, at, entry)
      ensures stopReasons == Noted(old(stopReasons), ReasonFor(entry, false))
      ensures visitedFiles == old(visitedFiles) + (if entry.File? then 1 else 0)
      ensures AccountedCandidates() == old(AccountedCandidates()) + Candidates(entry, options.minAllocatedBytes)
      ensures Clean() <==> old(Clean()) && entry.File? && entry.local.Bytes?
    {
      hide Valid, AccountedCandidates, Clean;
      if entry.File? {
        VisitFile(dir, at, entry.path, entry.local);
      } else {
        assert AccountedCandidates() + multiset{} == AccountedCandidates();
        VisitOther(dir, at, entry);
      }
    }

    method VisitOther(dir: Position, at: Position, entry: Entry)
      requires Valid() && !entry.File? && !entry.Directory?
      modifies this`skippedEntries, this`issues, this`faults, this`stopReasons
      ensures Valid() && faults == old(faults) + FaultOf(dir, at, entry)
      ensures !Clean() && stopReasons == Noted(old(stopReasons), ReasonFor(entry, false))
    {
      hide Valid, PushUnique;
      match entry {
        case ReadFailed(reason) =>
          RecordIssue(dir, "read-entry-failed", reason);
          StopFor(EntryErrors);
        case MetadataFailed(reason) =>
          RecordIssue(at, "read-metadata-failed", reason);
          StopFor(EntryErrors);
        case Symlink =>
          RecordIssue(at, "symlink-skipped", "policy-not-followed");
        case Special =>
          RecordIssue(at, "unsupported-entry-type", "policy-not-file-or-directory");
      }
    }

    /** Visits entry `i` of a directory: it is counted once, and all below it is queued or given up. */
    method VisitEntry(dir: Pending, i: nat)
      requires Valid() && visitedEntries < options.maxEntries && dir.depth <= options.maxDepth
      requires i < Size(dir.listing)
      modifies this
      ensures Valid() && visitedEntries == old(visitedEntries) + 1
      ensures visited == old(visited) + [dir.at + [i]]
      ensures queue == old(queue) + Deeper(dir, i, options.maxDepth)
      ensures faults == old(faults) + FaultOf(dir.at, dir.at + [i], dir.listing.entries[i])
      ensures stopReasons
              == Noted(old(stopReasons), ReasonFor(dir.listing.entries[i], dir.depth >= options.maxDepth))
      ensures visitedFiles == old(visitedFiles) + (if dir.listing.entries[i].File? then 1 else 0)
      ensures visitedDirectories == old(visitedDirectories) + (if dir.listing.entries[i].Directory? then 1 else 0)
      ensures Accounted() == old(Accounted()) + multiset{dir.at + [i]} + Under(dir.at + [i], dir.listing.entries[i])
      ensures AccountedCandidates()
              == old(AccountedCandidates()) + EntryCandidates(dir.listing.entries[i], options.minAllocatedBytes)
      ensures StillSound() <==> old(StillSound()) && SoundEntry(dir.listing.entries[i], options.maxDepth - dir.depth)
    {
      hide Valid, Accounted, AccountedCandidates, Under, EntryCandidates, StillSound, SoundEntry, FaultOf;
      CountEntry(dir.at + [i]);
      Classify(dir.at, dir.at + [i], dir.depth, dir.listing.entries[i]);
    }

    /** The next directory leaves the queue; what lies below it is still to be accounted for. */
    method Next() returns (dir: Pending)
      requires Valid() && queue != []
      modifies this`queue
      ensures Valid() && dir == old(queue)[0] && queue == old(queue)[1..]
      ensures Accounted() + Below(dir.at, dir.listing) == old(Accounted())
      ensures AccountedCandidates() + CandidatesBelow(dir.listing, options.minAllocatedBytes)
                == old(AccountedCandidates())
      ensures old(StillSound()) <==> StillSound() && PendingSound(dir, options.maxDepth)
    {
      hide Below, CandidatesBelow, Sound, Saturated, SumOf, ValidOptions;
      dir := queue[0];
      queue := queue[1..];
    }

    /** The report on the scan as it stands. */
    method InventoryReport(checkpoint: bool) returns (r: Report)
      requires Valid()
      ensures r.scope == scope && r.options == options && r.stopReasons == stopReasons
      ensures r.visitedEntries == visitedEntries && r.visitedFiles == visitedFiles
      ensures r.visitedDirectories == visitedDirectories && r.skippedEntries == skippedEntries && r.issues == issues
      ensures r.allocatedCandidateBytes == Saturated(SumOf(candidates))
      ensures r.evidenceComplete <==> !checkpoint && Clean()
      ensures KeepsLargest(candidates, r.candidates) && |r.candidates| <= options.maxResults
      ensures r.resultsTruncated <==> |r.candidates| < |candidates|
      ensures r.resultsTruncated ==> |r.candidates| == options.maxResults
      ensures r.issuesTruncated <==> options.maxIssues < skippedEntries
      ensures CheckpointNotTerminal in r.notices <==> checkpoint
      ensures Incomplete in r.notices <==> !checkpoint && !r.evidenceComplete
      ensures CandidateOutputTruncated in r.notices <==> r.resultsTruncated
      ensures IssuesTruncated in r.notices <==> r.issuesTruncated
    {
      hide Saturated, SumOf, KeepsLargest, NoticesFor, ValidOptions;
      var kept := Largest(candidates, options.maxResults);
      var resultsTruncated, issuesTruncated := |candidates| > options.maxResults, skippedEntries > |issues|;
      var complete := !checkpoint && stopReasons == [] && skippedEntries == 0;
      r := Report(scope, options, visitedEntries, visitedFiles, visitedDirectories, skippedEntries, issues,
                  issuesTruncated, allocatedCandidateBytes, kept, resultsTruncated, complete, stopReasons,
                  NoticesFor(resultsTruncated, checkpoint, complete, issuesTruncated));
    }
  }

  // ---------------------------------------------------------------- checkpoints

  predicate IsCheckpoint(r: Report, scope: string, options: Options) {
    r.scope == scope && r.options == options && !r.evidenceComplete && CheckpointNotTerminal in r.notices
  }

  function Since(now: nat, before: nat): nat {
    if now > before then now - before else 0
  }

  /** When snapshots are due, and those that were accepted; the watcher accepts or refuses each one. */
  class CheckpointCadence {
    const accepts: nat -> bool
    var emitted: bool
    var visitedEntries: nat
    var skippedEntries: nat
    var elapsedMs: nat
    var received: seq<Report>

    constructor (accepts: nat -> bool)
      ensures this.accepts == accepts && received == [] && !emitted
    {
      this.accepts := accepts;
      emitted, visitedEntries, skippedEntries, elapsedMs, received := false, 0, 0, 0, [];
    }

    /** What is remembered is what the last accepted snapshot said. */
    ghost predicate Tracks(scan: Scan)
      reads this
    {
      && (emitted <==> received != [])
      && (emitted ==> var last := received[|received| - 1];
                      visitedEntries == last.visitedEntries && skippedEntries == last.skippedEntries)
      && forall r <- received :: IsCheckpoint(r, scan.scope, scan.options)
    }

    /** A snapshot exists and lags by fewer entries, less time and no issue. */
    ghost predicate UpToDate(scan: Scan, elapsed: nat)
      reads this, scan
    {
      && emitted
      && scan.visitedEntries < visitedEntries + 256
      && elapsed < elapsedMs + 1_000
      && scan.skippedEntries == skippedEntries
    }

    method MaybeEmit(scan: Scan, elapsed: nat, force: bool) returns (ok: bool)
      requires scan.Valid() && Tracks(scan)
      modifies this
      ensures Tracks(scan) && |received| <= |old(received)| + 1
      ensures received == old(received) <==> !ok || (!force && old(UpToDate(scan, elapsed)))
      ensures ok ==> UpToDate(scan, elapsed)
      ensures !ok ==> !accepts(|received|)
    {
      var entriesDue := Since(scan.visitedEntries, visitedEntries) >= CHECKPOINT_ENTRY_INTERVAL;
      var timeDue := Since(elapsed, elapsedMs) >= CHECKPOINT_INTERVAL_MS;
      var issueDue := scan.skippedEntries != skippedEntries;
      if !force && emitted && !entriesDue && !timeDue && !issueDue {
        return true;
      }
      var snapshot := scan.InventoryReport(true);
      if !accepts(|received|) {
        return false;
      }
      received := received + [snapshot];
      emitted, visitedEntries, skippedEntries, elapsedMs := true, scan.visitedEntries, scan.skippedEntries, elapsed;
      ok := true;
    }
  }

  // ---------------------------------------------------------------- a run

  datatype Stop = Finished | OutOfTime | OutOfEntries | WatcherFailed

  /** One step of a directory: what one more entry adds to the accounts. */
  lemma OneMore(at: Position, listing: Listing, i: nat, threshold: nat, depth: nat)
    requires i < Size(listing)
    ensures From(at, listing, i) == multiset{at + [i]} + Under(at + [i], listing.entries[i]) + From(at, listing, i + 1)
    ensures CandidatesFrom(listing, i, threshold)
            == EntryCandidates(listing.entries[i], threshold) + CandidatesFrom(listing, i + 1, threshold)
    ensures SoundFrom(listing, i, depth) <==> SoundEntry(listing.entries[i], depth) && SoundFrom(listing, i + 1, depth)
  {
    hide Under, EntryCandidates, SoundEntry;
  }

  /** Some reading of the clock is at or past the limit. */
  ghost predicate ClockExpires(clock: nat -> nat, limit: nat) {
    exists t: nat :: clock(t) >= limit
  }

  ghost predicate WatcherRefuses(accepts: nat -> bool) {
    exists k: nat :: !accepts(k)
  }

  /** All there is: what is visited, given up, waiting, or still to be read from entry `i` of a directory. */
  ghost predicate Balanced(scan: Scan, dir: Pending, i: nat, all: multiset<Position>, candidates: multiset<Candidate>)
    reads scan
  {
    && scan.Valid()
    && Reading(scan.root, scan.visited, scan.queue, scan.visitedFiles, scan.visitedDirectories, dir,
               scan.options.maxDepth)
    && dir.depth <= scan.options.maxDepth && i <= Size(dir.listing)
    && scan.Accounted() + From(dir.at, dir.listing, i) == all
    && scan.AccountedCandidates() + CandidatesFrom(dir.listing, i, scan.options.minAllocatedBytes) == candidates
  }

  /** Nothing wrong so far, nor in what is left. */
  ghost predicate SoundYet(scan: Scan, dir: Pending, i: nat)
    requires dir.depth <= scan.options.maxDepth
    reads scan
  {
    scan.StillSound() && SoundFrom(dir.listing, i, scan.options.maxDepth - dir.depth)
  }

  /** With checkpoints on, the last snapshot lags by at most one interval of entries. */
  ghost predicate Watched(cadence: CheckpointCadence, scan: Scan, checkpoints: bool)
    reads cadence, scan
  {
    && cadence.Tracks(scan)
    && (checkpoints ==> cadence.emitted || scan.visitedEntries == 0)
    && (checkpoints ==> scan.visitedEntries <= cadence.visitedEntries + CHECKPOINT_ENTRY_INTERVAL)
    && (!checkpoints ==> cadence.received == [])
  }

  lemma MoveOver<T>(done: multiset<T>, one: multiset<T>, under: multiset<T>, rest: multiset<T>)
    ensures done + (one + under + rest) == done + one + under + rest
  {
  }

  method VisitNext(scan: Scan, dir: Pending, n: nat, ghost all: multiset<Position>,
                   ghost candidates: multiset<Candidate>)
    requires Balanced(scan, dir, n, all, candidates) && n < Size(dir.listing)
    requires scan.visitedEntries < scan.options.maxEntries
    modifies scan
    ensures Balanced(scan, dir, n + 1, all, candidates)
    ensures SoundYet(scan, dir, n + 1) <==> old(SoundYet(scan, dir, n))
    ensures scan.visitedEntries == old(scan.visitedEntries) + 1 && |scan.queue| <= |old(scan.queue)| + 1
  {
    hide From, CandidatesFrom, EntryCandidates, Under, SoundFrom, SoundEntry, Reading, Deeper;
    hide Scan.Valid, Scan.Accounted, Scan.AccountedCandidates, Scan.StillSound;
    var at, entry, threshold := dir.at + [n], dir.listing.entries[n], scan.options.minAllocatedBytes;
    OneMore(dir.at, dir.listing, n, threshold, scan.options.maxDepth - dir.depth);
    MoveOver(scan.Accounted(), multiset{at}, Under(at, entry), From(dir.at, dir.listing, n + 1));
    ReadingOn(scan.root, scan.visited, scan.queue, scan.visitedFiles, scan.visitedDirectories, dir, n,
              scan.options.maxDepth);
    scan.VisitEntry(dir, n);
    assert |scan.queue| <= |old(scan.queue)| + 1 by { DeeperSize(dir, n, scan.options.maxDepth); }
  }

  lemma DeeperSize(dir: Pending, i: nat, maxDepth: nat)
    requires i < Size(dir.listing)
    ensures |Deeper(dir, i, maxDepth)| <= 1
  {
  }

  /** Watched, and with a snapshot that one entry more will not make too old. */
  ghost predicate WatchedAhead(cadence: CheckpointCadence, scan: Scan, checkpoints: bool)
    reads cadence, scan
  {
    && Watched(cadence, scan, checkpoints)
    && (checkpoints ==> cadence.emitted && scan.visitedEntries < cadence.visitedEntries + CHECKPOINT_ENTRY_INTERVAL)
  }

  /** Hands out a snapshot if one is due. */
  method Snapshot(scan: Scan, cadence: CheckpointCadence, now: nat, checkpoints: bool, force: bool) returns (ok: bool)
    requires scan.Valid() && Watched(cadence, scan, checkpoints)
    modifies cadence
    ensures Watched(cadence, scan, checkpoints)
    ensures ok ==> WatchedAhead(cadence, scan, checkpoints)
    ensures !ok ==> checkpoints && WatcherRefuses(cadence.accepts)
    ensures cadence.received == old(cadence.received) <==>
              !ok || !checkpoints || (!force && old(cadence.UpToDate(scan, now)))
  {
    hide Scan.Valid, IsCheckpoint;
    ok := true;
    if checkpoints {
      ok := cadence.MaybeEmit(scan, now, force);
    }
  }

  /** Stops for the time or for the number of entries, if one of them is used up. */
  method CheckLimits(scan: Scan, dir: Pending, n: nat, now: nat, ghost cadence: CheckpointCadence,
                     ghost checkpoints: bool,
                     ghost all: multiset<Position>, ghost candidates: multiset<Candidate>)
    returns (stop: Stop)
    requires Balanced(scan, dir, n, all, candidates) && WatchedAhead(cadence, scan, checkpoints)
    modifies scan`stopReasons
    ensures Balanced(scan, dir, n, all, candidates) && WatchedAhead(cadence, scan, checkpoints)
    ensures stop.Finished? ==>
              scan.stopReasons == old(scan.stopReasons) && scan.visitedEntries < scan.options.maxEntries
    ensures stop.Finished? ==> (SoundYet(scan, dir, n) <==> old(SoundYet(scan, dir, n)))
    ensures stop.OutOfTime? <==> now >= scan.options.maxDurationMs
    ensures stop.OutOfTime? ==> !scan.Clean() && scan.stopReasons == PushUnique(old(scan.stopReasons), MaxDuration)
    ensures stop.OutOfEntries? ==>
              && !scan.Clean() && scan.visitedEntries == scan.options.maxEntries
              && scan.stopReasons == PushUnique(old(scan.stopReasons), MaxEntries)
    ensures !stop.WatcherFailed?
  {
    hide Below, QueueBelow, QueueCandidates, From, CandidatesFrom, InLevels, SumOf, Saturated, Scan.Clean, IsCheckpoint;
    if now >= scan.options.maxDurationMs {
      scan.StopFor(MaxDuration);
      return OutOfTime;
    }
    if scan.visitedEntries >= scan.options.maxEntries {
      scan.StopFor(MaxEntries);
      return OutOfEntries;
    }
    return Finished;
  }

  /** One entry after it was found that there is one and the limits allow it. */
  method ReadEntry(scan: Scan, dir: Pending, n: nat, cadence: CheckpointCadence, checkpoints: bool,
                   ghost all: multiset<Position>, ghost candidates: multiset<Candidate>)
    requires Balanced(scan, dir, n, all, candidates) && n < Size(dir.listing)
               && WatchedAhead(cadence, scan, checkpoints)
    requires scan.visitedEntries < scan.options.maxEntries
    modifies scan
    ensures Balanced(scan, dir, n + 1, all, candidates) && Watched(cadence, scan, checkpoints)
    ensures SoundYet(scan, dir, n + 1) <==> old(SoundYet(scan, dir, n))
    ensures scan.visitedEntries == old(scan.visitedEntries) + 1 && |scan.queue| <= |old(scan.queue)| + 1
  {
    hide Balanced, SoundYet, IsCheckpoint;
    VisitNext(scan, dir, n, all, candidates);
  }

  /** Reads one directory as far as the limits allow; `i` entries of it have been visited. */
  method ScanDirectory(scan: Scan, dir: Pending, clock: nat -> nat, start: nat, cadence: CheckpointCadence,
                       checkpoints: bool,
                       ghost all: multiset<Position>, ghost candidates: multiset<Candidate>)
    returns (tick: nat, stop: Stop, ghost i: nat)
    requires Balanced(scan, dir, 0, all, candidates) && Watched(cadence, scan, checkpoints)
    modifies scan, cadence
    ensures Balanced(scan, dir, i, all, candidates) && Watched(cadence, scan, checkpoints)
    ensures 2 * scan.visitedEntries + |old(scan.queue)| >= 2 * old(scan.visitedEntries) + |scan.queue|
    ensures stop.Finished? ==> i == Size(dir.listing) && (SoundYet(scan, dir, i) <==> old(SoundYet(scan, dir, 0)))
    ensures stop.OutOfTime? ==> !scan.Clean() && ClockExpires(clock, scan.options.maxDurationMs)
    ensures stop.OutOfEntries? ==>
              !scan.Clean() && scan.visitedEntries == scan.options.maxEntries && i < Size(dir.listing)
    ensures stop.WatcherFailed? ==> checkpoints && WatcherRefuses(cadence.accepts)
    ensures tick == start + 2 * i + if stop.OutOfTime? || stop.OutOfEntries? then 2 else 1
  {
    hide Balanced, SoundYet, Watched, Scan.Valid, Scan.Clean, WatcherRefuses, PushUnique;
    tick, stop := start, Finished;
    var n := 0;
    BalancedSize(scan, dir, n, all, candidates);
    while true
      invariant Balanced(scan, dir, n, all, candidates) && Watched(cadence, scan, checkpoints)
      invariant n <= Size(dir.listing) && dir.depth <= scan.options.maxDepth && tick == start + 2 * n
      invariant 2 * scan.visitedEntries + |old(scan.queue)| >= 2 * old(scan.visitedEntries) + |scan.queue|
      invariant SoundYet(scan, dir, n) <==> old(SoundYet(scan, dir, 0))
      decreases Size(dir.listing) - n
    {
      BalancedSize(scan, dir, n, all, candidates);
      var now := clock(tick);
      tick := tick + 1;
      var ok := Snapshot(scan, cadence, now, checkpoints, false);
      if !ok {
        return tick, WatcherFailed, n;
      }
      if n == Size(dir.listing) {
        return tick, Finished, n;
      }
      now := clock(tick);
      tick := tick + 1;
      stop := CheckLimits(scan, dir, n, now, cadence, checkpoints, all, candidates);
      if !stop.Finished? {
        return tick, stop, n;
      }
      ReadEntry(scan, dir, n, cadence, checkpoints, all, candidates);
      n := n + 1;
    }
  }

  lemma BalancedSize(scan: Scan, dir: Pending, n: nat, all: multiset<Position>, candidates: multiset<Candidate>)
    requires Balanced(scan, dir, n, all, candidates)
    ensures scan.Valid() && n <= Size(dir.listing) && dir.depth <= scan.options.maxDepth
  {
  }

  /** Between directories: everything is visited, given up or waiting, and soundness is not yet decided. */
  ghost predicate Between(scan: Scan, root: Listing)
    reads scan
  {
    && scan.Valid() && scan.root == root && scan.TreePlaced()
    && (exists level: nat :: InLevels(scan.visited, scan.queue, level, scan.options.maxDepth))
    && scan.Accounted() == Below([], root)
    && scan.AccountedCandidates() == CandidatesBelow(root, scan.options.minAllocatedBytes)
    && (scan.StillSound() <==> Sound(root, scan.options.maxDepth))
  }

  /** A run that was cut short is not clean, and leaves some entries unread. */
  ghost predicate CutShort(scan: Scan, root: Listing, rest: multiset<Position>, restCandidates: multiset<Candidate>)
    reads scan
  {
    && scan.Valid() && !scan.Clean() && ByLevel(scan.visited) && scan.root == root && scan.TreePlaced()
    && scan.Accounted() + rest == Below([], root)
    && scan.AccountedCandidates() + restCandidates == CandidatesBelow(root, scan.options.minAllocatedBytes)
  }

  method TakeNext(scan: Scan, root: Listing) returns (dir: Pending)
    requires Between(scan, root) && scan.queue != []
    modifies scan
    ensures Balanced(scan, dir, 0, Below([], root), CandidatesBelow(root, scan.options.minAllocatedBytes))
    ensures scan.root == root && scan.stopReasons == old(scan.stopReasons)
    ensures |scan.queue| + 1 == |old(scan.queue)| && scan.visitedEntries == old(scan.visitedEntries)
    ensures dir.listing.Entries? ==> (SoundYet(scan, dir, 0) <==> Sound(root, scan.options.maxDepth))
    ensures dir.listing.Unreadable? ==> !Sound(root, scan.options.maxDepth)
  {
    hide From, CandidatesFrom, SoundFrom, InLevels, Placed, ListingAt;
    hide Scan.Valid, Scan.Accounted, Scan.AccountedCandidates, Scan.StillSound;
    ghost var level :| InLevels(scan.visited, scan.queue, level, scan.options.maxDepth);
    HeadInLevels(scan.visited, scan.queue, level, scan.options.maxDepth);
    PlacedNext(scan.root, scan.visited, scan.queue, scan.visitedFiles, scan.visitedDirectories);
    dir := scan.Next();
  }

  method SkipUnreadable(scan: Scan, dir: Pending, root: Listing)
    requires dir.listing.Unreadable? && !Sound(root, scan.options.maxDepth) && scan.root == root
    requires Balanced(scan, dir, 0, Below([], root), CandidatesBelow(root, scan.options.minAllocatedBytes))
    modifies scan`skippedEntries, scan`issues, scan`faults, scan`stopReasons
    ensures Between(scan, root)
    ensures scan.faults == old(scan.faults) + [Issue(dir.at, "read-directory-failed", dir.listing.reason)]
    ensures scan.stopReasons == PushUnique(old(scan.stopReasons), EntryErrors)
  {
    hide Below, CandidatesBelow, Sound, InLevels, PushUnique;
    hide Scan.Valid, Scan.Accounted, Scan.AccountedCandidates;
    scan.RecordIssue(dir.at, "read-directory-failed", dir.listing.reason);
    scan.StopFor(EntryErrors);
    assert InLevels(scan.visited, scan.queue, |dir.at|, scan.options.maxDepth);
  }

  lemma DirectoryFinished(scan: Scan, dir: Pending, root: Listing)
    requires Balanced(scan, dir, Size(dir.listing), Below([], root),
                      CandidatesBelow(root, scan.options.minAllocatedBytes))
    requires SoundYet(scan, dir, Size(dir.listing)) <==> Sound(root, scan.options.maxDepth)
    requires scan.root == root
    ensures Between(scan, root)
  {
    hide Below, CandidatesBelow, Sound, InLevels;
    hide Scan.Valid, Scan.Accounted, Scan.AccountedCandidates, Scan.StillSound;
  }

  lemma DirectoryCutShort(scan: Scan, dir: Pending, i: nat, root: Listing)
    requires Balanced(scan, dir, i, Below([], root), CandidatesBelow(root, scan.options.minAllocatedBytes))
               && !scan.Clean() && scan.root == root
    ensures CutShort(scan, root, From(dir.at, dir.listing, i),
                     CandidatesFrom(dir.listing, i, scan.options.minAllocatedBytes))
    ensures i < Size(dir.listing) ==> From(dir.at, dir.listing, i) != multiset{}
  {
    hide Below, CandidatesBelow, CandidatesFrom, Under;
    hide Scan.Valid, Scan.Accounted, Scan.AccountedCandidates, Scan.Clean;
    if i < Size(dir.listing) {
      assert dir.at + [i] in From(dir.at, dir.listing, i);
    }
  }

  /** Takes the next directory, and reads it. */
  method NextDirectory(scan: Scan, root: Listing, clock: nat -> nat, start: nat, cadence: CheckpointCadence,
                       checkpoints: bool)
    returns (tick: nat, stop: Stop, ghost rest: multiset<Position>, ghost restCandidates: multiset<Candidate>)
    requires Between(scan, root) && scan.queue != [] && Watched(cadence, scan, checkpoints)
    modifies scan, cadence
    ensures Watched(cadence, scan, checkpoints)
    ensures stop.Finished? ==> Between(scan, root)
    ensures stop.Finished? ==> 2 * scan.visitedEntries + |old(scan.queue)| > 2 * old(scan.visitedEntries) + |scan.queue|
    ensures stop.OutOfTime? || stop.OutOfEntries? ==> CutShort(scan, root, rest, restCandidates)
    ensures stop.OutOfTime? ==> ClockExpires(clock, scan.options.maxDurationMs)
    ensures stop.OutOfEntries? ==> scan.visitedEntries == scan.options.maxEntries && rest != multiset{}
    ensures stop.WatcherFailed? ==> checkpoints && WatcherRefuses(cadence.accepts)
    ensures clock(start) >= scan.options.maxDurationMs ==>
              stop.OutOfTime? && tick == start + 1 && scan.stopReasons == PushUnique(old(scan.stopReasons), MaxDuration)
    ensures tick > start
  {
    hide Below, CandidatesBelow, Sound, From, CandidatesFrom, SoundYet, CutShort, Between, Reading, PushUnique;
    hide Scan.Valid, Scan.Accounted, Scan.AccountedCandidates, Scan.StillSound, Scan.Clean;
    var dir := TakeNext(scan, root);
    ghost var all, candidates := Below([], root), CandidatesBelow(root, scan.options.minAllocatedBytes);
    var now := clock(start);
    tick, rest, restCandidates := start + 1, multiset{}, multiset{};
    if now >= scan.options.maxDurationMs {
      scan.StopFor(MaxDuration);
      DirectoryCutShort(scan, dir, 0, root);
      rest, restCandidates :=
        From(dir.at, dir.listing, 0), CandidatesFrom(dir.listing, 0, scan.options.minAllocatedBytes);
      return tick, OutOfTime, rest, restCandidates;
    }
    BalancedSize(scan, dir, 0, all, candidates);
    var ok := Snapshot(scan, cadence, now, checkpoints, !cadence.emitted);
    if !ok {
      return tick, WatcherFailed, rest, restCandidates;
    }
    if dir.listing.Unreadable? {
      SkipUnreadable(scan, dir, root);
      return tick, Finished, rest, restCandidates;
    }
    tick, stop, rest, restCandidates := ReadNext(scan, dir, root, clock, tick, cadence, checkpoints);
  }

  method ReadNext(scan: Scan, dir: Pending, root: Listing, clock: nat -> nat, start: nat, cadence: CheckpointCadence,
                  checkpoints: bool)
    returns (tick: nat, stop: Stop, ghost rest: multiset<Position>, ghost restCandidates: multiset<Candidate>)
    requires Balanced(scan, dir, 0, Below([], root), CandidatesBelow(root, scan.options.minAllocatedBytes))
    requires Watched(cadence, scan, checkpoints) && dir.listing.Entries? && scan.root == root
    requires SoundYet(scan, dir, 0) <==> Sound(root, scan.options.maxDepth)
    modifies scan, cadence
    ensures Watched(cadence, scan, checkpoints) && tick > start
    ensures 2 * scan.visitedEntries + |old(scan.queue)| >= 2 * old(scan.visitedEntries) + |scan.queue|
    ensures stop.Finished? ==> Between(scan, root)
    ensures stop.OutOfTime? || stop.OutOfEntries? ==> CutShort(scan, root, rest, restCandidates)
    ensures stop.OutOfTime? ==> ClockExpires(clock, scan.options.maxDurationMs)
    ensures stop.OutOfEntries? ==> scan.visitedEntries == scan.options.maxEntries && rest != multiset{}
    ensures stop.WatcherFailed? ==> checkpoints && WatcherRefuses(cadence.accepts)
  {
    hide Below, CandidatesBelow, Sound, From, CandidatesFrom, SoundYet, CutShort, Between, Balanced, Watched;
    hide Scan.Valid, Scan.Accounted, Scan.AccountedCandidates, Scan.StillSound, Scan.Clean;
    ghost var i;
    tick, stop, i := ScanDirectory(scan, dir, clock, start, cadence, checkpoints, Below([], root),
                                   CandidatesBelow(root, scan.options.minAllocatedBytes));
    rest, restCandidates :=
      From(dir.at, dir.listing, i), CandidatesFrom(dir.listing, i, scan.options.minAllocatedBytes);
    if stop.Finished? {
      DirectoryFinished(scan, dir, root);
    } else if !stop.WatcherFailed? {
      DirectoryCutShort(scan, dir, i, root);
    }
  }

  /** The whole tree can be read, is of known kinds, and fits the limits. */
  ghost predicate Exhaustible(root: Listing, options: Options) {
    Sound(root, options.maxDepth) && |Below([], root)| <= options.maxEntries
  }

  /** What every final report may claim about the entries visited and the candidates found among them. */
  ghost predicate Honest(r: Report, root: Listing, options: Options, visited: seq<Position>, found: seq<Candidate>) {
    && r.options == options
    && r.visitedEntries == |visited| <= options.maxEntries
    && r.visitedFiles == FilesAmong(root, visited) && r.visitedDirectories == DirectoriesAmong(root, visited)
    && multiset(visited) <= Below([], root) && ByLevel(visited)
    && multiset(found) <= CandidatesBelow(root, options.minAllocatedBytes)
    && r.allocatedCandidateBytes == Saturated(SumOf(found))
    && KeepsLargest(found, r.candidates)
    && (r.resultsTruncated <==> |r.candidates| < |found|)
    && (r.evidenceComplete ==>
          && multiset(visited) == Below([], root)
          && multiset(found) == CandidatesBelow(root, options.minAllocatedBytes))
  }

  datatype Outcome = Refused | WatcherError | Done(report: Report)

  lemma FullyRead(scan: Scan, root: Listing)
    requires Between(scan, root) && scan.queue == []
    ensures multiset(scan.visited) <= Below([], root) && ByLevel(scan.visited)
    ensures scan.visitedFiles == FilesAmong(root, scan.visited)
    ensures scan.visitedDirectories == DirectoriesAmong(root, scan.visited)
    ensures multiset(scan.candidates) <= CandidatesBelow(root, scan.options.minAllocatedBytes)
    ensures scan.Clean() ==> multiset(scan.visited) == Below([], root)
    ensures scan.Clean() ==> multiset(scan.candidates) == CandidatesBelow(root, scan.options.minAllocatedBytes)
    ensures scan.Clean() <==> Exhaustible(root, scan.options)
  {
    hide Below, CandidatesBelow, Sound, SumOf, Saturated;
    assert |multiset(scan.visited)| == |scan.visited|;
  }

  lemma PartlyRead(scan: Scan, root: Listing, rest: multiset<Position>, restCandidates: multiset<Candidate>)
    requires CutShort(scan, root, rest, restCandidates)
    ensures multiset(scan.visited) <= Below([], root) && ByLevel(scan.visited) && !scan.Clean()
    ensures scan.visitedFiles == FilesAmong(root, scan.visited)
    ensures scan.visitedDirectories == DirectoriesAmong(root, scan.visited)
    ensures multiset(scan.candidates) <= CandidatesBelow(root, scan.options.minAllocatedBytes)
    ensures scan.visitedEntries == scan.options.maxEntries && rest != multiset{} ==> !Exhaustible(root, scan.options)
  {
    hide Below, CandidatesBelow, Sound, SumOf, Saturated;
    assert |multiset(scan.visited)| == |scan.visited|;
    assert |Below([], root)| == |scan.Accounted()| + |rest|;
  }

  /** Reads directories until none is left or a limit is met. */
  method Walk(scan: Scan, root: Listing, clock: nat -> nat, cadence: CheckpointCadence, checkpoints: bool)
    returns (failed: bool)
    requires Between(scan, root) && Watched(cadence, scan, checkpoints)
    modifies scan, cadence
    ensures Watched(cadence, scan, checkpoints)
    ensures failed ==> checkpoints && WatcherRefuses(cadence.accepts)
    ensures !failed ==> scan.Valid() && multiset(scan.visited) <= Below([], root) && ByLevel(scan.visited)
    ensures !failed ==> scan.visitedFiles == FilesAmong(root, scan.visited)
    ensures !failed ==> scan.visitedDirectories == DirectoriesAmong(root, scan.visited)
    ensures !failed ==> multiset(scan.candidates) <= CandidatesBelow(root, scan.options.minAllocatedBytes)
    ensures !failed && scan.Clean() ==> multiset(scan.visited) == Below([], root)
    ensures !failed && scan.Clean() ==>
              multiset(scan.candidates) == CandidatesBelow(root, scan.options.minAllocatedBytes)
    ensures !failed && scan.Clean() ==> Exhaustible(root, scan.options)
    ensures !failed && !ClockExpires(clock, scan.options.maxDurationMs) && Exhaustible(root, scan.options) ==>
              scan.Clean()
  {
    hide Below, CandidatesBelow, Exhaustible, Watched, Sound, ClockExpires, WatcherRefuses;
    hide Scan.Accounted, Scan.AccountedCandidates, Scan.StillSound, Scan.Clean;
    failed := false;
    var tick: nat := 0;
    while scan.queue != []
      invariant Between(scan, root) && Watched(cadence, scan, checkpoints)
      decreases 2 * (scan.options.maxEntries - scan.visitedEntries) + |scan.queue|
    {
      var stop;
      ghost var rest, restCandidates;
      tick, stop, rest, restCandidates := NextDirectory(scan, root, clock, tick, cadence, checkpoints);
      if stop.WatcherFailed? {
        return true;
      }
      if !stop.Finished? {
        PartlyRead(scan, root, rest, restCandidates);
        return false;
      }
    }
    FullyRead(scan, root);
  }

  /** A bounded inventory: it is complete only if every entry was visited, and, unless the clock runs out,
      exactly if the tree can be read within the limits. */
  method Inventory(scope: string, options: Options, rootIsRealDirectory: bool, root: Listing, clock: nat -> nat,
                   checkpoints: bool, accepts: nat -> bool)
    returns (r: Outcome, received: seq<Report>, ghost visited: seq<Position>, ghost found: seq<Candidate>)
    ensures !r.Refused? <==>
              && rootIsRealDirectory && 1 <= options.maxEntries <= 1_000_000 && 1 <= options.maxResults <= 10_000
              && options.maxDepth <= 64 && 1 <= options.maxDurationMs <= 300_000 && 1 <= options.maxIssues <= 1_000
    ensures r.WatcherError? ==> checkpoints && WatcherRefuses(accepts)
    ensures r.Done? ==> Honest(r.report, root, options, visited, found) && CheckpointNotTerminal !in r.report.notices
    ensures r.Done? && r.report.evidenceComplete ==> Exhaustible(root, options)
    ensures r.Done? && !ClockExpires(clock, options.maxDurationMs) ==>
              (r.report.evidenceComplete <==> Exhaustible(root, options))
    ensures forall c <- received :: IsCheckpoint(c, scope, options)
    ensures r.Refused? || !checkpoints ==> received == []
    ensures checkpoints && r.Done? && received != [] ==>
              r.report.visitedEntries <= received[|received| - 1].visitedEntries + 256
    ensures checkpoints && r.Done? && received == [] ==> r.report.visitedEntries == 0
  {
    hide Below, CandidatesBelow, Exhaustible, Sound, ClockExpires, WatcherRefuses, SumOf, Saturated, KeepsLargest;
    received, visited, found := [], [], [];
    if !ValidOptions(options) || !rootIsRealDirectory {
      return Refused, received, visited, found;
    }
    var scan := new Scan(scope, options, root);
    var cadence := new CheckpointCadence(accepts);
    StartsBetween(scan, root);
    var failed := Walk(scan, root, clock, cadence, checkpoints);
    received, visited, found := cadence.received, scan.visited, scan.candidates;
    if failed {
      return WatcherError, received, visited, found;
    }
    var report := scan.InventoryReport(false);
    r := Done(report);
  }

  lemma StartsBetween(scan: Scan, root: Listing)
    requires scan.Valid() && scan.queue == [Pending([], root, 0)] && scan.Clean() && scan.root == root
    requires scan.visitedFiles == 0 && scan.visitedDirectories == 0
    requires scan.visited == [] && scan.candidates == []
    ensures Between(scan, root)
  {
    hide Below, CandidatesBelow, Sound, InLevels, QueueBelow, QueueCandidates, QueueSound, Scan.Valid;
    OneInQueue(Pending([], root, 0), scan.options.minAllocatedBytes, scan.options.maxDepth);
    CleanLosesNothing(scan);
    assert multiset(scan.visited) == multiset{} && multiset(scan.candidates) == multiset{};
  }

  lemma CleanLosesNothing(scan: Scan)
    requires scan.Valid() && scan.Clean()
    ensures scan.lost == multiset{} && scan.lostCandidates == multiset{}
  {
  }

  lemma OneInQueue(p: Pending, threshold: nat, maxDepth: nat)
    requires p.depth == 0 && p.at == []
    ensures QueueBelow([p]) == Below(p.at, p.listing)
              && QueueCandidates([p], threshold) == CandidatesBelow(p.listing, threshold)
    ensures QueueSound([p], maxDepth) <==> Sound(p.listing, maxDepth)
    ensures InLevels([], [p], 0, maxDepth)
  {
    hide Below, CandidatesBelow, Sound;
    assert [p][1..] == [];
  }

  // ---------------------------------------------------------------- recovery after a hard timeout

  datatype Recovery = Invalid | Recovered(report: Report)

  /** A checkpoint turned into a report that says the worker was cut off. */
  function HardTimeoutFromCheckpoint(scope: string, options: Options, checkpoint: Report): (r: Recovery)
    ensures r.Recovered? <==> ValidOptions(options) && IsCheckpoint(checkpoint, scope, options)
    ensures r.Recovered? ==>
              && !r.report.evidenceComplete && HardTimeout in r.report.stopReasons
              && CheckpointNotTerminal !in r.report.notices
              && {Incomplete, WorkerHardTimeout, PartialInventoryRecovered} <= set n <- r.report.notices
    ensures r.Recovered? ==> r.report == checkpoint.(stopReasons := r.report.stopReasons, notices := r.report.notices)
  {
    if !ValidOptions(options) || checkpoint.scope != scope || checkpoint.options != options
       || checkpoint.evidenceComplete || CheckpointNotTerminal !in checkpoint.notices then Invalid
    else
      var kept := Without(checkpoint.notices, CheckpointNotTerminal);
      var notices := PushUnique(PushUnique(PushUnique(kept, Incomplete), WorkerHardTimeout), PartialInventoryRecovered);
      Recovered(checkpoint.(
        stopReasons := PushUnique(checkpoint.stopReasons, HardTimeout), notices := notices, evidenceComplete := false))
  }

  /** Every snapshot a run hands out can be recovered, once: what is recovered is no checkpoint any more, and no
      final report can be passed off as one. */
  method RecoverAnySnapshot(scope: string, options: Options, root: Listing, clock: nat -> nat, accepts: nat -> bool,
                            k: nat)
    returns (r: Outcome, received: seq<Report>, recovery: Recovery, again: Recovery, final: Recovery)
    ensures k < |received| ==>
              && recovery == HardTimeoutFromCheckpoint(scope, options, received[k])
              && recovery.Recovered? && !recovery.report.evidenceComplete
              && again == HardTimeoutFromCheckpoint(scope, options, recovery.report) && again.Invalid?
    ensures r.Done? ==> final == HardTimeoutFromCheckpoint(scope, options, r.report) && final.Invalid?
  {
    ghost var visited, found;
    r, received, visited, found := Inventory(scope, options, true, root, clock, true, accepts);
    recovery, again, final := Invalid, Invalid, Invalid;
    if k < |received| {
      recovery := HardTimeoutFromCheckpoint(scope, options, received[k]);
      assert received[k] in received;
      if recovery.Recovered? {
        again := HardTimeoutFromCheckpoint(scope, options, recovery.report);
      }
    }
    if r.Done? {
      final := HardTimeoutFromCheckpoint(scope, options, r.report);
    }
  }
}
