/** The entry loop over a ZIP's central directory: path validation, the shared root, sizes, the tree
    and the manifest it must agree with. */
module Archive {
  import opened GitObjects
  import opened GitTree
  import opened Optional

  const MAX_ZIP_ENTRIES: nat := 100_000
  const MAX_PATH_BYTES: nat := 4_096
  const MAX_UNCOMPRESSED_BYTES: nat := 16 * 1024 * 1024 * 1024

  const BACKSLASH: byte := 92
  const DOT: byte := 46

  // ---------------------------------------------------------------- paths

  /** `split` on the slash: always at least one component. */
  function Split(raw: seq<byte>): (parts: Path)
    ensures parts != []
  {
    if raw == [] then [[]]
    else if raw[0] == SLASH then [[]] + Split(raw[1..])
    else
      var rest := Split(raw[1..]);
      [[raw[0]] + rest[0]] + rest[1..]
  }

  /** The components with slashes between them. */
  function Join(parts: Path): seq<byte>
    requires parts != []
  {
    if |parts| == 1 then parts[0] else parts[0] + [SLASH] + Join(parts[1..])
  }

  predicate SafeComponent(c: Name) {
    c != [] && c != [DOT] && c != [DOT, DOT]
  }

  predicate AllSafe(parts: Path) {
    forall i :: 0 <= i < |parts| ==> SafeComponent(parts[i])
  }

  /** `zip_path_components`; whether a name is UTF-8 comes with the entry. */
  function ZipPathComponents(raw: seq<byte>, directory: bool, utf8: bool): Option<Path> {
    if raw == [] || |raw| > MAX_PATH_BYTES || NUL in raw || raw[0] == SLASH || BACKSLASH in raw then None
    else
      var parts := Split(raw);
      var components := if directory && parts[|parts| - 1] == [] then parts[..|parts| - 1] else parts;
      if components == [] || !AllSafe(components) || !utf8 then None
      else Some(components)
  }

  predicate SlashFree(parts: Path) {
    forall i :: 0 <= i < |parts| ==> SLASH !in parts[i]
  }

  lemma JoinGrow(c: byte, rest: Path)
    requires rest != []
    ensures Join([[c] + rest[0]] + rest[1..]) == [c] + Join(rest)
  {
    var grown := [[c] + rest[0]] + rest[1..];
    assert grown[1..] == rest[1..];
    if |rest| > 1 {
      var tail := Join(rest[1..]);
      assert ([c] + rest[0]) + [SLASH] + tail == [c] + (rest[0] + [SLASH] + tail);
    }
  }

  lemma JoinEmptyFirst(rest: Path)
    requires rest != []
    ensures Join([[]] + rest) == [SLASH] + Join(rest)
  {
    assert ([[]] + rest)[1..] == rest;
    assert [] + [SLASH] + Join(rest) == [SLASH] + Join(rest);
  }

  lemma {:induction false} SplitInverse(raw: seq<byte>)
    ensures SlashFree(Split(raw)) && Join(Split(raw)) == raw
  {
    if raw != [] {
      hide Join;
      SplitInverse(raw[1..]);
      JoinGrow(raw[0], Split(raw[1..]));
      JoinEmptyFirst(Split(raw[1..]));
      assert raw == [raw[0]] + raw[1..];
    }
  }

  lemma {:induction false} JoinInjective(a: Path, b: Path)
    requires a != [] && b != [] && SlashFree(a) && SlashFree(b) && Join(a) == Join(b)
    ensures a == b
  {
    if |a| == 1 && |b| == 1 {
      assert a == [a[0]] && b == [b[0]];
    } else if |a| > 1 && |b| > 1 {
      assert Join(a) == a[0] + [SLASH] + Join(a[1..]) && Join(b) == b[0] + [SLASH] + Join(b[1..]);
      SplitAtFirst(a[0], Join(a[1..]), b[0], Join(b[1..]), SLASH);
      JoinInjective(a[1..], b[1..]);
      assert a == [a[0]] + a[1..] && b == [b[0]] + b[1..];
    } else {
      SlashInJoin(a);
      SlashInJoin(b);
    }
  }

  lemma SlashInJoin(a: Path)
    requires a != [] && SlashFree(a)
    ensures SLASH in Join(a) <==> |a| > 1
  {
    if |a| > 1 {
      assert Join(a)[|a[0]|] == SLASH;
    }
  }

  predicate SafePath(path: Path) {
    path != [] && AllSafe(path) && SlashFree(path)
  }

  lemma {:induction false} JoinSlash(path: Path)
    requires path != []
    ensures Join(path + [[]]) == Join(path) + [SLASH]
  {
    if |path| == 1 {
      assert (path + [[]])[1..] == [[]];
    } else {
      assert (path + [[]])[1..] == path[1..] + [[]];
      JoinSlash(path[1..]);
    }
  }

  /** A name is accepted exactly when it is safe components joined by slashes, for a directory
      possibly with one slash more at the end; and the components are then those. */
  lemma ComponentsExact(raw: seq<byte>, directory: bool, path: Path)
    ensures ZipPathComponents(raw, directory, true) == Some(path) <==> SpellsPath(raw, directory, path)
    ensures ZipPathComponents(raw, directory, true) == Some(path) <==>
              && path != [] && |raw| <= 4_096 && 0 !in raw && 92 !in raw
              && (forall i :: 0 <= i < |path| ==>
                    path[i] != [] && path[i] != [46] && path[i] != [46, 46] && 47 !in path[i])
              && (raw == Join(path) || (directory && raw == Join(path) + [47]))
  {
    if ZipPathComponents(raw, directory, true) == Some(path) {
      AcceptedSpells(raw, directory, path);
    }
    if SpellsPath(raw, directory, path) {
      SpellingAccepted(raw, directory, path);
    }
  }

  predicate SpellsPath(raw: seq<byte>, directory: bool, path: Path) {
    && SafePath(path) && |raw| <= MAX_PATH_BYTES && NUL !in raw && BACKSLASH !in raw
    && (raw == Join(path) || (directory && raw == Join(path) + [SLASH]))
  }

  lemma AcceptedSpells(raw: seq<byte>, directory: bool, path: Path)
    requires ZipPathComponents(raw, directory, true) == Some(path)
    ensures SpellsPath(raw, directory, path)
  {
    hide Split, Join, SafeComponent, AllSafe;
    var parts := Split(raw);
    SplitInverse(raw);
    forall i | 0 <= i < |path|
      ensures SLASH !in path[i]
    {
      assert path[i] == parts[i];
    }
    if path != parts {
      assert parts == path + [[]];
      JoinSlash(path);
    }
  }

  lemma SpellingAccepted(raw: seq<byte>, directory: bool, path: Path)
    requires SpellsPath(raw, directory, path)
    ensures ZipPathComponents(raw, directory, true) == Some(path)
  {
    hide Split, Join;
    var parts := Split(raw);
    SplitInverse(raw);
    FirstByte(path);
    if raw == Join(path) {
      JoinInjective(parts, path);
    } else {
      JoinSlash(path);
      JoinInjective(parts, path + [[]]);
      assert parts[..|parts| - 1] == path;
    }
  }

  lemma FirstByte(path: Path)
    requires SafePath(path)
    ensures Join(path) != [] && Join(path)[0] == path[0][0] && path[0][0] != SLASH
  {
    assert path[0][0] in path[0];
  }

  // ---------------------------------------------------------------- the entry loop

  datatype RootMode = StripSharedRoot | KeepTopLevel

  datatype ZipEntry = ZipEntry(
    rawName: seq<byte>, utf8: bool, encrypted: bool, isDir: bool, size: nat,
    unixMode: Option<nat>, payloadRead: bool, oid: seq<byte>, sha256: seq<byte>)

  datatype Evidence = Evidence(mode: seq<byte>, bytes: nat, sha256: seq<byte>)

  datatype Refusal =
    | EntryCountOutOfBounds | Encrypted | PathRefused | SharedRootMismatch | EmptyRelative
    | DirectoryHasPayload | SizeOutOfBounds | UnrepresentableMode | TreeConflict(error: GitTree.Error)
    | PayloadUnreadable | DuplicateEntry | NoFiles

  /** `git_blob_mode`: the file type in bits 12..16 of the Unix mode, any of the three x bits. */
  function GitBlobMode(unixMode: Option<nat>): Option<seq<byte>> {
    var mode := if unixMode.Some? then unixMode.value else 33_188;
    var fileType := mode / 4_096 % 16;
    if fileType == 0 || fileType == 8 then
      if mode % 2 == 0 && mode / 8 % 2 == 0 && mode / 64 % 2 == 0 then Some(MODE_FILE) else Some(MODE_EXECUTABLE)
    else if fileType == 10 then Some(MODE_LINK)
    else None
  }

  predicate IsDirectory(e: ZipEntry) {
    e.isDir || (e.rawName != [] && e.rawName[|e.rawName| - 1] == SLASH)
  }

  function Components(e: ZipEntry): Option<Path> {
    ZipPathComponents(e.rawName, IsDirectory(e), e.utf8)
  }

  /** The path of an entry below the root that is stripped. */
  function Relative(e: ZipEntry, mode: RootMode): Path
    requires Components(e).Some?
  {
    if mode.StripSharedRoot? then Components(e).value[1..] else Components(e).value
  }

  /** What an entry must satisfy on its own. */
  predicate EntryAcceptable(e: ZipEntry, mode: RootMode) {
    && !e.encrypted && Components(e).Some?
    && (IsDirectory(e) && Relative(e, mode) != [] ==> e.size == 0)
    && (!IsDirectory(e) ==> Relative(e, mode) != [] && GitBlobMode(e.unixMode).Some? && e.payloadRead)
  }

  predicate AllAcceptable(archive: seq<ZipEntry>, mode: RootMode) {
    forall i :: 0 <= i < |archive| ==> EntryAcceptable(archive[i], mode)
  }

  /** The files of an archive with their relative paths, in entry order. */
  function FileItems(archive: seq<ZipEntry>, mode: RootMode): seq<Item>
    requires AllAcceptable(archive, mode)
  {
    if archive == [] then [] else FileItems(archive[..|archive| - 1], mode) + ItemOf(archive[|archive| - 1], mode)
  }

  /** The file an entry adds, if it is one. */
  function ItemOf(e: ZipEntry, mode: RootMode): seq<Item>
    requires EntryAcceptable(e, mode)
  {
    if IsDirectory(e) then [] else [Item(Relative(e, mode), Blob(GitBlobMode(e.unixMode).value, e.oid))]
  }

  function TotalSize(archive: seq<ZipEntry>): nat {
    if archive == [] then 0
    else
      var e := archive[|archive| - 1];
      TotalSize(archive[..|archive| - 1]) + if IsDirectory(e) then 0 else e.size
  }

  /** What an archive says of one file: where it is below the root, and its mode, length and hash. */
  datatype FileFact = FileFact(path: Path, evidence: Evidence)

  function FactOf(e: ZipEntry, mode: RootMode): Option<FileFact> {
    if !EntryAcceptable(e, mode) || IsDirectory(e) then None
    else Some(FileFact(Relative(e, mode), Evidence(GitBlobMode(e.unixMode).value, e.size, e.sha256)))
  }

  /** Every entry names the first entry's root. */
  predicate SharedRoot(archive: seq<ZipEntry>) {
    forall i :: 0 <= i < |archive| ==> Root(archive[i]) == Root(archive[0])
  }

  function Root(e: ZipEntry): Option<Name> {
    if Components(e).Some? then Some(Components(e).value[0]) else None
  }

  /** An archive whose entries can all be taken. */
  predicate Acceptable(archive: seq<ZipEntry>, mode: RootMode) {
    && AllAcceptable(archive, mode)
    && (mode.StripSharedRoot? ==> SharedRoot(archive))
    && TotalSize(archive) <= MAX_UNCOMPRESSED_BYTES
    && Compatible(FileItems(archive, mode))
  }

  /** The manifest tells the tree's files: same paths, same modes. */
  ghost predicate Agrees(tree: Node, entries: map<seq<byte>, Evidence>) {
    && (forall path | Resolve(tree, path).File? ::
          SafePath(path) && Join(path) in entries && entries[Join(path)].mode == Resolve(tree, path).blob.mode)
    && (forall key | key in entries :: exists path :: SafePath(path) && Join(path) == key && Resolve(tree, path).File?)
  }

  /** The fact is in the manifest, under its path. */
  predicate Lists(entries: map<seq<byte>, Evidence>, fact: FileFact) {
    fact.path != [] && Join(fact.path) in entries && entries[Join(fact.path)] == fact.evidence
  }

  /** The manifest holds the fact of every file entry, and nothing else. */
  ghost predicate Records(entries: map<seq<byte>, Evidence>, archive: seq<ZipEntry>, mode: RootMode) {
    && (forall e <- archive :: FactOf(e, mode).Some? ==> Lists(entries, FactOf(e, mode).value))
    && (forall key <- entries ::
          exists e :: e in archive && FactOf(e, mode).Some? && FactOf(e, mode).value.path != []
                      && Join(FactOf(e, mode).value.path) == key)
  }

  /** Tree, manifest and counts made from the entries taken so far. */
  ghost predicate Built(taken: seq<ZipEntry>, mode: RootMode, tree: Node, entries: map<seq<byte>, Evidence>, files: nat,
                        bytes: nat) {
    && Acceptable(taken, mode)
    && InsertAll(FileItems(taken, mode)) == Ok(tree)
    && files == |FileItems(taken, mode)| == |entries|
    && bytes == TotalSize(taken)
    && Agrees(tree, entries) && Records(entries, taken, mode)
  }

  /** The first thing wrong with the next entry, if anything is. */
  function Objection(taken: seq<ZipEntry>, e: ZipEntry, mode: RootMode, tree: Node): Option<Refusal> {
    if e.encrypted then Some(Encrypted)
    else if Components(e).None? then Some(PathRefused)
    else if mode.StripSharedRoot? && taken != [] && Root(e) != Root(taken[0]) then Some(SharedRootMismatch)
    else if !IsDirectory(e) then FileObjection(taken, e, mode, tree)
    else if Relative(e, mode) != [] && e.size > 0 then Some(DirectoryHasPayload)
    else None
  }

  function FileObjection(taken: seq<ZipEntry>, e: ZipEntry, mode: RootMode, tree: Node): Option<Refusal>
    requires Components(e).Some?
  {
    if Relative(e, mode) == [] then Some(EmptyRelative)
    else if TotalSize(taken) + e.size > 16 * 1024 * 1024 * 1024 then Some(SizeOutOfBounds)
    else if TypeOf(e.unixMode) !in {0, 8, 10} then Some(UnrepresentableMode)
    else if !e.payloadRead then Some(PayloadUnreadable)
    else
      assert GitBlobMode(e.unixMode).Some? by { GitModes(e.unixMode); }
      var inserted := InsertBlob(tree, Relative(e, mode), Blob(GitBlobMode(e.unixMode).value, e.oid));
      if inserted.Err? then Some(TreeConflict(inserted.error)) else None
  }

  class ManifestBuilder {
    var rootPrefix: Option<Name>
    var tree: Node
    var fileCount: nat
    var uncompressedBytes: nat
    var entries: map<seq<byte>, Evidence>
    const mode: RootMode
    /** The entries taken so far. */
    ghost var taken: seq<ZipEntry>

    ghost predicate Valid()
      reads this
    {
      && KeepsRoot(taken)
      && Built(taken, mode, tree, entries, fileCount, uncompressedBytes)
    }

    constructor (mode: RootMode)
      ensures Valid() && taken == [] && this.mode == mode
    {
      this.mode := mode;
      rootPrefix, tree, fileCount, uncompressedBytes, entries, taken := None, EMPTY, 0, 0, map[], [];
      new;
      assert forall path :: !Resolve(EMPTY, path).File?;
    }

    /** The root kept is that of the first entry. */
    ghost predicate KeepsRoot(entries: seq<ZipEntry>)
      reads this`rootPrefix
    {
      mode.StripSharedRoot? ==> rootPrefix == if entries == [] then None else Root(entries[0])
    }

    /** Takes one entry.  It is refused for the first thing wrong with it, and exactly when the entries so
        far and this one together are not acceptable. */
    method AddEntry(e: ZipEntry) returns (refusal: Option<Refusal>)
      requires Valid()
      modifies this
      ensures refusal.None? <==> Acceptable(old(taken) + [e], mode)
      ensures refusal == Objection(old(taken), e, mode, old(tree))
      ensures refusal.None? ==> Valid() && taken == old(taken) + [e]
    {
      hide Components, EntryAcceptable, IsDirectory, Acceptable, Built, TotalSize, GitBlobMode, InsertBlob;
      hide FileObjection;
      EntryAcceptableIs(e, mode);
      BuiltIs(taken, mode, tree, entries, fileCount, uncompressedBytes);
      AcceptableAppend(taken, e, mode, tree);
      if e.encrypted {
        return Some(Encrypted);
      }
      var directory := IsDirectory(e);
      var components := Components(e);
      if components.None? {
        return Some(PathRefused);
      }
      if mode.StripSharedRoot? {
        if rootPrefix.None? {
          rootPrefix := Some(components.value[0]);
        } else if rootPrefix.value != components.value[0] {
          return Some(SharedRootMismatch);
        }
      }
      var relative := Relative(e, mode);
      if directory {
        if relative != [] && e.size != 0 {
          return Some(DirectoryHasPayload);
        }
        BuiltWithDirectory(taken, e, mode, tree, entries, fileCount, uncompressedBytes);
        taken := taken + [e];
        return None;
      }
      refusal := AddFile(e, relative);
    }

    /** The rest of it for a file of the right root. */
    method AddFile(e: ZipEntry, relative: Path) returns (refusal: Option<Refusal>)
      requires Built(taken, mode, tree, entries, fileCount, uncompressedBytes) && KeepsRoot(taken + [e])
      requires !IsDirectory(e) && !e.encrypted && Components(e).Some? && relative == Relative(e, mode)
      requires mode.StripSharedRoot? && taken != [] ==> Root(e) == Root(taken[0])
      modifies this`tree, this`entries, this`uncompressedBytes, this`fileCount, this`taken
      ensures refusal.None? <==> Acceptable(old(taken) + [e], mode)
      ensures refusal == FileObjection(old(taken), e, mode, old(tree))
      ensures refusal.None? ==> Valid() && taken == old(taken) + [e]
    {
      hide Components, EntryAcceptable, IsDirectory, Acceptable, Built, TotalSize, Join, GitBlobMode, InsertBlob;
      hide Relative, Root, TypeOf, HasGitMode;
      EntryAcceptableIs(e, mode);
      BuiltIs(taken, mode, tree, entries, fileCount, uncompressedBytes);
      AcceptableAppend(taken, e, mode, tree);
      if relative == [] {
        return Some(EmptyRelative);
      }
      if uncompressedBytes + e.size > MAX_UNCOMPRESSED_BYTES {
        return Some(SizeOutOfBounds);
      }
      GitModes(e.unixMode);
      var blobMode := GitBlobMode(e.unixMode);
      if blobMode.None? {
        return Some(UnrepresentableMode);
      }
      if !e.payloadRead {
        return Some(PayloadUnreadable);
      }
      var blob := Blob(blobMode.value, e.oid);
      var inserted := InsertBlob(tree, relative, blob);
      if inserted.Err? {
        return Some(TreeConflict(inserted.error));
      }
      BuiltWithFile(taken, e, mode, tree, entries, fileCount, uncompressedBytes);
      tree := inserted.value;
      if Join(relative) in entries {
        return Some(DuplicateEntry);
      }
      entries := entries[Join(relative) := Evidence(blob.mode, e.size, e.sha256)];
      uncompressedBytes := uncompressedBytes + e.size;
      fileCount := fileCount + 1;
      taken := taken + [e];
      return None;
    }
  }

  lemma BuiltIs(taken: seq<ZipEntry>, mode: RootMode, tree: Node, entries: map<seq<byte>, Evidence>, files: nat,
                bytes: nat)
    requires Built(taken, mode, tree, entries, files, bytes)
    ensures Acceptable(taken, mode) && InsertAll(FileItems(taken, mode)) == Ok(tree) && bytes == TotalSize(taken)
    ensures taken != [] ==> Root(taken[0]).Some?
  {
    if taken != [] {
      EntryAcceptableIs(taken[0], mode);
    }
  }

  lemma BuiltWithDirectory(taken: seq<ZipEntry>, e: ZipEntry, mode: RootMode, tree: Node,
                           entries: map<seq<byte>, Evidence>,
                           files: nat, bytes: nat)
    requires Built(taken, mode, tree, entries, files, bytes) && Acceptable(taken + [e], mode) && IsDirectory(e)
    ensures Built(taken + [e], mode, tree, entries, files, bytes)
  {
    hide EntryAcceptable, IsDirectory, InsertAll, Compatible, Agrees, FileItems, TotalSize, Records, SharedRoot;
    AppendedEntries(taken, e, mode);
    TotalSizeAppend(taken, e);
    ItemsAppend(taken, e, mode);
    RecordsDirectory(entries, taken, e, mode);
  }

  lemma RecordsDirectory(entries: map<seq<byte>, Evidence>, taken: seq<ZipEntry>, e: ZipEntry, mode: RootMode)
    requires Records(entries, taken, mode) && IsDirectory(e)
    ensures Records(entries, taken + [e], mode)
  {
    hide EntryAcceptable, IsDirectory, Join;
    assert FactOf(e, mode).None?;
    assert forall x :: x in taken + [e] <==> x in taken || x == e;
  }

  lemma RecordsFile(entries: map<seq<byte>, Evidence>, taken: seq<ZipEntry>, e: ZipEntry, mode: RootMode,
                    fact: FileFact)
    requires Records(entries, taken, mode) && FactOf(e, mode) == Some(fact) && fact.path != []
               && Join(fact.path) !in entries
    ensures Records(entries[Join(fact.path) := fact.evidence], taken + [e], mode)
  {
    hide FactOf, Join;
    assert forall x :: x in taken + [e] <==> x in taken || x == e;
  }

  lemma BuiltWithFile(taken: seq<ZipEntry>, e: ZipEntry, mode: RootMode, tree: Node, entries: map<seq<byte>, Evidence>,
                      files: nat, bytes: nat)
    requires Built(taken, mode, tree, entries, files, bytes) && Acceptable(taken + [e], mode) && !IsDirectory(e)
    ensures Components(e).Some? && Relative(e, mode) != [] && GitBlobMode(e.unixMode).Some?
    ensures var relative, blob := Relative(e, mode), Blob(GitBlobMode(e.unixMode).value, e.oid);
            && InsertBlob(tree, relative, blob).Ok?
            && Join(relative) !in entries
            && Built(taken + [e], mode, InsertBlob(tree, relative, blob).value,
                     entries[Join(relative) := Evidence(blob.mode, e.size, e.sha256)], files + 1, bytes + e.size)
  {
    hide EntryAcceptable, IsDirectory, InsertAll, Compatible, Agrees, FileItems, TotalSize, Records, SharedRoot;
    hide Components;
    hide GitBlobMode, InsertBlob, Join, ItemOf;
    AppendedEntries(taken, e, mode);
    EntryAcceptableIs(e, mode);
    TotalSizeAppend(taken, e);
    ItemsAppend(taken, e, mode);
    RelativeIsSafe(e, mode);
    var relative, blob := Relative(e, mode), Blob(GitBlobMode(e.unixMode).value, e.oid);
    var evidence := Evidence(blob.mode, e.size, e.sha256);
    AgreesAfterInsert(tree, entries, relative, blob, evidence);
    RecordsFile(entries, taken, e, mode, FileFact(relative, evidence));
  }

  datatype Manifest = Manifest(
    tree: Node, entries: map<seq<byte>, Evidence>, fileCount: nat, directoryCount: nat, uncompressedBytes: nat,
    oid: seq<byte>)

  /** What an inspected archive's manifest says. */
  ghost predicate Describes(m: Manifest, archive: seq<ZipEntry>, mode: RootMode, h: Hash)
    requires Acceptable(archive, mode)
  {
    && InsertAll(FileItems(archive, mode)) == Ok(m.tree)
    && Agrees(m.tree, m.entries) && Records(m.entries, archive, mode)
    && m.fileCount == |FileItems(archive, mode)| == |m.entries|
    && m.uncompressedBytes == TotalSize(archive)
    && m.directoryCount == |Directories(m.tree)|
    && ValidNode(m.tree) && m.oid == Oid(m.tree, h)
  }

  /** The key of an entry: the components of its name, without the first if the root is stripped, joined by slashes. */
  function Key(e: ZipEntry, mode: RootMode): seq<byte>
    requires Components(e).Some?
  {
    var path := Components(e).value;
    var below := if mode == StripSharedRoot then path[1..] else path;
    if below == [] then [] else Join(below)
  }

  predicate EndsWithSlash(name: seq<byte>) {
    name != [] && name[|name| - 1] == 47
  }

  /** The four type bits of a Unix mode; a regular file's if none is given. */
  function TypeOf(unixMode: Option<nat>): nat {
    if unixMode.None? then 8 else unixMode.value % 65_536 / 4_096
  }

  /** One of the three bits that let a file be executed. */
  predicate HasExecuteBit(unixMode: Option<nat>) {
    unixMode.Some? && (unixMode.value / 64 % 2 == 1 || unixMode.value / 8 % 2 == 1 || unixMode.value % 2 == 1)
  }

  /** In ASCII: 120000 for a link, 100755 for an executable, and 100644 for any other file. */
  predicate HasGitMode(unixMode: Option<nat>, mode: seq<byte>) {
    mode == if TypeOf(unixMode) == 10 then [49, 50, 48, 48, 48, 48]
    else if HasExecuteBit(unixMode) then [49, 48, 48, 55, 53, 53]
    else [49, 48, 48, 54, 52, 52]
  }

  lemma TypeBits(m: nat)
    ensures m % 65_536 / 4_096 == m / 4_096 % 16
  {
    var a, b := m / 4_096, m % 4_096;
    var c, d := a / 16, a % 16;
    assert m == 65_536 * c + (4_096 * d + b);
    assert m % 65_536 == 4_096 * d + b;
  }

  lemma GitModes(unixMode: Option<nat>)
    ensures GitBlobMode(unixMode).Some? <==> TypeOf(unixMode) in {0, 8, 10}
    ensures GitBlobMode(unixMode).Some? ==> HasGitMode(unixMode, GitBlobMode(unixMode).value)
  {
    if unixMode.Some? {
      TypeBits(unixMode.value);
    }
  }

  lemma ModesAreKnown(archive: seq<ZipEntry>, mode: RootMode)
    requires Acceptable(archive, mode)
    ensures forall e <- archive :: !e.isDir && !EndsWithSlash(e.rawName) ==> TypeOf(e.unixMode) in {0, 8, 10}
  {
    hide SharedRoot, Compatible, FileItems, TotalSize, Components, GitBlobMode;
    forall e | e in archive && !e.isDir && !EndsWithSlash(e.rawName)
      ensures TypeOf(e.unixMode) in {0, 8, 10}
    {
      GitModes(e.unixMode);
    }
  }

  /** Every file is listed with the mode that Git gives it. */
  lemma ManifestModes(archive: seq<ZipEntry>, mode: RootMode, h: Hash, m: Manifest)
    requires Acceptable(archive, mode) && Describes(m, archive, mode, h)
    ensures forall e <- archive :: !e.isDir && !EndsWithSlash(e.rawName) ==>
              && Components(e).Some? && Key(e, mode) in m.entries
              && HasGitMode(e.unixMode, m.entries[Key(e, mode)].mode)
              && m.entries[Key(e, mode)].bytes == e.size && m.entries[Key(e, mode)].sha256 == e.sha256
  {
    hide SharedRoot, Compatible, FileItems, TotalSize, Components, GitBlobMode, HasGitMode, Join, Agrees;
    forall e | e in archive && !e.isDir && !EndsWithSlash(e.rawName)
      ensures Components(e).Some? && Key(e, mode) in m.entries
      ensures HasGitMode(e.unixMode, m.entries[Key(e, mode)].mode)
      ensures m.entries[Key(e, mode)].bytes == e.size && m.entries[Key(e, mode)].sha256 == e.sha256
    {
      GitModes(e.unixMode);
      assert EntryAcceptable(e, mode) && Lists(m.entries, FactOf(e, mode).value);
      assert Key(e, mode) == Join(Relative(e, mode));
    }
  }

  /** Inspects an archive: it succeeds exactly when the entry count is in bounds, the entries are
      acceptable together and there is a file among them. */
  method InspectZipManifest(archive: seq<ZipEntry>, mode: RootMode, h: Hash)
    returns (m: Option<Manifest>, refusal: Option<Refusal>)
    requires forall i :: 0 <= i < |archive| ==> |archive[i].oid| == OID_LENGTH
    ensures m.None? <==> refusal.Some?
    ensures refusal == Some(EntryCountOutOfBounds) <==> archive == [] || |archive| > 100_000
    ensures refusal == Some(NoFiles) <==>
              1 <= |archive| <= 100_000 && Acceptable(archive, mode) && FileItems(archive, mode) == []
    ensures m.Some? <==> 1 <= |archive| <= 100_000 && Acceptable(archive, mode) && FileItems(archive, mode) != []
    ensures m.Some? ==> Describes(m.value, archive, mode, h)
    ensures m.Some? ==> m.value.uncompressedBytes <= 17_179_869_184
    ensures m.Some? ==> forall e <- archive :: !e.isDir && !EndsWithSlash(e.rawName) ==>
              && Components(e).Some? && Key(e, mode) in m.value.entries
              && HasGitMode(e.unixMode, m.value.entries[Key(e, mode)].mode)
              && m.value.entries[Key(e, mode)].bytes == e.size && m.value.entries[Key(e, mode)].sha256 == e.sha256
    ensures (exists e <- archive :: !e.isDir && !EndsWithSlash(e.rawName) && TypeOf(e.unixMode) !in {0, 8, 10}) ==>
              m.None?
  {
    hide Acceptable, Built, Describes, FileItems, AllAcceptable, Root, ValidNode, Oid, Directories, InsertAll;
    hide Components, Relative, Key, HasGitMode, TypeOf, Join, EndsWithSlash;
    if Acceptable(archive, mode) {
      ModesAreKnown(archive, mode);
    }
    if archive == [] || |archive| > MAX_ZIP_ENTRIES {
      return None, Some(EntryCountOutOfBounds);
    }
    var builder := new ManifestBuilder(mode);
    for i := 0 to |archive|
      invariant fresh(builder) && builder.Valid() && builder.mode == mode
      invariant builder.taken == archive[..i]
    {
      refusal := builder.AddEntry(archive[i]);
      assert archive[..i + 1] == archive[..i] + [archive[i]];
      if refusal.Some? {
        if Acceptable(archive, mode) {
          AcceptablePrefix(archive, mode, i + 1);
        }
        return None, refusal;
      }
    }
    assert archive[..|archive|] == archive;
    BuiltCounts(archive, mode, builder.tree, builder.entries, builder.fileCount, builder.uncompressedBytes);
    if builder.fileCount == 0 {
      return None, Some(NoFiles);
    }
    TreeIsValid(archive, mode, builder.tree);
    var oid, directoryCount := GitTreeOid(builder.tree, h);
    m, refusal := Some(Manifest(builder.tree, builder.entries, builder.fileCount, directoryCount,
                                builder.uncompressedBytes, oid)), None;
    BuiltDescribes(archive, mode, h, m.value);
    ManifestModes(archive, mode, h, m.value);
  }

  lemma BuiltCounts(archive: seq<ZipEntry>, mode: RootMode, tree: Node, entries: map<seq<byte>, Evidence>, files: nat,
                    bytes: nat)
    requires Built(archive, mode, tree, entries, files, bytes)
    ensures Acceptable(archive, mode) && AllAcceptable(archive, mode) && InsertAll(FileItems(archive, mode)) == Ok(tree)
    ensures files == |FileItems(archive, mode)| && bytes <= MAX_UNCOMPRESSED_BYTES
  {
  }

  lemma BuiltDescribes(archive: seq<ZipEntry>, mode: RootMode, h: Hash, m: Manifest)
    requires Built(archive, mode, m.tree, m.entries, m.fileCount, m.uncompressedBytes)
    requires ValidNode(m.tree) && m.oid == Oid(m.tree, h) && m.directoryCount == |Directories(m.tree)|
    ensures Acceptable(archive, mode) && Describes(m, archive, mode, h)
  {
    hide ValidNode, Oid, Directories, InsertAll, FileItems, Agrees, Records, TotalSize, AllAcceptable, SharedRoot;
    hide Compatible;
  }

  lemma AcceptableHasItems(archive: seq<ZipEntry>, mode: RootMode)
    requires Acceptable(archive, mode)
    ensures AllAcceptable(archive, mode)
  {
  }

  lemma {:induction false} AcceptablePrefix(archive: seq<ZipEntry>, mode: RootMode, n: nat)
    requires n <= |archive| && Acceptable(archive, mode)
    ensures Acceptable(archive[..n], mode)
    decreases |archive|
  {
    hide Acceptable;
    if n == |archive| {
      assert archive[..n] == archive;
    } else {
      var last := |archive| - 1;
      var shorter := archive[..last];
      assert archive == shorter + [archive[last]];
      ShorterAcceptable(shorter, archive[last], mode);
      AcceptablePrefix(shorter, mode, n);
      assert shorter[..n] == archive[..n];
    }
  }

  lemma ShorterAcceptable(archive: seq<ZipEntry>, e: ZipEntry, mode: RootMode)
    requires Acceptable(archive + [e], mode)
    ensures Acceptable(archive, mode)
  {
    hide EntryAcceptable, IsDirectory, ItemOf, SharedRoot, Compatible, FileItems, TotalSize, AllAcceptable;
    AppendedEntries(archive, e, mode);
    AppendedSums(archive, e, mode);
    CompatiblePrefix(FileItems(archive, mode), ItemOf(e, mode));
  }

  lemma CompatiblePrefix(items: seq<Item>, more: seq<Item>)
    requires Compatible(items + more)
    ensures Compatible(items)
  {
    hide Apart;
    assert forall i :: 0 <= i < |items| ==> (items + more)[i] == items[i];
  }

  predicate ValidItem(item: Item) {
    && (forall i :: 0 <= i < |item.path| ==> ValidName(item.path[i]))
    && BlobMode(item.blob.mode) && |item.blob.oid| == OID_LENGTH
  }

  lemma {:induction false} InsertKeepsValid(node: Node, path: Path, blob: Blob)
    requires ValidNode(node) && ValidItem(Item(path, blob)) && InsertBlob(node, path, blob).Ok?
    ensures ValidNode(InsertBlob(node, path, blob).value)
    decreases |path|
  {
    hide ValidName, BlobMode;
    if |path| > 1 {
      var child := Child(node, path[0]).tree;
      assert ValidNode(child);
      InsertKeepsValid(child, path[1..], blob);
    }
  }

  lemma {:induction false} JoinHasBytes(path: Path, i: nat, b: byte)
    requires i < |path| && b in path[i]
    ensures b in Join(path)
  {
    if i > 0 {
      JoinHasBytes(path[1..], i - 1, b);
    }
  }

  lemma ItemIsValid(e: ZipEntry, mode: RootMode)
    requires EntryAcceptable(e, mode) && !IsDirectory(e) && |e.oid| == OID_LENGTH
    ensures ValidItem(ItemOf(e, mode)[0])
  {
    var path, relative := Components(e).value, Relative(e, mode);
    ComponentsSpell(e);
    forall i | 0 <= i < |relative|
      ensures ValidName(relative[i])
    {
      var k := i + |path| - |relative|;
      assert relative[i] == path[k];
      if NUL in path[k] {
        JoinHasBytes(path, k, NUL);
      }
    }
  }

  lemma {:induction false} TreeIsValid(archive: seq<ZipEntry>, mode: RootMode, tree: Node)
    requires Acceptable(archive, mode) && InsertAll(FileItems(archive, mode)) == Ok(tree)
    requires forall i :: 0 <= i < |archive| ==> |archive[i].oid| == OID_LENGTH
    ensures ValidNode(tree)
  {
    hide Acceptable, InsertAll, ValidNode, AllAcceptable, FileItems;
    if archive == [] {
      EmptyTreeIsValid(mode);
    } else {
      var n := |archive| - 1;
      var e := archive[n];
      assert archive == archive[..n] + [e];
      ShorterAcceptable(archive[..n], e, mode);
      AcceptableBuilds(archive[..n], mode);
      AcceptableHasItems(archive[..n], mode);
      var before := InsertAll(FileItems(archive[..n], mode)).value;
      TreeIsValid(archive[..n], mode, before);
      NextTreeIsValid(archive[..n], e, mode, before, tree);
    }
  }

  lemma EmptyTreeIsValid(mode: RootMode)
    ensures InsertAll(FileItems([], mode)) == Ok(EMPTY) && ValidNode(EMPTY)
  {
  }

  lemma NextTreeIsValid(archive: seq<ZipEntry>, e: ZipEntry, mode: RootMode, before: Node, tree: Node)
    requires Acceptable(archive, mode) && Acceptable(archive + [e], mode) && |e.oid| == OID_LENGTH
    requires InsertAll(FileItems(archive, mode)) == Ok(before) && InsertAll(FileItems(archive + [e], mode)) == Ok(tree)
    requires ValidNode(before)
    ensures ValidNode(tree)
  {
    hide EntryAcceptable, IsDirectory, Relative, InsertAll, InsertBlob, ValidNode, Compatible, GitBlobMode, ValidItem;
    hide FileItems;
    AppendedEntries(archive, e, mode);
    ItemsAppend(archive, e, mode);
    if !IsDirectory(e) {
      ItemIsValid(e, mode);
      EntryAcceptableIs(e, mode);
      InsertKeepsValid(before, Relative(e, mode), Blob(GitBlobMode(e.unixMode).value, e.oid));
    }
  }

  lemma EntryAcceptableIs(e: ZipEntry, mode: RootMode)
    ensures EntryAcceptable(e, mode) <==>
              && !e.encrypted && Components(e).Some?
              && (IsDirectory(e) && Relative(e, mode) != [] ==> e.size == 0)
              && (!IsDirectory(e) ==> Relative(e, mode) != [] && GitBlobMode(e.unixMode).Some? && e.payloadRead)
    ensures Components(e).Some? ==> Components(e).value != []
  {
  }

  lemma AppendedEntries(archive: seq<ZipEntry>, e: ZipEntry, mode: RootMode)
    ensures AllAcceptable(archive + [e], mode) <==> AllAcceptable(archive, mode) && EntryAcceptable(e, mode)
    ensures SharedRoot(archive + [e]) <==> SharedRoot(archive) && (archive != [] ==> Root(e) == Root(archive[0]))
  {
    hide EntryAcceptable, Root;
    var all := archive + [e];
    assert all[|archive|] == e;
    assert forall i :: 0 <= i < |archive| ==> all[i] == archive[i];
    assert forall i :: 0 <= i < |all| ==> all[i] == if i < |archive| then archive[i] else e;
  }

  lemma AppendedSums(archive: seq<ZipEntry>, e: ZipEntry, mode: RootMode)
    requires AllAcceptable(archive, mode) && EntryAcceptable(e, mode) && AllAcceptable(archive + [e], mode)
    ensures FileItems(archive + [e], mode) == FileItems(archive, mode) + ItemOf(e, mode)
    ensures TotalSize(archive + [e]) == TotalSize(archive) + if IsDirectory(e) then 0 else e.size
  {
    hide EntryAcceptable, IsDirectory, ItemOf;
    assert (archive + [e])[..|archive|] == archive;
  }

  lemma TotalSizeAppend(archive: seq<ZipEntry>, e: ZipEntry)
    ensures TotalSize(archive + [e]) == TotalSize(archive) + if IsDirectory(e) then 0 else e.size
  {
    hide IsDirectory;
    assert (archive + [e])[..|archive|] == archive;
  }

  lemma InsertAllAppend(items: seq<Item>, item: Item)
    requires InsertAll(items).Ok?
    ensures InsertAll(items + [item]) == InsertBlob(InsertAll(items).value, item.path, item.blob)
  {
    assert (items + [item])[..|items|] == items;
  }

  /** What follows once an entry is acceptable itself and names the right root. */
  lemma ItemsAppend(archive: seq<ZipEntry>, e: ZipEntry, mode: RootMode)
    requires AllAcceptable(archive, mode) && EntryAcceptable(e, mode) && AllAcceptable(archive + [e], mode)
    requires Compatible(FileItems(archive, mode))
    ensures InsertAll(FileItems(archive, mode)).Ok?
    ensures IsDirectory(e) ==> FileItems(archive + [e], mode) == FileItems(archive, mode)
    ensures !IsDirectory(e) ==>
              && |FileItems(archive + [e], mode)| == |FileItems(archive, mode)| + 1
              && InsertAll(FileItems(archive + [e], mode)) ==
                 InsertBlob(InsertAll(FileItems(archive, mode)).value, Relative(e, mode),
                            Blob(GitBlobMode(e.unixMode).value, e.oid))
    ensures Compatible(FileItems(archive + [e], mode)) <==> InsertAll(FileItems(archive + [e], mode)).Ok?
  {
    hide EntryAcceptable, IsDirectory, Relative, InsertAll, InsertBlob, Compatible, GitBlobMode;
    AppendedSums(archive, e, mode);
    BuildIsExact(FileItems(archive, mode));
    BuildIsExact(FileItems(archive + [e], mode));
    EntryAcceptableIs(e, mode);
    if !IsDirectory(e) {
      InsertAllAppend(FileItems(archive, mode), ItemOf(e, mode)[0]);
    }
  }

  /** The conditions on the next entry, once the tree of the earlier ones is built. */
  predicate Continues(archive: seq<ZipEntry>, e: ZipEntry, mode: RootMode, tree: Node) {
    && EntryAcceptable(e, mode)
    && (mode.StripSharedRoot? && archive != [] ==> Root(e) == Root(archive[0]))
    && TotalSize(archive) + (if IsDirectory(e) then 0 else e.size) <= MAX_UNCOMPRESSED_BYTES
    && (!IsDirectory(e) ==> InsertBlob(tree, Relative(e, mode), Blob(GitBlobMode(e.unixMode).value, e.oid)).Ok?)
  }

  lemma AcceptableBuilds(archive: seq<ZipEntry>, mode: RootMode)
    requires Acceptable(archive, mode)
    ensures InsertAll(FileItems(archive, mode)).Ok?
  {
    hide InsertAll, Compatible, FileItems;
    BuildIsExact(FileItems(archive, mode));
  }

  /** One entry more is acceptable, given the earlier ones are, exactly if it continues them. */
  lemma AcceptableAppend(archive: seq<ZipEntry>, e: ZipEntry, mode: RootMode, tree: Node)
    requires Acceptable(archive, mode) && InsertAll(FileItems(archive, mode)) == Ok(tree)
    ensures Acceptable(archive + [e], mode) <==> Continues(archive, e, mode, tree)
  {
    hide EntryAcceptable, IsDirectory, Relative, InsertAll, InsertBlob, Compatible, GitBlobMode, FileItems, TotalSize;
    hide Root, SharedRoot;
    EntryAcceptableIs(e, mode);
    AppendedEntries(archive, e, mode);
    TotalSizeAppend(archive, e);
    if EntryAcceptable(e, mode) {
      ItemsAppend(archive, e, mode);
    }
  }

  lemma ComponentsSpell(e: ZipEntry)
    requires Components(e).Some?
    ensures SpellsPath(e.rawName, IsDirectory(e), Components(e).value)
  {
    hide SpellsPath;
    assert ZipPathComponents(e.rawName, IsDirectory(e), true) == Components(e);
    AcceptedSpells(e.rawName, IsDirectory(e), Components(e).value);
  }

  lemma RelativeIsSafe(e: ZipEntry, mode: RootMode)
    requires Components(e).Some? && Relative(e, mode) != []
    ensures SafePath(Relative(e, mode))
  {
    hide Components, SafeComponent, Join;
    ComponentsSpell(e);
  }

  lemma AgreesAfterInsert(tree: Node, entries: map<seq<byte>, Evidence>, path: Path, blob: Blob, evidence: Evidence)
    requires Agrees(tree, entries) && SafePath(path) && evidence.mode == blob.mode
    requires InsertBlob(tree, path, blob).Ok?
    ensures Join(path) !in entries
    ensures Agrees(InsertBlob(tree, path, blob).value, entries[Join(path) := evidence])
  {
    hide InsertBlob, Resolve, Join, AllSafe;
    InsertedWasFree(tree, path, blob);
    var grown, more := InsertBlob(tree, path, blob).value, entries[Join(path) := evidence];
    if Join(path) in entries {
      var other :| SafePath(other) && Join(other) == Join(path) && Resolve(tree, other).File?;
      JoinInjective(other, path);
    }
    forall q
      ensures Resolve(grown, q)
                == if q == path then File(blob) else if ProperPrefix(q, path) then Directory else Resolve(tree, q)
    {
      InsertResolve(tree, path, blob, q);
    }
    forall q | Resolve(grown, q).File?
      ensures SafePath(q) && Join(q) in more && more[Join(q)].mode == Resolve(grown, q).blob.mode
    {
      assert q != path ==> Resolve(tree, q).File?;
    }
    forall key | key in more
      ensures exists q :: SafePath(q) && Join(q) == key && Resolve(grown, q).File?
    {
      if key == Join(path) {
        assert Resolve(grown, path).File?;
      } else {
        var q :| SafePath(q) && Join(q) == key && Resolve(tree, q).File?;
        assert Resolve(grown, q).File?;
      }
    }
  }
}
