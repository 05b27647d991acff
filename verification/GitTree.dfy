/** Git trees built from an unordered list of file paths: recursive insertion with conflict
    detection, Git's name order, the tree payload and its hash. */
module GitTree {
  newtype byte = b: int | 0 <= b < 256

  datatype Result<T> = Ok(value: T) | Err(error: Error)
  datatype Error = EmptyRelativePath | DuplicateOrTypeConflict | FileDirectoryConflict

  type Name = seq<byte>
  type Path = seq<Name>

  const SLASH: byte := 47
  const NUL: byte := 0
  const SPACE: byte := 32

  datatype Blob = Blob(mode: seq<byte>, oid: seq<byte>)
  datatype Entry = BlobEntry(blob: Blob) | TreeEntry(tree: Node)
  datatype Node = Node(entries: map<Name, Entry>)

  const EMPTY := Node(map[])

  // ---------------------------------------------------------------- insertion

  function InsertBlob(node: Node, components: Path, blob: Blob): Result<Node>
    decreases |components|
  {
    if components == [] then Err(EmptyRelativePath)
    else
      var name, rest := components[0], components[1..];
      if rest == [] then
        if name in node.entries then Err(DuplicateOrTypeConflict)
        else Ok(Node(node.entries[name := BlobEntry(blob)]))
      else
        match Child(node, name)
        case BlobEntry(_) => Err(FileDirectoryConflict)
        case TreeEntry(child) =>
          match InsertBlob(child, rest, blob)
          case Err(error) => Err(error)
          case Ok(grown) => Ok(Node(node.entries[name := TreeEntry(grown)]))
  }

  /** The entry under a name; an empty directory where there is none yet. */
  function Child(node: Node, name: Name): Entry {
    if name in node.entries then node.entries[name] else TreeEntry(EMPTY)
  }

  /** What a tree holds at a path. */
  datatype Found = Missing | File(blob: Blob) | Directory

  function Resolve(node: Node, path: Path): Found
    decreases |path|
  {
    if path == [] then Directory
    else if path[0] !in node.entries then Missing
    else
      match node.entries[path[0]]
      case BlobEntry(blob) => if |path| == 1 then File(blob) else Missing
      case TreeEntry(child) => Resolve(child, path[1..])
  }

  /** Every directory below the root holds something. */
  predicate NoEmptyDirectory(node: Node) {
    forall name | name in node.entries && node.entries[name].TreeEntry? ::
      node.entries[name].tree != EMPTY && NoEmptyDirectory(node.entries[name].tree)
  }

  predicate ProperPrefix(a: Path, b: Path) {
    |a| < |b| && a == b[..|a|]
  }

  /** `path` neither is, lies under, nor contains a file of the tree. */
  ghost predicate Free(node: Node, path: Path) {
    && !Resolve(node, path).File?
    && (forall q :: ProperPrefix(q, path) ==> !Resolve(node, q).File?)
    && (forall q :: ProperPrefix(path, q) ==> !Resolve(node, q).File?)
  }

  lemma {:induction false} InsertResolve(node: Node, path: Path, blob: Blob, q: Path)
    requires InsertBlob(node, path, blob).Ok?
    ensures var after := Resolve(InsertBlob(node, path, blob).value, q);
            after == if q == path then File(blob) else if ProperPrefix(q, path) then Directory else Resolve(node, q)
    decreases |path|
  {
    if |path| > 1 && q != [] && q[0] == path[0] {
      InsertResolve(Child(node, path[0]).tree, path[1..], blob, q[1..]);
      assert q == [q[0]] + q[1..] && path == [path[0]] + path[1..];
      assert ProperPrefix(q, path) <==> ProperPrefix(q[1..], path[1..]);
    }
  }

  /** Some file stands above the path. */
  ghost predicate FileAbove(node: Node, path: Path) {
    exists q :: ProperPrefix(q, path) && Resolve(node, q).File?
  }

  lemma FileAboveNext(node: Node, path: Path)
    requires |path| > 1
    ensures FileAbove(node, path) <==>
              path[0] in node.entries
              && (node.entries[path[0]].BlobEntry? || FileAbove(node.entries[path[0]].tree, path[1..]))
  {
    if FileAbove(node, path) {
      var q :| ProperPrefix(q, path) && Resolve(node, q).File?;
      assert q != [] && q[0] == path[0];
      if node.entries[path[0]].TreeEntry? {
        assert ProperPrefix(q[1..], path[1..]);
      }
    }
    if path[0] in node.entries {
      if node.entries[path[0]].BlobEntry? {
        assert ProperPrefix([path[0]], path);
      } else if FileAbove(node.entries[path[0]].tree, path[1..]) {
        var r :| ProperPrefix(r, path[1..]) && Resolve(node.entries[path[0]].tree, r).File?;
        var q := [path[0]] + r;
        assert q[1..] == r && ProperPrefix(q, path);
      }
    }
  }

  /** What insertion fails for: an empty path, a file above the path, or anything at the path. */
  lemma {:induction false} InsertErrors(node: Node, path: Path, blob: Blob)
    ensures InsertBlob(node, path, blob) == Err(EmptyRelativePath) <==> path == []
    ensures InsertBlob(node, path, blob) == Err(FileDirectoryConflict) <==> FileAbove(node, path)
    ensures InsertBlob(node, path, blob) == Err(DuplicateOrTypeConflict) <==>
              path != [] && !FileAbove(node, path) && !Resolve(node, path).Missing?
    decreases |path|
  {
    hide FileAbove;
    if |path| > 1 {
      FileAboveNext(node, path);
      if path[0] in node.entries && node.entries[path[0]].TreeEntry? {
        InsertErrors(node.entries[path[0]].tree, path[1..], blob);
      } else if path[0] !in node.entries {
        InsertErrors(EMPTY, path[1..], blob);
        NothingInEmpty(path[1..]);
      }
    } else {
      ShortPath(node, path);
    }
  }

  lemma NothingInEmpty(path: Path)
    requires path != []
    ensures Resolve(EMPTY, path).Missing? && !FileAbove(EMPTY, path)
  {
  }

  lemma ShortPath(node: Node, path: Path)
    requires |path| <= 1
    ensures !FileAbove(node, path)
  {
  }

  /** A directory that is not empty leads to a file. */
  lemma {:induction false} SomeFile(node: Node) returns (q: Path)
    requires node != EMPTY && NoEmptyDirectory(node)
    ensures q != [] && Resolve(node, q).File?
  {
    var name :| name in node.entries;
    match node.entries[name]
    case BlobEntry(_) =>
      q := [name];
    case TreeEntry(child) =>
      var r := SomeFile(child);
      q := [name] + r;
      assert q[1..] == r;
  }

  lemma {:induction false} InsertKeepsNoEmptyDirectory(node: Node, path: Path, blob: Blob)
    requires NoEmptyDirectory(node) && InsertBlob(node, path, blob).Ok?
    ensures NoEmptyDirectory(InsertBlob(node, path, blob).value)
    ensures InsertBlob(node, path, blob).value != EMPTY
    decreases |path|
  {
    if |path| == 1 {
      assert path[0] in InsertBlob(node, path, blob).value.entries;
    } else {
      InsertKeepsNoEmptyDirectory(Child(node, path[0]).tree, path[1..], blob);
      assert path[0] in InsertBlob(node, path, blob).value.entries;
    }
  }

  /** Insertion succeeds on a non-empty path exactly when no file stands at it, above it or below it. */
  lemma {:induction false} InsertSucceeds(node: Node, path: Path, blob: Blob)
    requires NoEmptyDirectory(node) && path != []
    ensures InsertBlob(node, path, blob).Ok? <==> Free(node, path)
    decreases |path|
  {
    if Free(node, path) {
      FreeInserts(node, path, blob);
    }
    if InsertBlob(node, path, blob).Ok? {
      InsertedWasFree(node, path, blob);
    }
  }

  /** A name that is taken stands for a file, or for a directory with a file below it. */
  lemma OccupiedIsNotFree(node: Node, name: Name)
    requires NoEmptyDirectory(node) && name in node.entries
    ensures !Free(node, [name])
  {
    match node.entries[name]
    case BlobEntry(_) =>
      assert Resolve(node, [name]).File?;
    case TreeEntry(child) =>
      var q := SomeFile(child);
      var below := [name] + q;
      assert below[1..] == q;
      assert ProperPrefix([name], below) && Resolve(node, below).File?;
  }

  lemma {:induction false} FreeInserts(node: Node, path: Path, blob: Blob)
    requires NoEmptyDirectory(node) && path != [] && Free(node, path)
    ensures InsertBlob(node, path, blob).Ok?
    decreases |path|
  {
    var name, rest := path[0], path[1..];
    if |path| == 1 {
      assert path == [name];
      if name in node.entries {
        OccupiedIsNotFree(node, name);
      }
    } else {
      if name in node.entries {
        assert ProperPrefix([name], path);
        assert node.entries[name].TreeEntry?;
      }
      var child := Child(node, name).tree;
      assert NoEmptyDirectory(child);
      assert path == [name] + rest;
      forall q
        ensures Resolve(child, q).File? ==> Resolve(node, [name] + q).File?
        ensures ProperPrefix(q, rest) ==> ProperPrefix([name] + q, path)
        ensures ProperPrefix(rest, q) ==> ProperPrefix(path, [name] + q)
      {
        assert ([name] + q)[1..] == q;
      }
      assert Free(child, rest);
      FreeInserts(child, rest, blob);
    }
  }

  lemma {:induction false} InsertedWasFree(node: Node, path: Path, blob: Blob)
    requires InsertBlob(node, path, blob).Ok?
    ensures Free(node, path)
    decreases |path|
  {
    var name, rest := path[0], path[1..];
    if |path| == 1 {
      forall q | ProperPrefix(q, path) || ProperPrefix(path, q)
        ensures !Resolve(node, q).File?
      {
        assert q == [] || q[0] == name;
      }
    } else {
      var child := Child(node, name).tree;
      InsertedWasFree(child, rest, blob);
      forall q | q == path || ProperPrefix(q, path) || ProperPrefix(path, q)
        ensures !Resolve(node, q).File?
      {
        if q != [] {
          assert q[0] == name && q == [name] + q[1..] && path == [name] + rest;
          assert q[1..] == rest || ProperPrefix(q[1..], rest) || ProperPrefix(rest, q[1..]);
        }
      }
    }
  }

  // ---------------------------------------------------------------- whole lists

  datatype Item = Item(path: Path, blob: Blob)

  function InsertAll(items: seq<Item>): Result<Node> {
    if items == [] then Ok(EMPTY)
    else
      var last := items[|items| - 1];
      match InsertAll(items[..|items| - 1])
      case Err(error) => Err(error)
      case Ok(node) => InsertBlob(node, last.path, last.blob)
  }

  predicate Apart(a: Path, b: Path) {
    a != b && !ProperPrefix(a, b) && !ProperPrefix(b, a)
  }

  /** Non-empty paths, pairwise distinct, none a proper prefix of another. */
  predicate Compatible(items: seq<Item>) {
    && (forall i :: 0 <= i < |items| ==> items[i].path != [])
    && (forall i, j :: 0 <= i < j < |items| ==> Apart(items[i].path, items[j].path))
  }

  /** The tree's files are exactly the items. */
  ghost predicate Holds(node: Node, items: seq<Item>) {
    forall q, blob :: Resolve(node, q) == File(blob) <==> Item(q, blob) in items
  }

  lemma EmptyHolds()
    ensures NoEmptyDirectory(EMPTY) && Holds(EMPTY, [])
  {
  }

  lemma HoldsFree(node: Node, items: seq<Item>, path: Path)
    requires Holds(node, items)
    ensures Free(node, path) <==> forall i :: 0 <= i < |items| ==> Apart(items[i].path, path)
  {
    if Free(node, path) {
      forall i | 0 <= i < |items|
        ensures Apart(items[i].path, path)
      {
        assert Item(items[i].path, items[i].blob) in items;
        assert Resolve(node, items[i].path).File?;
      }
    }
    if forall i :: 0 <= i < |items| ==> Apart(items[i].path, path) {
      forall q | Resolve(node, q).File?
        ensures Apart(q, path)
      {
        assert Item(q, Resolve(node, q).blob) in items;
      }
    }
  }

  lemma InsertHolds(node: Node, items: seq<Item>, item: Item)
    requires Holds(node, items) && InsertBlob(node, item.path, item.blob).Ok?
    ensures Holds(InsertBlob(node, item.path, item.blob).value, items + [item])
  {
    var grown := InsertBlob(node, item.path, item.blob).value;
    InsertedWasFree(node, item.path, item.blob);
    forall q, blob
      ensures Resolve(grown, q) == File(blob) <==> Item(q, blob) in items + [item]
    {
      InsertResolve(node, item.path, item.blob, q);
      assert Item(q, blob) in items + [item] <==> Item(q, blob) in items || Item(q, blob) == item;
      assert Resolve(node, q) == File(blob) <==> Item(q, blob) in items;
    }
  }

  /** Building succeeds exactly on compatible lists, and the tree then holds exactly the items. */
  lemma {:induction false} BuildIsExact(items: seq<Item>)
    ensures InsertAll(items).Ok? <==> Compatible(items)
    ensures InsertAll(items).Ok? ==> NoEmptyDirectory(InsertAll(items).value) && Holds(InsertAll(items).value, items)
  {
    if items == [] {
      EmptyHolds();
    } else {
      hide InsertBlob, Resolve, Free, Apart, NoEmptyDirectory, Holds;
      var n := |items| - 1;
      var last := items[n];
      BuildIsExact(items[..n]);
      assert items == items[..n] + [last];
      CompatibleLast(items);
      if InsertAll(items[..n]).Ok? {
        var node := InsertAll(items[..n]).value;
        HoldsFree(node, items[..n], last.path);
        if last.path == [] {
          InsertEmpty(node, last.blob);
        } else {
          InsertSucceeds(node, last.path, last.blob);
        }
        if InsertAll(items).Ok? {
          InsertHolds(node, items[..n], last);
          InsertKeepsNoEmptyDirectory(node, last.path, last.blob);
        }
      }
    }
  }

  lemma InsertEmpty(node: Node, blob: Blob)
    ensures InsertBlob(node, [], blob).Err?
  {
  }

  lemma CompatibleLast(items: seq<Item>)
    requires items != []
    ensures var n := |items| - 1;
            Compatible(items) <==>
              && Compatible(items[..n]) && items[n].path != []
              && (forall i :: 0 <= i < n ==> Apart(items[..n][i].path, items[n].path))
  {
    hide Apart;
    var n := |items| - 1;
    if Compatible(items) {
      forall i | 0 <= i < n
        ensures Apart(items[..n][i].path, items[n].path)
      {
        assert items[..n][i] == items[i];
      }
    }
  }

  ghost predicate SameFiles(a: Node, b: Node) {
    forall q, blob :: Resolve(a, q) == File(blob) <==> Resolve(b, q) == File(blob)
  }

  /** Trees without empty directories that hold the same files are the same tree. */
  lemma {:induction false} FilesDetermineTree(a: Node, b: Node)
    requires NoEmptyDirectory(a) && NoEmptyDirectory(b) && SameFiles(a, b)
    ensures a == b
  {
    hide Resolve, SameFiles;
    forall name | name in a.entries || name in b.entries
      ensures name in a.entries && name in b.entries && a.entries[name] == b.entries[name]
    {
      assert SameFiles(b, a) by {
        SameFilesSymmetric(a, b);
      }
      if name in a.entries {
        SameEntry(a, b, name);
      }
      if name in b.entries {
        SameEntry(b, a, name);
      }
      if a.entries[name].TreeEntry? {
        SameSubtree(a, b, name);
        FilesDetermineTree(a.entries[name].tree, b.entries[name].tree);
      }
    }
    assert a.entries.Keys == b.entries.Keys;
    assert a.entries == b.entries;
  }

  lemma SameFilesSymmetric(a: Node, b: Node)
    requires SameFiles(a, b)
    ensures SameFiles(b, a)
  {
  }

  lemma ResolveName(node: Node, name: Name)
    ensures Resolve(node, [name]) ==
            if name !in node.entries then Missing
            else match node.entries[name]
                 case BlobEntry(blob) => File(blob)
                 case TreeEntry(_) => Directory
  {
    if name in node.entries && node.entries[name].TreeEntry? {
      assert Resolve(node, [name]) == Resolve(node.entries[name].tree, []);
    }
  }

  lemma ResolveBelow(node: Node, name: Name, q: Path)
    requires name in node.entries && node.entries[name].TreeEntry?
    ensures Resolve(node, [name] + q) == Resolve(node.entries[name].tree, q)
  {
    assert ([name] + q)[1..] == q;
  }

  lemma SameEntry(a: Node, b: Node, name: Name)
    requires NoEmptyDirectory(a) && SameFiles(a, b) && name in a.entries
    ensures name in b.entries
    ensures a.entries[name].BlobEntry? ==> a.entries[name] == b.entries[name]
  {
    match a.entries[name]
    case BlobEntry(blob) =>
      ResolveName(a, name);
      ResolveName(b, name);
      assert Resolve(b, [name]) == File(blob);
    case TreeEntry(child) =>
      var q := SomeFile(child);
      ResolveBelow(a, name, q);
      assert Resolve(b, [name] + q) == File(Resolve(child, q).blob);
  }

  lemma SameSubtree(a: Node, b: Node, name: Name)
    requires SameFiles(a, b)
    requires name in a.entries && a.entries[name].TreeEntry? && name in b.entries && b.entries[name].TreeEntry?
    ensures SameFiles(a.entries[name].tree, b.entries[name].tree)
  {
    hide Resolve;
    forall q, blob
      ensures Resolve(a.entries[name].tree, q) == File(blob) <==> Resolve(b.entries[name].tree, q) == File(blob)
    {
      ResolveBelow(a, name, q);
      ResolveBelow(b, name, q);
      assert Resolve(a, [name] + q) == File(blob) <==> Resolve(b, [name] + q) == File(blob);
    }
  }

  /** The order of the entries does not matter: neither whether the tree is built nor what it is. */
  lemma OrderIrrelevant(items: seq<Item>, shuffled: seq<Item>)
    requires multiset(items) == multiset(shuffled)
    ensures InsertAll(items).Ok? <==> InsertAll(shuffled).Ok?
    ensures InsertAll(items).Ok? ==> InsertAll(items).value == InsertAll(shuffled).value
  {
    BuildIsExact(items);
    BuildIsExact(shuffled);
    if Compatible(items) {
      CompatibleAnyOrder(items, shuffled);
    }
    if Compatible(shuffled) {
      CompatibleAnyOrder(shuffled, items);
    }
    if InsertAll(items).Ok? {
      forall item
        ensures item in items <==> item in shuffled
      {
        assert item in items <==> item in multiset(items);
        assert item in shuffled <==> item in multiset(shuffled);
      }
      hide Resolve, InsertAll, Compatible;
      var a, b := InsertAll(items).value, InsertAll(shuffled).value;
      forall q, blob
        ensures Resolve(a, q) == File(blob) <==> Resolve(b, q) == File(blob)
      {
        assert Item(q, blob) in items <==> Item(q, blob) in shuffled;
      }
      FilesDetermineTree(a, b);
    }
  }

  lemma CompatibleAnyOrder(items: seq<Item>, shuffled: seq<Item>)
    requires multiset(items) == multiset(shuffled) && Compatible(items)
    ensures Compatible(shuffled)
  {
    hide Apart;
    forall i | 0 <= i < |shuffled|
      ensures shuffled[i].path != []
    {
      assert shuffled[i] in multiset(items);
    }
    forall i, j | 0 <= i < j < |shuffled|
      ensures Apart(shuffled[i].path, shuffled[j].path)
    {
      var a, b := shuffled[i], shuffled[j];
      assert a in multiset(items) && b in multiset(items);
      if a == b {
        Twice(shuffled, i, j);
        var k, l := TwoPlaces(items, a);
        ApartIsSymmetric(items[k].path, items[l].path);
      } else {
        var k :| 0 <= k < |items| && items[k] == a;
        var l :| 0 <= l < |items| && items[l] == b;
        ApartIsSymmetric(a.path, b.path);
      }
    }
  }

  lemma ApartIsSymmetric(a: Path, b: Path)
    ensures Apart(a, b) <==> Apart(b, a)
  {
  }

  lemma Twice<T>(s: seq<T>, i: nat, j: nat)
    requires i < j < |s| && s[i] == s[j]
    ensures multiset(s)[s[i]] >= 2
  {
    assert s == s[..j] + [s[j]] + s[j + 1..];
    assert s[i] in s[..j];
  }

  lemma {:induction false} TwoPlaces<T>(s: seq<T>, x: T) returns (k: nat, l: nat)
    requires multiset(s)[x] >= 2
    ensures k < l < |s| && s[k] == s[l] == x
  {
    var n := |s| - 1;
    assert s == s[..n] + [s[n]];
    if s[n] == x {
      assert x in multiset(s[..n]);
      l := n;
      k :| 0 <= k < n && s[..n][k] == x;
    } else {
      k, l := TwoPlaces(s[..n], x);
    }
  }
}
