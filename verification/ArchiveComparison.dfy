/** The comparison of two manifests, and what it says of the archives they were made from. */
module ArchiveComparison {
  import opened Archive
  import opened GitObjects
  import opened GitTree
  import opened Optional

  const MAX_COMPARISON_PATH_SAMPLES: nat := 1_000

  datatype Class = Matching | Changed | Absent | Additional

  /** How a path of either manifest compares. */
  function ClassOf(path: seq<byte>, subset: map<seq<byte>, Evidence>, superset: map<seq<byte>, Evidence>): Class {
    if path !in subset then Additional
    else if path !in superset then Absent
    else if superset[path] == subset[path] then Matching
    else Changed
  }

  /** The paths of one class, in order. */
  function Select(paths: seq<seq<byte>>, c: Class, subset: map<seq<byte>, Evidence>,
                  superset: map<seq<byte>, Evidence>): seq<seq<byte>> {
    if paths == [] then []
    else
      var last := paths[|paths| - 1];
      Select(paths[..|paths| - 1], c, subset, superset) + if ClassOf(last, subset, superset) == c then [last] else []
  }

  function Bounded(paths: seq<seq<byte>>): seq<seq<byte>> {
    if |paths| <= MAX_COMPARISON_PATH_SAMPLES then paths else paths[..MAX_COMPARISON_PATH_SAMPLES]
  }

  /** The keys of a map, each once, in the order it iterates them. */
  predicate Enumerates(paths: seq<seq<byte>>, m: map<seq<byte>, Evidence>) {
    && (forall i :: 0 <= i < |paths| ==> paths[i] in m)
    && (forall path :: path in m ==> path in paths)
    && (forall i, j :: 0 <= i < j < |paths| ==> paths[i] != paths[j])
  }

  datatype Inclusion = Inclusion(
    matching: nat, missing: nat, changed: nat, additional: nat,
    missingPaths: seq<seq<byte>>, changedPaths: seq<seq<byte>>, additionalPaths: seq<seq<byte>>,
    contentIncluded: bool, identical: bool, pathsTruncated: bool)

  method PushBounded(paths: seq<seq<byte>>, path: seq<byte>, ghost all: seq<seq<byte>>) returns (r: seq<seq<byte>>)
    requires paths == Bounded(all)
    ensures r == Bounded(all + [path])
  {
    r := if |paths| < MAX_COMPARISON_PATH_SAMPLES then paths + [path] else paths;
  }

  /** Compares two manifests: the counts cover every path of either once, inclusion and identity
      are decided exactly, and the samples are the first thousand of their kind. */
  method CompareContentInclusion(
    subset: map<seq<byte>, Evidence>, subsetPaths: seq<seq<byte>>,
    superset: map<seq<byte>, Evidence>, supersetPaths: seq<seq<byte>>) returns (r: Inclusion)
    requires Enumerates(subsetPaths, subset) && Enumerates(supersetPaths, superset)
    ensures r.contentIncluded <==> forall path | path in subset :: path in superset && superset[path] == subset[path]
    ensures r.identical <==> subset == superset
    ensures r.matching + r.changed + r.missing == |subset|
    ensures r.matching + r.changed + r.additional == |superset|
    ensures r.missingPaths == Bounded(Select(subsetPaths, Absent, subset, superset))
    ensures r.changedPaths == Bounded(Select(subsetPaths, Changed, subset, superset))
    ensures r.additionalPaths == Bounded(Select(supersetPaths, Additional, subset, superset))
    ensures r.matching == |Select(subsetPaths, Matching, subset, superset)|
    ensures r.missing == |Select(subsetPaths, Absent, subset, superset)|
    ensures r.changed == |Select(subsetPaths, Changed, subset, superset)|
    ensures r.additional == |Select(supersetPaths, Additional, subset, superset)|
    ensures r.pathsTruncated <==> r.missing > 1_000 || r.changed > 1_000 || r.additional > 1_000
  {
    hide Select, Bounded, Enumerates;
    SelectNone(subset, superset);
    PathsAreKeys(subsetPaths, subset);
    var matching, missing, changed, additional := 0, 0, 0, 0;
    var missingPaths, changedPaths, additionalPaths := [], [], [];
    for i := 0 to |subsetPaths|
      invariant matching == |Select(subsetPaths[..i], Matching, subset, superset)|
      invariant missing == |Select(subsetPaths[..i], Absent, subset, superset)|
      invariant changed == |Select(subsetPaths[..i], Changed, subset, superset)|
      invariant missingPaths == Bounded(Select(subsetPaths[..i], Absent, subset, superset))
      invariant changedPaths == Bounded(Select(subsetPaths[..i], Changed, subset, superset))
    {
      var path := subsetPaths[i];
      SelectStep(subsetPaths, i, Matching, subset, superset);
      SelectStep(subsetPaths, i, Absent, subset, superset);
      SelectStep(subsetPaths, i, Changed, subset, superset);
      if path !in superset {
        missing := missing + 1;
        missingPaths := PushBounded(missingPaths, path, Select(subsetPaths[..i], Absent, subset, superset));
      } else if superset[path] == subset[path] {
        matching := matching + 1;
      } else {
        changed := changed + 1;
        changedPaths := PushBounded(changedPaths, path, Select(subsetPaths[..i], Changed, subset, superset));
      }
    }
    for i := 0 to |supersetPaths|
      invariant additional == |Select(supersetPaths[..i], Additional, subset, superset)|
      invariant additionalPaths == Bounded(Select(supersetPaths[..i], Additional, subset, superset))
    {
      SelectStep(supersetPaths, i, Additional, subset, superset);
      if supersetPaths[i] !in subset {
        additional := additional + 1;
        additionalPaths :=
          PushBounded(additionalPaths, supersetPaths[i], Select(supersetPaths[..i], Additional, subset, superset));
      }
    }
    assert subsetPaths[..|subsetPaths|] == subsetPaths && supersetPaths[..|supersetPaths|] == supersetPaths;
    ClassCounts(subset, subsetPaths, superset, supersetPaths);
    BoundedLength(Select(subsetPaths, Absent, subset, superset));
    BoundedLength(Select(subsetPaths, Changed, subset, superset));
    BoundedLength(Select(supersetPaths, Additional, subset, superset));
    var included := missing == 0 && changed == 0;
    r := Inclusion(matching, missing, changed, additional, missingPaths, changedPaths, additionalPaths,
                   included, included && additional == 0,
                   missing > |missingPaths| || changed > |changedPaths| || additional > |additionalPaths|);
  }

  function PathSet(paths: seq<seq<byte>>): set<seq<byte>> {
    set path | path in paths
  }

  /** The keys of one class. */
  function ClassKeys(c: Class, keys: set<seq<byte>>, subset: map<seq<byte>, Evidence>,
                     superset: map<seq<byte>, Evidence>): set<seq<byte>> {
    set path | path in keys && ClassOf(path, subset, superset) == c
  }

  lemma SelectNone(subset: map<seq<byte>, Evidence>, superset: map<seq<byte>, Evidence>)
    ensures forall c :: Select([], c, subset, superset) == []
    ensures Bounded([]) == []
  {
  }

  lemma PathsAreKeys(paths: seq<seq<byte>>, m: map<seq<byte>, Evidence>)
    requires Enumerates(paths, m)
    ensures forall i :: 0 <= i < |paths| ==> paths[i] in m
  {
  }

  lemma BoundedLength(paths: seq<seq<byte>>)
    ensures |paths| > |Bounded(paths)| <==> |paths| > MAX_COMPARISON_PATH_SAMPLES
  {
  }

  lemma SelectStep(paths: seq<seq<byte>>, i: nat, c: Class, subset: map<seq<byte>, Evidence>,
                   superset: map<seq<byte>, Evidence>)
    requires i < |paths|
    ensures Select(paths[..i + 1], c, subset, superset)
         == if ClassOf(paths[i], subset, superset) == c then Select(paths[..i], c, subset, superset) + [paths[i]]
            else Select(paths[..i], c, subset, superset)
  {
    assert paths[..i + 1][..i] == paths[..i];
  }

  lemma ClassKeysAdd(c: Class, keys: set<seq<byte>>, last: seq<byte>, subset: map<seq<byte>, Evidence>,
                     superset: map<seq<byte>, Evidence>)
    requires last !in keys
    ensures |ClassKeys(c, keys + {last}, subset, superset)|
         == |ClassKeys(c, keys, subset, superset)| + if ClassOf(last, subset, superset) == c then 1 else 0
  {
    hide ClassOf;
    var before := ClassKeys(c, keys, subset, superset);
    assert ClassKeys(c, keys + {last}, subset, superset)
             == if ClassOf(last, subset, superset) == c then before + {last} else before;
  }

  lemma {:induction false} SelectCount(paths: seq<seq<byte>>, c: Class, subset: map<seq<byte>, Evidence>,
                                       superset: map<seq<byte>, Evidence>)
    requires forall i, j :: 0 <= i < j < |paths| ==> paths[i] != paths[j]
    ensures |Select(paths, c, subset, superset)| == |ClassKeys(c, PathSet(paths), subset, superset)|
  {
    hide ClassOf;
    if paths == [] {
      assert ClassKeys(c, PathSet(paths), subset, superset) == {};
    } else {
      hide ClassKeys;
      var n := |paths| - 1;
      SelectCount(paths[..n], c, subset, superset);
      ClassKeysAdd(c, PathSet(paths[..n]), paths[n], subset, superset);
      assert PathSet(paths) == PathSet(paths[..n]) + {paths[n]};
    }
  }

  lemma KeysOfListing(paths: seq<seq<byte>>, m: map<seq<byte>, Evidence>)
    requires Enumerates(paths, m)
    ensures PathSet(paths) == m.Keys
  {
  }

  lemma ClassCounts(subset: map<seq<byte>, Evidence>, subsetPaths: seq<seq<byte>>,
                    superset: map<seq<byte>, Evidence>, supersetPaths: seq<seq<byte>>)
    requires Enumerates(subsetPaths, subset) && Enumerates(supersetPaths, superset)
    ensures var matching, changed :=
              |Select(subsetPaths, Matching, subset, superset)|, |Select(subsetPaths, Changed, subset, superset)|;
            var missing, additional :=
                  |Select(subsetPaths, Absent, subset, superset)|,
                  |Select(supersetPaths, Additional, subset, superset)|;
            && matching + changed + missing == |subset|
            && matching + changed + additional == |superset|
            && (missing == 0 && changed == 0 <==>
                  forall path | path in subset :: path in superset && superset[path] == subset[path])
            && (missing == 0 && changed == 0 && additional == 0 <==> subset == superset)
  {
    hide Select, ClassKeys;
    KeysOfListing(subsetPaths, subset);
    KeysOfListing(supersetPaths, superset);
    SelectCount(subsetPaths, Matching, subset, superset);
    SelectCount(subsetPaths, Changed, subset, superset);
    SelectCount(subsetPaths, Absent, subset, superset);
    SelectCount(supersetPaths, Additional, subset, superset);
    ClassesPartition(subset, superset);
    EmptyClasses(subset, superset,
                 ClassKeys(Absent, subset.Keys, subset, superset),
                 ClassKeys(Changed, subset.Keys, subset, superset),
                 ClassKeys(Additional, superset.Keys, subset, superset));
  }

  lemma ClassesPartition(subset: map<seq<byte>, Evidence>, superset: map<seq<byte>, Evidence>)
    ensures |ClassKeys(Matching, subset.Keys, subset, superset)| + |ClassKeys(Changed, subset.Keys, subset, superset)|
            + |ClassKeys(Absent, subset.Keys, subset, superset)| == |subset|
    ensures |ClassKeys(Matching, subset.Keys, subset, superset)| + |ClassKeys(Changed, subset.Keys, subset, superset)|
            + |ClassKeys(Additional, superset.Keys, subset, superset)| == |superset|
  {
    var matching, changed :=
          ClassKeys(Matching, subset.Keys, subset, superset), ClassKeys(Changed, subset.Keys, subset, superset);
    ThreeParts(matching, changed, ClassKeys(Absent, subset.Keys, subset, superset), subset.Keys);
    ThreeParts(matching, changed, ClassKeys(Additional, superset.Keys, subset, superset), superset.Keys);
  }

  lemma ThreeParts<T>(a: set<T>, b: set<T>, c: set<T>, whole: set<T>)
    requires a !! b && a !! c && b !! c
    requires forall x :: x in whole <==> x in a || x in b || x in c
    ensures |a| + |b| + |c| == |whole|
  {
    assert whole == a + b + c;
  }

  lemma EmptyClasses(subset: map<seq<byte>, Evidence>, superset: map<seq<byte>, Evidence>,
                     missing: set<seq<byte>>, changed: set<seq<byte>>, additional: set<seq<byte>>)
    requires missing == ClassKeys(Absent, subset.Keys, subset, superset)
    requires changed == ClassKeys(Changed, subset.Keys, subset, superset)
    requires additional == ClassKeys(Additional, superset.Keys, subset, superset)
    ensures missing == {} && changed == {} <==>
              forall path | path in subset :: path in superset && superset[path] == subset[path]
    ensures missing == {} && changed == {} && additional == {} <==> subset == superset
  {
    forall path | path in subset && (path !in superset || superset[path] != subset[path])
      ensures path in missing + changed
    {
    }
    forall path | path in superset && path !in subset
      ensures path in additional
    {
    }
    if missing == {} && changed == {} && additional == {} {
      assert subset.Keys == superset.Keys;
      assert subset == superset;
    }
  }

  // ---------------------------------------------------------------- comparing two archives

  /** The keys of a manifest, in some order. */
  method Enumerate(m: map<seq<byte>, Evidence>) returns (paths: seq<seq<byte>>)
    ensures Enumerates(paths, m)
  {
    paths := [];
    var left := m.Keys;
    while left != {}
      invariant forall path :: path in m <==> path in left || path in paths
      invariant forall path <- paths :: path !in left
      invariant forall i, j :: 0 <= i < j < |paths| ==> paths[i] != paths[j]
      decreases left
    {
      var path :| path in left;
      left := left - {path};
      paths := paths + [path];
    }
  }

  /** Every file of one archive is in the other: at the same path, with the same mode, length and hash. */
  ghost predicate Contained(a: seq<ZipEntry>, b: seq<ZipEntry>, mode: RootMode) {
    forall e <- a :: FactOf(e, mode).Some? ==> exists f :: f in b && FactOf(f, mode) == FactOf(e, mode)
  }

  predicate Included(a: map<seq<byte>, Evidence>, b: map<seq<byte>, Evidence>) {
    forall path | path in a :: path in b && b[path] == a[path]
  }

  /** What the manifests say of inclusion holds of the archives. */
  lemma InclusionIsOfFiles(a: seq<ZipEntry>, b: seq<ZipEntry>, mode: RootMode,
                           inA: map<seq<byte>, Evidence>, inB: map<seq<byte>, Evidence>)
    requires Records(inA, a, mode) && Records(inB, b, mode)
    ensures Included(inA, inB) <==> Contained(a, b, mode)
  {
    hide FactOf, Join;
    if Included(inA, inB) {
      forall e | e in a && FactOf(e, mode).Some?
        ensures exists f :: f in b && FactOf(f, mode) == FactOf(e, mode)
      {
        var fact := FactOf(e, mode).value;
        assert Lists(inA, fact);
        assert Join(fact.path) in inB;
        var f :| f in b && FactOf(f, mode).Some? && FactOf(f, mode).value.path != []
                 && Join(FactOf(f, mode).value.path) == Join(fact.path);
        FactIsSafe(e, mode);
        FactIsSafe(f, mode);
        JoinInjective(fact.path, FactOf(f, mode).value.path);
        assert Lists(inB, FactOf(f, mode).value);
        assert FactOf(f, mode).value == fact;
      }
    }
    if Contained(a, b, mode) {
      forall key | key in inA
        ensures key in inB && inB[key] == inA[key]
      {
        var e :| e in a && FactOf(e, mode).Some? && FactOf(e, mode).value.path != []
                 && Join(FactOf(e, mode).value.path) == key;
        var f :| f in b && FactOf(f, mode) == FactOf(e, mode);
        assert Lists(inA, FactOf(e, mode).value) && Lists(inB, FactOf(f, mode).value);
      }
    }
  }

  lemma IncludedBothWays(a: map<seq<byte>, Evidence>, b: map<seq<byte>, Evidence>)
    ensures a == b <==> Included(a, b) && Included(b, a)
  {
    if Included(a, b) && Included(b, a) {
      assert a.Keys == b.Keys;
    }
  }

  lemma FactIsSafe(e: ZipEntry, mode: RootMode)
    requires FactOf(e, mode).Some?
    ensures SafePath(FactOf(e, mode).value.path)
  {
    hide SafePath, Components, GitBlobMode;
    RelativeIsSafe(e, mode);
  }

  predicate Inspectable(archive: seq<ZipEntry>, mode: RootMode) {
    0 < |archive| <= MAX_ZIP_ENTRIES && Acceptable(archive, mode) && FileItems(archive, mode) != []
  }

  /** Compares two archives: there is a result exactly if both can be inspected, and it says that the first is
      included exactly if each of its files is in the second, and that they are identical exactly if each file of
      either is in the other. */
  method CompareZipContentInclusion(subset: seq<ZipEntry>, superset: seq<ZipEntry>, mode: RootMode, h: Hash)
    returns (r: Option<Inclusion>)
    requires forall e <- subset + superset :: |e.oid| == OID_LENGTH
    ensures r.Some? <==> Inspectable(subset, mode) && Inspectable(superset, mode)
    ensures r.Some? ==> (r.value.contentIncluded <==> Contained(subset, superset, mode))
    ensures r.Some? ==> (r.value.identical <==> Contained(subset, superset, mode) && Contained(superset, subset, mode))
    ensures r.Some? ==> r.value.matching + r.value.changed + r.value.missing == |FileItems(subset, mode)|
    ensures r.Some? ==> r.value.matching + r.value.changed + r.value.additional == |FileItems(superset, mode)|
  {
    hide Acceptable, FileItems, Agrees, Records, Contained, Select, Bounded, Enumerates, AllAcceptable, ValidNode, Oid;
    hide Directories, InsertAll, TotalSize;
    assert forall e <- subset :: e in subset + superset;
    assert forall e <- superset :: e in subset + superset;
    var first, refusal := InspectZipManifest(subset, mode, h);
    if first.None? {
      return None;
    }
    var second;
    second, refusal := InspectZipManifest(superset, mode, h);
    if second.None? {
      return None;
    }
    var a, b := first.value.entries, second.value.entries;
    var aPaths := Enumerate(a);
    var bPaths := Enumerate(b);
    var inclusion := CompareContentInclusion(a, aPaths, b, bPaths);
    InclusionIsOfFiles(subset, superset, mode, a, b);
    InclusionIsOfFiles(superset, subset, mode, b, a);
    IncludedBothWays(a, b);
    r := Some(inclusion);
  }
}
