/** Finding duplicate files in three stages - by size, by the hash of a prefix, by the hash of the whole - and
    the single-step definition that the stages together meet. */
module Dupes {
  import opened Lists
  import opened Saturation
  import opened Sorting

  type Bytes = seq<bv8>

  type Hash = string

  datatype FileEntry = FileEntry(path: string, size: nat)

  datatype DupeGroup = DupeGroup(hash: Hash, size: nat, paths: seq<string>)

  datatype Hashed = Unreadable | Digest(hash: Hash)

  /** The file system during one search: what files hold, which reads succeed, and the hash function. */
  datatype World = World(content: string -> Bytes, prefixReads: string -> bool, fullReads: string -> bool,
                         hash: Bytes -> Hash)

  function HashPrefix(w: World, path: string, prefixLen: nat): Hashed {
    var bytes := w.content(path);
    if w.prefixReads(path) then Digest(w.hash(if |bytes| > prefixLen then bytes[..prefixLen] else bytes))
    else Unreadable
  }

  function HashFull(w: World, path: string): Hashed {
    if w.fullReads(path) then Digest(w.hash(w.content(path))) else Unreadable
  }

  // ---------------------------------------------------------------- the single-step definition

  predicate Readable(w: World, path: string) {
    w.prefixReads(path) && w.fullReads(path)
  }

  /** The readable files of one size and content, in the order given. */
  function Alike(w: World, files: seq<FileEntry>, size: nat, content: Bytes): seq<FileEntry> {
    Filter(files, (e: FileEntry) => e.size == size && Readable(w, e.path) && w.content(e.path) == content)
  }

  function Paths(files: seq<FileEntry>): seq<string> {
    seq(|files|, i requires 0 <= i < |files| => files[i].path)
  }

  /** No two different contents at hand have one hash. */
  ghost predicate CollisionFree(w: World, files: seq<FileEntry>) {
    forall a, b | a in files && b in files ::
      w.hash(w.content(a.path)) == w.hash(w.content(b.path)) ==> w.content(a.path) == w.content(b.path)
  }

  /** The groups are exactly the classes of two or more alike files of some size other than zero. */
  ghost predicate ExactGroups(w: World, files: seq<FileEntry>, groups: seq<DupeGroup>) {
    && (forall g <- groups ::
          && g.size > 0 && |g.paths| >= 2
          && exists e ::
               && e in files && g.hash == w.hash(w.content(e.path))
               && g.paths == Paths(Alike(w, files, g.size, w.content(e.path))))
    && (forall e <- files :: e.size > 0 && |Alike(w, files, e.size, w.content(e.path))| >= 2 ==>
          exists g :: g in groups && g.size == e.size && g.hash == w.hash(w.content(e.path)))
    && (forall i, j :: 0 <= i < j < |groups| ==> groups[i].size != groups[j].size || groups[i].hash != groups[j].hash)
  }

  function Wasted(g: DupeGroup): nat {
    var extra := if |g.paths| > 0 then |g.paths| - 1 else 0;
    Saturated(g.size * extra)
  }

  predicate MoreWasted(a: DupeGroup, b: DupeGroup) {
    Wasted(a) >= Wasted(b)
  }

  predicate LargerFirst(a: seq<FileEntry>, b: seq<FileEntry>) {
    b == [] || (a != [] && a[0].size >= b[0].size)
  }

  // ---------------------------------------------------------------- the stages

  function OfSize(files: seq<FileEntry>, size: nat): seq<FileEntry> {
    Filter(files, (e: FileEntry) => e.size == size)
  }

  function OfHash(group: seq<FileEntry>, hashOf: string -> Hashed, h: Hash): seq<FileEntry> {
    Filter(group, (e: FileEntry) => hashOf(e.path) == Digest(h))
  }

  /** Files whose hash can be taken, by hash. */
  method RegroupByHash(group: seq<FileEntry>, hashOf: string -> Hashed) returns (byHash: map<Hash, seq<FileEntry>>)
    ensures forall h :: (h in byHash <==> OfHash(group, hashOf, h) != [])
              && (h in byHash ==> byHash[h] == OfHash(group, hashOf, h))
  {
    hide Filter;
    byHash := map[];
    var i := 0;
    while i < |group|
      invariant 0 <= i <= |group|
      invariant forall h :: h in byHash <==> OfHash(group[..i], hashOf, h) != []
      invariant forall h <- byHash :: byHash[h] == OfHash(group[..i], hashOf, h)
    {
      var f := group[i];
      assert group[..i + 1] == group[..i] + [f];
      forall h
        ensures OfHash(group[..i + 1], hashOf, h) == OfHash(group[..i], hashOf, h)
                  + if hashOf(f.path) == Digest(h) then [f] else []
      {
        FilterSnoc(group[..i], f, (e: FileEntry) => hashOf(e.path) == Digest(h));
      }
      var hashed := hashOf(f.path);
      if hashed.Digest? {
        byHash := byHash[hashed.hash := (if hashed.hash in byHash then byHash[hashed.hash] else []) + [f]];
      }
      i := i + 1;
    }
    assert group[..i] == group;
  }

  /** Files of one size, two or more at a time, in no particular order of sizes. */
  method BySize(files: seq<FileEntry>) returns (bySize: map<nat, seq<FileEntry>>)
    ensures forall n :: n in bySize <==> n > 0 && OfSize(files, n) != []
    ensures forall n <- bySize :: bySize[n] == OfSize(files, n)
  {
    hide Filter;
    bySize := map[];
    var i := 0;
    while i < |files|
      invariant 0 <= i <= |files|
      invariant forall n :: n in bySize <==> n > 0 && OfSize(files[..i], n) != []
      invariant forall n <- bySize :: bySize[n] == OfSize(files[..i], n)
    {
      var f := files[i];
      assert files[..i + 1] == files[..i] + [f];
      forall n
        ensures OfSize(files[..i + 1], n) == OfSize(files[..i], n) + if f.size == n then [f] else []
      {
        FilterSnoc(files[..i], f, (e: FileEntry) => e.size == n);
      }
      if f.size != 0 {
        bySize := bySize[f.size := (if f.size in bySize then bySize[f.size] else []) + [f]];
      }
      i := i + 1;
    }
    assert files[..i] == files;
  }

  /** The first stage: every group of two or more files of one size, the largest first. */
  method GroupBySize(files: seq<FileEntry>) returns (groups: seq<seq<FileEntry>>)
    ensures forall g: seq<FileEntry> <- groups :: |g| >= 2 && g[0].size > 0 && g == OfSize(files, g[0].size)
    ensures forall n: nat :: n > 0 && |OfSize(files, n)| >= 2 ==> OfSize(files, n) in groups
    ensures Distinct(groups) && SortedBy(LargerFirst, groups)
  {
    hide OfSize;
    var bySize := BySize(files);
    var sizes := bySize.Keys;
    var unsorted: seq<seq<FileEntry>> := [];
    while sizes != {}
      invariant sizes <= bySize.Keys
      invariant forall g: seq<FileEntry> <- unsorted :: |g| >= 2 && g[0].size > 0 && g[0].size !in sizes
                  && g == OfSize(files, g[0].size)
      invariant forall n <- bySize.Keys - sizes :: |bySize[n]| >= 2 ==> bySize[n] in unsorted
      invariant Distinct(unsorted)
      decreases |sizes|
    {
      var n :| n in sizes;
      sizes := sizes - {n};
      if |bySize[n]| >= 2 {
        SizeOfFirst(files, n);
        unsorted := unsorted + [bySize[n]];
      }
    }
    LargerFirstOrder();
    SortedIsSorted(unsorted, LargerFirst);
    SortedElements(unsorted, LargerFirst);
    SortedIsDistinct(unsorted, LargerFirst);
    groups := Sorted(unsorted, LargerFirst);
  }

  lemma SizeOfFirst(files: seq<FileEntry>, n: nat)
    requires OfSize(files, n) != []
    ensures OfSize(files, n)[0].size == n
  {
    FilterElement(files, (e: FileEntry) => e.size == n, OfSize(files, n)[0]);
  }

  lemma LargerFirstOrder()
    ensures TotalPreorder(LargerFirst)
  {
  }

  lemma MoreWastedOrder()
    ensures TotalPreorder(MoreWasted)
  {
    hide Wasted;
  }

  function FullOf(w: World, group: seq<FileEntry>, h: Hash): seq<FileEntry> {
    Filter(group, (e: FileEntry) => HashFull(w, e.path) == Digest(h))
  }

  function PrefixOf(w: World, group: seq<FileEntry>, prefixLen: nat, h: Hash): seq<FileEntry> {
    Filter(group, (e: FileEntry) => HashPrefix(w, e.path, prefixLen) == Digest(h))
  }

  /** The readable files of a group with one full hash. */
  function Confirmed(w: World, group: seq<FileEntry>, h: Hash): seq<FileEntry> {
    Filter(group, (e: FileEntry) => Readable(w, e.path) && w.hash(w.content(e.path)) == h)
  }

  function Hashes(groups: seq<DupeGroup>): seq<Hash> {
    seq(|groups|, i requires 0 <= i < |groups| => groups[i].hash)
  }

  /** The groups list the hashes shared by two or more members of one size, each once, with their members. */
  ghost predicate Enumerates(groups: seq<DupeGroup>, size: nat, members: Hash -> seq<FileEntry>) {
    && (forall g <- groups :: g.size == size && |members(g.hash)| >= 2 && g.paths == Paths(members(g.hash)))
    && Distinct(Hashes(groups))
  }

  lemma EnumeratesOneMore(groups: seq<DupeGroup>, size: nat, members: Hash -> seq<FileEntry>, h: Hash)
    requires Enumerates(groups, size, members) && |members(h)| >= 2 && h !in Hashes(groups)
    ensures Enumerates(groups + [DupeGroup(h, size, Paths(members(h)))], size, members)
    ensures Hashes(groups + [DupeGroup(h, size, Paths(members(h)))]) == Hashes(groups) + [h]
  {
    assert Hashes(groups + [DupeGroup(h, size, Paths(members(h)))]) == Hashes(groups) + [h];
  }

  /** The last stage: within one group, the files that share a full hash. */
  method Confirm(w: World, size: nat, group: seq<FileEntry>) returns (groups: seq<DupeGroup>)
    ensures Enumerates(groups, size, h => FullOf(w, group, h))
    ensures forall h :: |FullOf(w, group, h)| >= 2 ==> h in Hashes(groups)
  {
    hide Enumerates, Paths, Filter;
    var byHash := RegroupByHash(group, p => HashFull(w, p));
    SameGrouping(w, group);
    ghost var members := h => FullOf(w, group, h);
    var hashes := byHash.Keys;
    groups := [];
    EnumeratesNothing(size, members);
    while hashes != {}
      invariant hashes <= byHash.Keys && Enumerates(groups, size, members)
      invariant forall h <- Hashes(groups) :: h !in hashes
      invariant forall h <- byHash.Keys - hashes :: |FullOf(w, group, h)| >= 2 ==> h in Hashes(groups)
      decreases |hashes|
    {
      var h :| h in hashes;
      hashes := hashes - {h};
      if |byHash[h]| >= 2 {
        EnumeratesOneMore(groups, size, members, h);
        groups := groups + [DupeGroup(h, size, Paths(byHash[h]))];
      }
    }
    forall h | |FullOf(w, group, h)| >= 2
      ensures h in Hashes(groups)
    {
      assert h in byHash;
    }
  }

  lemma EnumeratesNothing(size: nat, members: Hash -> seq<FileEntry>)
    ensures Enumerates([], size, members)
  {
  }

  lemma SameGrouping(w: World, group: seq<FileEntry>)
    ensures forall h :: OfHash(group, p => HashFull(w, p), h) == FullOf(w, group, h)
  {
    forall h
      ensures OfHash(group, p => HashFull(w, p), h) == FullOf(w, group, h)
    {
      FilterSame(group, (e: FileEntry) => ((p: string) => HashFull(w, p))(e.path) == Digest(h),
                 (e: FileEntry) => HashFull(w, e.path) == Digest(h));
    }
  }

  /** Readable files with one full hash share their prefix hash too, so the prefix stage keeps them together. */
  lemma PrefixStageSplitsNothing(w: World, group: seq<FileEntry>, prefixLen: nat, p: Hash, h: Hash)
    requires CollisionFree(w, group) && FullOf(w, PrefixOf(w, group, prefixLen, p), h) != []
    ensures FullOf(w, PrefixOf(w, group, prefixLen, p), h) == Confirmed(w, group, h)
    ensures Confirmed(w, group, h) != [] && HashPrefix(w, Confirmed(w, group, h)[0].path, prefixLen) == Digest(p)
  {
    hide Filter;
    var keep := (e: FileEntry) => HashPrefix(w, e.path, prefixLen) == Digest(p);
    var full := (e: FileEntry) => HashFull(w, e.path) == Digest(h);
    var both := (e: FileEntry) => keep(e) && full(e);
    var e0 := FullOf(w, PrefixOf(w, group, prefixLen, p), h)[0];
    FilterElement(PrefixOf(w, group, prefixLen, p), full, e0);
    FilterElement(group, keep, e0);
    FilterTwice(group, keep, full, both);
    FilterSame(group, both, (e: FileEntry) => Readable(w, e.path) && w.hash(w.content(e.path)) == h);
  }

  /** Every confirmed class of two or more has a prefix group of two or more to be found in. */
  lemma ConfirmedHasPrefix(w: World, group: seq<FileEntry>, prefixLen: nat, h: Hash)
    requires CollisionFree(w, group) && |Confirmed(w, group, h)| >= 2
    ensures var first := HashPrefix(w, Confirmed(w, group, h)[0].path, prefixLen);
            first.Digest? && |PrefixOf(w, group, prefixLen, first.hash)| >= 2
            && FullOf(w, PrefixOf(w, group, prefixLen, first.hash), h) == Confirmed(w, group, h)
  {
    hide Filter;
    var e := Confirmed(w, group, h)[0];
    FilterElement(group, (e: FileEntry) => Readable(w, e.path) && w.hash(w.content(e.path)) == h, e);
    var p := HashPrefix(w, e.path, prefixLen).hash;
    var keep := (e: FileEntry) => HashPrefix(w, e.path, prefixLen) == Digest(p);
    FilterElement(group, keep, e);
    FilterElement(PrefixOf(w, group, prefixLen, p), (e: FileEntry) => HashFull(w, e.path) == Digest(h), e);
    PrefixStageSplitsNothing(w, group, prefixLen, p, h);
  }

  /** The group a full hash is found in. */
  function Home(w: World, group: seq<FileEntry>, prefixLen: nat, h: Hash): Hashed {
    var members := Confirmed(w, group, h);
    if members == [] then Unreadable else HashPrefix(w, members[0].path, prefixLen)
  }

  lemma EnumeratesBoth(a: seq<DupeGroup>, b: seq<DupeGroup>, size: nat, members: Hash -> seq<FileEntry>)
    requires Enumerates(a, size, members) && Enumerates(b, size, members) && forall h <- Hashes(a) :: h !in Hashes(b)
    ensures Enumerates(a + b, size, members) && Hashes(a + b) == Hashes(a) + Hashes(b)
  {
    assert Hashes(a + b) == Hashes(a) + Hashes(b);
    DistinctJoin(Hashes(a), Hashes(b));
  }

  /** What one prefix group lists belongs to the whole size group, and is at home there. */
  lemma ListedAreConfirmed(w: World, size: nat, group: seq<FileEntry>, prefixLen: nat, p: Hash, found: seq<DupeGroup>)
    requires CollisionFree(w, group)
    requires Enumerates(found, size, h => FullOf(w, PrefixOf(w, group, prefixLen, p), h))
    ensures Enumerates(found, size, h => Confirmed(w, group, h))
    ensures forall h <- Hashes(found) :: Home(w, group, prefixLen, h) == Digest(p)
  {
    hide Filter, Paths, FullOf, Confirmed, PrefixOf, Distinct;
    forall g | g in found
      ensures FullOf(w, PrefixOf(w, group, prefixLen, p), g.hash) == Confirmed(w, group, g.hash)
      ensures Home(w, group, prefixLen, g.hash) == Digest(p)
    {
      PrefixStageSplitsNothing(w, group, prefixLen, p, g.hash);
    }
    forall h | h in Hashes(found)
      ensures Home(w, group, prefixLen, h) == Digest(p)
    {
      var i :| 0 <= i < |found| && Hashes(found)[i] == h;
      assert found[i] in found;
    }
  }

  lemma SamePrefixGrouping(w: World, group: seq<FileEntry>, prefixLen: nat)
    ensures forall h :: OfHash(group, p => HashPrefix(w, p, prefixLen), h) == PrefixOf(w, group, prefixLen, h)
  {
    forall h
      ensures OfHash(group, p => HashPrefix(w, p, prefixLen), h) == PrefixOf(w, group, prefixLen, h)
    {
      FilterSame(group, (e: FileEntry) => ((p: string) => HashPrefix(w, p, prefixLen))(e.path) == Digest(h),
                 (e: FileEntry) => HashPrefix(w, e.path, prefixLen) == Digest(h));
    }
  }

  /** Every class to be listed is found in one prefix group of two or more. */
  lemma HomesKnown(w: World, group: seq<FileEntry>, prefixLen: nat)
    requires CollisionFree(w, group)
    ensures forall h :: |Confirmed(w, group, h)| >= 2 ==>
                          var home := Home(w, group, prefixLen, h);
                          home.Digest? && |PrefixOf(w, group, prefixLen, home.hash)| >= 2
                          && FullOf(w, PrefixOf(w, group, prefixLen, home.hash), h) == Confirmed(w, group, h)
  {
    hide Confirmed, PrefixOf, FullOf, CollisionFree;
    forall h | |Confirmed(w, group, h)| >= 2
      ensures var home := Home(w, group, prefixLen, h);
              home.Digest? && |PrefixOf(w, group, prefixLen, home.hash)| >= 2
              && FullOf(w, PrefixOf(w, group, prefixLen, home.hash), h) == Confirmed(w, group, h)
    {
      ConfirmedHasPrefix(w, group, prefixLen, h);
    }
  }

  /** The second and third stage on the files of one size. */
  method OfOneSize(w: World, size: nat, group: seq<FileEntry>, prefixLen: nat) returns (groups: seq<DupeGroup>)
    ensures CollisionFree(w, group) ==> Enumerates(groups, size, h => Confirmed(w, group, h))
    ensures CollisionFree(w, group) ==> forall h :: |Confirmed(w, group, h)| >= 2 ==> h in Hashes(groups)
  {
    hide Enumerates, Paths, Filter, CollisionFree, HashPrefix, Confirmed, FullOf, PrefixOf, OfHash, Home, Distinct;
    var byPrefix := RegroupByHash(group, p => HashPrefix(w, p, prefixLen));
    SamePrefixGrouping(w, group, prefixLen);
    ghost var members, sure := h => Confirmed(w, group, h), CollisionFree(w, group);
    var prefixes := byPrefix.Keys;
    groups := [];
    EnumeratesNothing(size, members);
    assert Hashes([]) == [];
    if sure {
      HomesKnown(w, group, prefixLen);
    }
    while prefixes != {}
      invariant prefixes <= byPrefix.Keys
      invariant sure ==> Enumerates(groups, size, members)
      invariant sure ==> forall h <- Hashes(groups) ::
                  Home(w, group, prefixLen, h).Digest? && Home(w, group, prefixLen, h).hash !in prefixes
      invariant sure ==> forall h :: |Confirmed(w, group, h)| >= 2 ==>
                                       Home(w, group, prefixLen, h).hash in prefixes || h in Hashes(groups)
      decreases |prefixes|
    {
      var p :| p in prefixes;
      prefixes := prefixes - {p};
      if |byPrefix[p]| >= 2 {
        var found := Confirm(w, size, byPrefix[p]);
        if sure {
          ListedAreConfirmed(w, size, group, prefixLen, p, found);
          EnumeratesBoth(groups, found, size, members);
        }
        groups := groups + found;
      }
    }
  }

  // ---------------------------------------------------------------- the whole pipeline

  function Members(w: World, files: seq<FileEntry>, size: nat, h: Hash): seq<FileEntry> {
    Confirmed(w, OfSize(files, size), h)
  }

  ghost predicate Has(groups: seq<DupeGroup>, size: nat, h: Hash) {
    exists g :: g in groups && g.size == size && g.hash == h
  }

  ghost predicate Faithful(w: World, files: seq<FileEntry>, g: DupeGroup) {
    g.size > 0 && |Members(w, files, g.size, g.hash)| >= 2 && g.paths == Paths(Members(w, files, g.size, g.hash))
  }

  predicate DistinctKeys(groups: seq<DupeGroup>) {
    forall i, j :: 0 <= i < j < |groups| ==> groups[i].size != groups[j].size || groups[i].hash != groups[j].hash
  }

  /** By the full hash, the members are the alike files. */
  lemma MembersAreAlike(w: World, files: seq<FileEntry>, size: nat, e: FileEntry)
    requires CollisionFree(w, files) && e in files
    ensures Members(w, files, size, w.hash(w.content(e.path))) == Alike(w, files, size, w.content(e.path))
  {
    hide Filter;
    var h := w.hash(w.content(e.path));
    var sized := (x: FileEntry) => x.size == size;
    var confirmed := (x: FileEntry) => Readable(w, x.path) && w.hash(w.content(x.path)) == h;
    FilterTwice(files, sized, confirmed, (x: FileEntry) => sized(x) && confirmed(x));
    FilterSame(files, (x: FileEntry) => sized(x) && confirmed(x),
               (x: FileEntry) => x.size == size && Readable(w, x.path) && w.content(x.path) == w.content(e.path));
  }

  lemma SizeGroupIsCollisionFree(w: World, files: seq<FileEntry>, size: nat)
    requires CollisionFree(w, files)
    ensures CollisionFree(w, OfSize(files, size))
  {
    forall e | e in OfSize(files, size)
      ensures e in files
    {
      FilterElement(files, (x: FileEntry) => x.size == size, e);
    }
  }

  lemma JoinOneSize(w: World, files: seq<FileEntry>, groups: seq<DupeGroup>, size: nat, found: seq<DupeGroup>)
    requires size > 0 && Enumerates(found, size, h => Confirmed(w, OfSize(files, size), h))
    requires DistinctKeys(groups) && forall g <- groups :: g.size != size
    ensures DistinctKeys(groups + found) && forall g <- found :: Faithful(w, files, g) && g.size == size
  {
    hide Filter, Paths, Confirmed;
    forall i, j | 0 <= i < j < |found|
      ensures found[i].hash != found[j].hash
    {
      assert Hashes(found)[i] != Hashes(found)[j];
    }
    forall i, j | 0 <= i < |groups| && 0 <= j < |found|
      ensures groups[i].size != found[j].size
    {
      assert groups[i] in groups && found[j] in found;
    }
  }

  lemma HashesAreHad(groups: seq<DupeGroup>, found: seq<DupeGroup>, size: nat)
    requires forall g <- found :: g.size == size
    ensures forall h <- Hashes(found) :: Has(groups + found, size, h)
    ensures forall n, h :: Has(groups, n, h) ==> Has(groups + found, n, h)
  {
    forall h | h in Hashes(found)
      ensures Has(groups + found, size, h)
    {
      var i :| 0 <= i < |found| && Hashes(found)[i] == h;
      assert found[i] in groups + found;
    }
    forall n, h | Has(groups, n, h)
      ensures Has(groups + found, n, h)
    {
      var g :| g in groups && g.size == n && g.hash == h;
      assert g in groups + found;
    }
  }

  /** All groups of all sizes, before they are ranked. */
  method AllGroups(w: World, files: seq<FileEntry>, prefixLen: nat) returns (out: seq<DupeGroup>)
    ensures CollisionFree(w, files) ==> DistinctKeys(out) && forall g <- out :: Faithful(w, files, g)
    ensures CollisionFree(w, files) ==> forall n: nat, h :: n > 0 && |Members(w, files, n, h)| >= 2 ==> Has(out, n, h)
  {
    hide Filter, Enumerates, Faithful, CollisionFree, DistinctKeys, Has, Hashes;
    var sizes := GroupBySize(files);
    DescendingSizes(files, sizes);
    ghost var sure := CollisionFree(w, files);
    out := [];
    EmptyIsDistinct();
    var i := 0;
    while i < |sizes|
      invariant 0 <= i <= |sizes|
      invariant sure ==> DistinctKeys(out) && forall g <- out :: Faithful(w, files, g)
      invariant sure ==> forall g <- out :: forall k :: i <= k < |sizes| ==>
                  sizes[k] != [] && g.size != sizes[k][0].size
      invariant sure ==> forall k, h :: 0 <= k < i && sizes[k] != [] && |Confirmed(w, sizes[k], h)| >= 2 ==>
                                          Has(out, sizes[k][0].size, h)
    {
      var group := sizes[i];
      var size := group[0].size;
      var found := OfOneSize(w, size, group, prefixLen);
      if sure {
        SizeGroupIsCollisionFree(w, files, size);
        JoinOneSize(w, files, out, size, found);
        HashesAreHad(out, found, size);
      }
      out := out + found;
      i := i + 1;
    }
    if sure {
      forall n: nat, h | n > 0 && |Members(w, files, n, h)| >= 2
        ensures Has(out, n, h)
      {
        SizeOfFirst(files, n);
        assert OfSize(files, n) in sizes;
      }
    }
  }

  lemma EmptyIsDistinct()
    ensures DistinctKeys([])
  {
  }

  lemma DescendingSizes(files: seq<FileEntry>, sizes: seq<seq<FileEntry>>)
    requires forall g: seq<FileEntry> <- sizes :: |g| >= 2 && g[0].size > 0 && g == OfSize(files, g[0].size)
    requires Distinct(sizes)
    ensures forall i, j :: 0 <= i < j < |sizes| ==>
              sizes[i] != [] && sizes[j] != [] && sizes[i][0].size != sizes[j][0].size
  {
    hide OfSize;
    forall i, j | 0 <= i < j < |sizes|
      ensures sizes[i] != [] && sizes[j] != [] && sizes[i][0].size != sizes[j][0].size
    {
      assert sizes[i] in sizes && sizes[j] in sizes;
    }
  }

  lemma FaithfulGroup(w: World, files: seq<FileEntry>, g: DupeGroup)
    requires CollisionFree(w, files) && Faithful(w, files, g)
    ensures exists e :: e in files && g.hash == w.hash(w.content(e.path))
              && g.paths == Paths(Alike(w, files, g.size, w.content(e.path)))
    ensures |g.paths| >= 2
  {
    hide Filter, CollisionFree, Alike;
    var sized := OfSize(files, g.size);
    var e := Members(w, files, g.size, g.hash)[0];
    FilterElement(sized, (x: FileEntry) => Readable(w, x.path) && w.hash(w.content(x.path)) == g.hash, e);
    FilterElement(files, (x: FileEntry) => x.size == g.size, e);
    MembersAreAlike(w, files, g.size, e);
  }

  /** Ranking moves the groups about, and nothing else. */
  lemma RankedIsExact(w: World, files: seq<FileEntry>, groups: seq<DupeGroup>, ranked: seq<DupeGroup>)
    requires CollisionFree(w, files)
    requires DistinctKeys(groups) && (forall g <- groups :: Faithful(w, files, g))
    requires forall n: nat, h :: n > 0 && |Members(w, files, n, h)| >= 2 ==> Has(groups, n, h)
    requires (forall g :: g in ranked <==> g in groups) && (Distinct(groups) ==> Distinct(ranked))
    ensures ExactGroups(w, files, ranked)
  {
    hide Filter, CollisionFree, Members, Alike, Paths;
    forall g | g in ranked
      ensures g.size > 0 && |g.paths| >= 2
      ensures exists e :: e in files && g.hash == w.hash(w.content(e.path))
                && g.paths == Paths(Alike(w, files, g.size, w.content(e.path)))
    {
      FaithfulGroup(w, files, g);
    }
    forall e | e in files && e.size > 0 && |Alike(w, files, e.size, w.content(e.path))| >= 2
      ensures exists g :: g in ranked && g.size == e.size && g.hash == w.hash(w.content(e.path))
    {
      MembersAreAlike(w, files, e.size, e);
      assert Has(groups, e.size, w.hash(w.content(e.path)));
    }
    assert Distinct(groups);
    forall i, j | 0 <= i < j < |ranked|
      ensures ranked[i].size != ranked[j].size || ranked[i].hash != ranked[j].hash
    {
      assert ranked[i] in ranked && ranked[j] in ranked;
    }
  }

  /** What a group wastes is all its files but one. */
  lemma WastedIs(groups: seq<DupeGroup>)
    ensures forall g <- groups :: g.paths != [] ==> Wasted(g) == Saturated(g.size * (|g.paths| - 1))
  {
    hide Saturated;
  }

  /** The three stages: the groups are exactly the classes of alike files, whatever the prefix length, and those
      that waste more come first. */
  method FindDuplicates(w: World, files: seq<FileEntry>, prefixLen: nat) returns (out: seq<DupeGroup>)
    ensures CollisionFree(w, files) ==> ExactGroups(w, files, out)
    ensures SortedBy(MoreWasted, out)
    ensures forall i, j :: 0 <= i < j < |out| && out[i].paths != [] && out[j].paths != [] ==>
              Saturated(out[i].size * (|out[i].paths| - 1)) >= Saturated(out[j].size * (|out[j].paths| - 1))
  {
    hide Wasted, Faithful, DistinctKeys, Members, Has, ExactGroups, CollisionFree, Sorted, Saturated;
    var groups := AllGroups(w, files, prefixLen);
    MoreWastedOrder();
    SortedIsSorted(groups, MoreWasted);
    SortedElements(groups, MoreWasted);
    out := Sorted(groups, MoreWasted);
    WastedIs(out);
    if CollisionFree(w, files) {
      if Distinct(groups) {
        SortedIsDistinct(groups, MoreWasted);
      }
      RankedIsExact(w, files, groups, out);
    }
  }

  /** A file is in at most one group. */
  lemma AtMostOneGroup(w: World, files: seq<FileEntry>, groups: seq<DupeGroup>, e: FileEntry, i: nat, c: Bytes, j: nat,
                       d: Bytes)
    requires ExactGroups(w, files, groups) && i < |groups| && j < |groups|
    requires groups[i].hash == w.hash(c) && e in Alike(w, files, groups[i].size, c)
    requires groups[j].hash == w.hash(d) && e in Alike(w, files, groups[j].size, d)
    ensures i == j
  {
    hide Filter;
    FilterElement(files, (x: FileEntry) => x.size == groups[i].size && Readable(w, x.path)
                  && w.content(x.path) == c, e);
    FilterElement(files, (x: FileEntry) => x.size == groups[j].size && Readable(w, x.path)
                  && w.content(x.path) == d, e);
  }

  /** Which groups there are depends on the files alone. */
  lemma ExactGroupsAreUnique(w: World, files: seq<FileEntry>, a: seq<DupeGroup>, b: seq<DupeGroup>, g: DupeGroup)
    requires CollisionFree(w, files) && ExactGroups(w, files, a) && ExactGroups(w, files, b) && g in a
    ensures g in b
  {
    hide Filter;
    var e :| e in files && g.hash == w.hash(w.content(e.path))
          && g.paths == Paths(Alike(w, files, g.size, w.content(e.path)));
    var f := Alike(w, files, g.size, w.content(e.path))[0];
    FilterElement(files, (x: FileEntry) => x.size == g.size && Readable(w, x.path)
                  && w.content(x.path) == w.content(e.path), f);
    var k :| k in b && k.size == f.size && k.hash == w.hash(w.content(f.path));
    var d :| d in files && k.hash == w.hash(w.content(d.path))
          && k.paths == Paths(Alike(w, files, k.size, w.content(d.path)));
    assert w.content(d.path) == w.content(e.path);
  }

  /** The prefix length changes no group. */
  method FindTwice(w: World, files: seq<FileEntry>, shorter: nat, longer: nat)
    returns (a: seq<DupeGroup>, b: seq<DupeGroup>)
    ensures CollisionFree(w, files) ==> forall g :: g in a <==> g in b
  {
    hide ExactGroups, CollisionFree;
    a := FindDuplicates(w, files, shorter);
    b := FindDuplicates(w, files, longer);
    if CollisionFree(w, files) {
      forall g
        ensures g in a <==> g in b
      {
        if g in a {
          ExactGroupsAreUnique(w, files, a, b, g);
        }
        if g in b {
          ExactGroupsAreUnique(w, files, b, a, g);
        }
      }
    }
  }
}
