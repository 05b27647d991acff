/** Git's name order, the payload of a tree object, its hash and the directory count. */
module GitObjects {
  import opened GitTree

  // ---------------------------------------------------------------- name order

  datatype Ordering = Less | Equal | Greater

  /** Lexicographic comparison of byte strings. */
  function CompareBytes(a: seq<byte>, b: seq<byte>): Ordering {
    if a == [] && b == [] then Equal
    else if a == [] then Less
    else if b == [] then Greater
    else if a[0] < b[0] then Less
    else if a[0] > b[0] then Greater
    else CompareBytes(a[1..], b[1..])
  }

  function NextByte(name: Name, shared: nat, isTree: bool): byte {
    if shared < |name| then name[shared] else if isTree then SLASH else NUL
  }

  /** `git_name_compare`: the shared length first, then one byte of each. */
  function GitNameCompare(left: Name, leftTree: bool, right: Name, rightTree: bool): Ordering {
    var shared := if |left| < |right| then |left| else |right|;
    match CompareBytes(left[..shared], right[..shared])
    case Equal => CompareBytes([NextByte(left, shared, leftTree)], [NextByte(right, shared, rightTree)])
    case ordering => ordering
  }

  predicate ValidName(name: Name) {
    name != [] && SLASH !in name && NUL !in name
  }

  /** A name as Git orders it: directories as if they ended in a slash. */
  function Key(name: Name, isTree: bool): seq<byte> {
    if isTree then name + [SLASH] else name
  }

  /** The comparison is lexicographic order on the names, directories with a slash appended. */
  lemma {:induction false} GitNameCompareIsKeyOrder(left: Name, leftTree: bool, right: Name, rightTree: bool)
    requires SLASH !in left && NUL !in left && SLASH !in right && NUL !in right
    ensures GitNameCompare(left, leftTree, right, rightTree) == CompareBytes(Key(left, leftTree), Key(right, rightTree))
  {
    hide GitNameCompare, CompareBytes, Key;
    if left != [] && right != [] {
      assert forall b | b in left[1..] :: b in left;
      assert forall b | b in right[1..] :: b in right;
      KeyTail(left, leftTree);
      KeyTail(right, rightTree);
      CompareTails(Key(left, leftTree), Key(right, rightTree));
      GitNameCompareTails(left, leftTree, right, rightTree);
      GitNameCompareIsKeyOrder(left[1..], leftTree, right[1..], rightTree);
    } else {
      EmptyNameCompare(left, leftTree, right, rightTree);
    }
  }

  lemma CompareTails(a: seq<byte>, b: seq<byte>)
    requires a != [] && b != []
    ensures CompareBytes(a, b)
              == if a[0] < b[0] then Less else if a[0] > b[0] then Greater else CompareBytes(a[1..], b[1..])
  {
  }

  lemma GitNameCompareTails(left: Name, leftTree: bool, right: Name, rightTree: bool)
    requires left != [] && right != []
    ensures GitNameCompare(left, leftTree, right, rightTree)
         == if left[0] < right[0] then Less else if left[0] > right[0] then Greater
            else GitNameCompare(left[1..], leftTree, right[1..], rightTree)
  {
    hide CompareBytes;
    var shared := if |left| < |right| then |left| else |right|;
    CompareTails(left[..shared], right[..shared]);
    assert left[..shared][1..] == left[1..][..shared - 1] && right[..shared][1..] == right[1..][..shared - 1];
  }

  lemma KeyTail(name: Name, isTree: bool)
    requires name != []
    ensures Key(name, isTree) != [] && Key(name, isTree)[0] == name[0]
              && Key(name, isTree)[1..] == Key(name[1..], isTree)
  {
  }

  lemma OneByte(x: byte, y: byte)
    ensures CompareBytes([x], [y]) == if x < y then Less else if x > y then Greater else Equal
  {
  }

  lemma EmptyNameCompare(left: Name, leftTree: bool, right: Name, rightTree: bool)
    requires SLASH !in left && NUL !in left && SLASH !in right && NUL !in right
    requires left == [] || right == []
    ensures GitNameCompare(left, leftTree, right, rightTree) == CompareBytes(Key(left, leftTree), Key(right, rightTree))
  {
    OneByte(NextByte(left, 0, leftTree), NextByte(right, 0, rightTree));
    assert left[..0] == [] && right[..0] == [];
    if left != [] {
      KeyTail(left, leftTree);
      assert left[0] in left;
    }
    if right != [] {
      KeyTail(right, rightTree);
      assert right[0] in right;
    }
  }

  lemma {:induction false} CompareEqual(a: seq<byte>, b: seq<byte>)
    ensures CompareBytes(a, b) == Equal <==> a == b
    ensures CompareBytes(a, b) == Less <==> CompareBytes(b, a) == Greater
  {
    if a != [] && b != [] {
      CompareEqual(a[1..], b[1..]);
      assert a == [a[0]] + a[1..] && b == [b[0]] + b[1..];
    }
  }

  lemma {:induction false} CompareTransitive(a: seq<byte>, b: seq<byte>, c: seq<byte>)
    requires CompareBytes(a, b) == Less && CompareBytes(b, c) == Less
    ensures CompareBytes(a, c) == Less
  {
    if a != [] && b != [] && c != [] && a[0] == b[0] == c[0] {
      CompareTransitive(a[1..], b[1..], c[1..]);
    }
  }

  lemma KeysDiffer(a: Name, aTree: bool, b: Name, bTree: bool)
    requires SLASH !in a && SLASH !in b && a != b
    ensures Key(a, aTree) != Key(b, bTree)
  {
    var x, y := Key(a, aTree), Key(b, bTree);
    if aTree {
      assert x[|x| - 1] == SLASH && x[..|a|] == a;
    }
    if bTree {
      assert y[|y| - 1] == SLASH && y[..|b|] == b;
    }
  }

  /** On distinct names Git's order is a strict total order. */
  lemma GitOrderIsTotal(a: Name, aTree: bool, b: Name, bTree: bool, c: Name, cTree: bool)
    requires ValidName(a) && ValidName(b) && ValidName(c)
    ensures GitNameCompare(a, aTree, a, aTree) == Equal
    ensures a != b ==> GitNameCompare(a, aTree, b, bTree) != Equal
    ensures GitNameCompare(a, aTree, b, bTree) == Less <==> GitNameCompare(b, bTree, a, aTree) == Greater
    ensures GitNameCompare(a, aTree, b, bTree) == Less && GitNameCompare(b, bTree, c, cTree) == Less ==>
              GitNameCompare(a, aTree, c, cTree) == Less
  {
    hide GitNameCompare, CompareBytes, Key;
    GitNameCompareIsKeyOrder(a, aTree, a, aTree);
    GitNameCompareIsKeyOrder(a, aTree, b, bTree);
    GitNameCompareIsKeyOrder(b, bTree, a, aTree);
    GitNameCompareIsKeyOrder(b, bTree, c, cTree);
    GitNameCompareIsKeyOrder(a, aTree, c, cTree);
    CompareEqual(Key(a, aTree), Key(a, aTree));
    CompareEqual(Key(a, aTree), Key(b, bTree));
    if a != b {
      KeysDiffer(a, aTree, b, bTree);
    }
    if CompareBytes(Key(a, aTree), Key(b, bTree)) == Less && CompareBytes(Key(b, bTree), Key(c, cTree)) == Less {
      CompareTransitive(Key(a, aTree), Key(b, bTree), Key(c, cTree));
    }
  }

  // ---------------------------------------------------------------- the entries in order

  predicate ValidNames(node: Node) {
    forall name | name in node.entries :: ValidName(name)
  }

  predicate Before(node: Node, a: Name, b: Name)
    requires a in node.entries && b in node.entries
  {
    GitNameCompare(a, node.entries[a].TreeEntry?, b, node.entries[b].TreeEntry?) == Less
  }

  /** Some of the names of a node, in Git's order. */
  predicate Ordered(node: Node, listing: seq<Name>) {
    && (forall i :: 0 <= i < |listing| ==> listing[i] in node.entries)
    && (forall i, j :: 0 <= i < j < |listing| ==> Before(node, listing[i], listing[j]))
  }

  /** All of them. */
  predicate IsListing(node: Node, listing: seq<Name>) {
    Ordered(node, listing) && forall name :: name in node.entries ==> name in listing
  }

  lemma BeforeIsTotal(node: Node, a: Name, b: Name, c: Name)
    requires ValidNames(node) && a in node.entries && b in node.entries && c in node.entries
    ensures !Before(node, a, a)
    ensures a != b ==> Before(node, a, b) || Before(node, b, a)
    ensures Before(node, a, b) && Before(node, b, c) ==> Before(node, a, c)
  {
    hide GitNameCompare;
    GitOrderIsTotal(a, node.entries[a].TreeEntry?, b, node.entries[b].TreeEntry?, c, node.entries[c].TreeEntry?);
    GitOrderIsTotal(b, node.entries[b].TreeEntry?, a, node.entries[a].TreeEntry?, c, node.entries[c].TreeEntry?);
  }

  /** A listing is unique: the order in which the entries were collected before sorting is lost. */
  lemma {:induction false} OrderedUnique(node: Node, a: seq<Name>, b: seq<Name>)
    requires ValidNames(node) && Ordered(node, a) && Ordered(node, b)
    requires forall name :: name in a <==> name in b
    ensures a == b
  {
    hide Before;
    if b != [] {
      MemberOfOther(a, b);
    }
    if a != [] {
      MemberOfOther(b, a);
      FirstIsLeast(node, a, b[0]);
      FirstIsLeast(node, b, a[0]);
      BeforeIsTotal(node, a[0], b[0], a[0]);
      forall name
        ensures name in a[1..] <==> name in b[1..]
      {
        HeadIsElsewhereNot(node, a, name);
        HeadIsElsewhereNot(node, b, name);
      }
      assert a[0] == b[0];
      OrderedUnique(node, a[1..], b[1..]);
      assert a == [a[0]] + a[1..] && b == [b[0]] + b[1..];
    }
  }

  lemma MemberOfOther(a: seq<Name>, b: seq<Name>)
    requires b != [] && forall name :: name in b ==> name in a
    ensures a != [] && b[0] in a
  {
    assert b[0] in b;
  }

  lemma FirstIsLeast(node: Node, a: seq<Name>, name: Name)
    requires Ordered(node, a) && name in a
    ensures a[0] == name || Before(node, a[0], name)
  {
  }

  lemma HeadIsElsewhereNot(node: Node, a: seq<Name>, name: Name)
    requires ValidNames(node) && Ordered(node, a) && a != []
    ensures name in a[1..] <==> name in a && name != a[0]
  {
    hide Before;
    BeforeIsTotal(node, a[0], a[0], a[0]);
  }

  /** Inserts a name where it belongs. */
  method InsertName(node: Node, listing: seq<Name>, name: Name) returns (r: seq<Name>)
    requires ValidNames(node) && Ordered(node, listing) && name in node.entries && name !in listing
    ensures Ordered(node, r) && forall n :: n in r <==> n in listing || n == name
  {
    hide Before, ValidNames;
    var i := 0;
    while i < |listing|
    && GitNameCompare(listing[i], node.entries[listing[i]].TreeEntry?, name, node.entries[name].TreeEntry?) == Less
      invariant 0 <= i <= |listing|
      invariant forall k :: 0 <= k < i ==> Before(node, listing[k], name)
    {
      BeforeIs(node, listing[i], name);
      i := i + 1;
    }
    if i < |listing| {
      BeforeIs(node, listing[i], name);
      BeforeIsTotal(node, listing[i], name, name);
      forall k | i < k < |listing|
        ensures Before(node, name, listing[k])
      {
        BeforeIsTotal(node, name, listing[i], listing[k]);
      }
    }
    r := listing[..i] + [name] + listing[i..];
  }

  lemma BeforeIs(node: Node, a: Name, b: Name)
    requires a in node.entries && b in node.entries
    ensures Before(node, a, b) <==> GitNameCompare(a, node.entries[a].TreeEntry?, b, node.entries[b].TreeEntry?) == Less
  {
  }

  /** `entries.sort_by(git_name_compare)`, from the names in any order. */
  method SortEntries(node: Node) returns (listing: seq<Name>)
    requires ValidNames(node)
    ensures IsListing(node, listing)
  {
    hide Before, ValidNames;
    listing := [];
    var names := node.entries.Keys;
    while names != {}
      invariant names <= node.entries.Keys
      invariant Ordered(node, listing)
      invariant forall n :: n in listing <==> n in node.entries && n !in names
      decreases names
    {
      var name :| name in names;
      listing := InsertName(node, listing, name);
      names := names - {name};
    }
  }

  lemma ListingExists(node: Node) returns (listing: seq<Name>)
    requires ValidNames(node)
    ensures IsListing(node, listing)
  {
    listing := ListingOf(node, node.entries.Keys);
  }

  lemma {:induction false} ListingOf(node: Node, names: set<Name>) returns (listing: seq<Name>)
    requires ValidNames(node) && names <= node.entries.Keys
    ensures Ordered(node, listing) && forall n :: n in listing <==> n in names
  {
    if names == {} {
      listing := [];
    } else {
      var first := Least(node, names);
      var rest := ListingOf(node, names - {first});
      listing := [first] + rest;
    }
  }

  lemma {:induction false} Least(node: Node, names: set<Name>) returns (least: Name)
    requires ValidNames(node) && {} < names <= node.entries.Keys
    ensures least in names && forall n | n in names && n != least :: Before(node, least, n)
  {
    hide Before, ValidNames;
    var x :| x in names;
    if names == {x} {
      least := x;
    } else {
      var y := Least(node, names - {x});
      BeforeIsTotal(node, x, y, y);
      if Before(node, x, y) {
        forall n | n in names && n != x
          ensures Before(node, x, n)
        {
          BeforeIsTotal(node, x, y, n);
        }
        least := x;
      } else {
        least := y;
      }
    }
  }

  /** The one listing of a node. */
  ghost function Listing(node: Node): (listing: seq<Name>)
    requires ValidNames(node)
    ensures IsListing(node, listing)
  {
    assert exists l :: IsListing(node, l) by {
      var l := ListingExists(node);
    }
    var listing :| IsListing(node, listing);
    listing
  }

  // ---------------------------------------------------------------- the payload

  type Hash = seq<byte> -> seq<byte>

  const OID_LENGTH: nat := 20

  /** One entry of a tree object. */
  datatype Row = Row(mode: seq<byte>, name: Name, oid: seq<byte>)

  const MODE_FILE: seq<byte> := [49, 48, 48, 54, 52, 52]
  const MODE_EXECUTABLE: seq<byte> := [49, 48, 48, 55, 53, 53]
  const MODE_LINK: seq<byte> := [49, 50, 48, 48, 48, 48]
  const MODE_TREE: seq<byte> := [52, 48, 48, 48, 48]

  predicate BlobMode(mode: seq<byte>) {
    mode == MODE_FILE || mode == MODE_EXECUTABLE || mode == MODE_LINK
  }

  /** Names without slash or NUL, blobs with Git's modes and 20-byte object ids, all the way down. */
  predicate ValidNode(node: Node) {
    forall name | name in node.entries ::
      && ValidName(name)
      && match node.entries[name]
         case BlobEntry(blob) => BlobMode(blob.mode) && |blob.oid| == OID_LENGTH
         case TreeEntry(child) => ValidNode(child)
  }

  /** Mode, space, name, NUL, object id. */
  function EncodeRow(row: Row): seq<byte> {
    row.mode + [SPACE] + (row.name + [NUL] + row.oid)
  }

  function EncodeRows(rows: seq<Row>): seq<byte> {
    if rows == [] then [] else EncodeRow(rows[0]) + EncodeRows(rows[1..])
  }

  function Decimal(n: nat): (s: seq<byte>)
    ensures NUL !in s && s != []
  {
    if n < 10 then [(48 + n) as byte] else Decimal(n / 10) + [(48 + n % 10) as byte]
  }

  /** "tree ", the length of the content, NUL, the content. */
  function TreeObject(content: seq<byte>): seq<byte> {
    [116, 114, 101, 101, SPACE] + Decimal(|content|) + [NUL] + content
  }

  predicate AllDigits(s: seq<byte>) {
    forall i :: 0 <= i < |s| ==> 48 <= s[i] <= 57
  }

  /** The number written in decimal ASCII digits. */
  function NumberOf(s: seq<byte>): nat
    requires AllDigits(s)
  {
    if s == [] then 0 else 10 * NumberOf(s[..|s| - 1]) + (s[|s| - 1] as int - 48)
  }

  /** The digits of a number write that number, without zeros before it. */
  lemma {:induction false} DecimalWrites(n: nat)
    ensures AllDigits(Decimal(n)) && NumberOf(Decimal(n)) == n
    ensures Decimal(n)[0] == 48 ==> n == 0
  {
    if n < 10 {
      assert Decimal(n)[..0] == [];
    } else {
      DecimalWrites(n / 10);
      assert Decimal(n)[..|Decimal(n)| - 1] == Decimal(n / 10);
    }
  }

  predicate WellFormedRow(row: Row) {
    SPACE !in row.mode && NUL !in row.name && |row.oid| == OID_LENGTH
  }

  lemma {:induction false} SplitAtFirst(a: seq<byte>, x: seq<byte>, b: seq<byte>, y: seq<byte>, mark: byte)
    requires mark !in a && mark !in b
    requires a + [mark] + x == b + [mark] + y
    ensures a == b && x == y
  {
    var s, t := a + [mark] + x, b + [mark] + y;
    FirstIsMark(a, x, mark);
    FirstIsMark(b, y, mark);
    if a == [] {
      assert x == s[1..] && y == t[1..];
    } else {
      assert a[0] == s[0] == t[0] == b[0];
      assert s[1..] == a[1..] + [mark] + x && t[1..] == b[1..] + [mark] + y;
      SplitAtFirst(a[1..], x, b[1..], y, mark);
      assert a == [a[0]] + a[1..] && b == [b[0]] + b[1..];
    }
  }

  lemma FirstIsMark(a: seq<byte>, x: seq<byte>, mark: byte)
    requires mark !in a
    ensures (a + [mark] + x)[0] == mark <==> a == []
  {
    if a != [] {
      assert (a + [mark] + x)[0] == a[0];
    }
  }

  /** The payload of a tree can be read back in one way only. */
  lemma {:induction false} RowsDecodable(a: seq<Row>, b: seq<Row>)
    requires forall row | row in a :: WellFormedRow(row)
    requires forall row | row in b :: WellFormedRow(row)
    requires EncodeRows(a) == EncodeRows(b)
    ensures a == b
  {
    if a != [] && b != [] {
      RowDecodable(a[0], EncodeRows(a[1..]), b[0], EncodeRows(b[1..]));
      RowsDecodable(a[1..], b[1..]);
      assert a == [a[0]] + a[1..] && b == [b[0]] + b[1..];
    }
  }

  lemma RowDecodable(a: Row, x: seq<byte>, b: Row, y: seq<byte>)
    requires WellFormedRow(a) && WellFormedRow(b) && EncodeRow(a) + x == EncodeRow(b) + y
    ensures a == b && x == y
  {
    var s, t := a.name + [NUL] + a.oid + x, b.name + [NUL] + b.oid + y;
    assert EncodeRow(a) + x == a.mode + [SPACE] + s;
    assert EncodeRow(b) + y == b.mode + [SPACE] + t;
    SplitAtFirst(a.mode, s, b.mode, t, SPACE);
    assert s == a.name + [NUL] + (a.oid + x) && t == b.name + [NUL] + (b.oid + y);
    SplitAtFirst(a.name, a.oid + x, b.name, b.oid + y, NUL);
    assert (a.oid + x)[..OID_LENGTH] == a.oid && (a.oid + x)[OID_LENGTH..] == x;
    assert (b.oid + y)[..OID_LENGTH] == b.oid && (b.oid + y)[OID_LENGTH..] == y;
  }

  lemma TreeObjectInjective(a: seq<byte>, b: seq<byte>)
    requires TreeObject(a) == TreeObject(b)
    ensures a == b
  {
    var tag := [116, 114, 101, 101, SPACE];
    var m, n := tag + Decimal(|a|), tag + Decimal(|b|);
    SplitAtFirst(m, a, n, b, NUL);
  }

  // ---------------------------------------------------------------- object ids

  lemma ValidNodeHasValidNames(node: Node)
    requires ValidNode(node)
    ensures ValidNames(node)
  {
  }

  /** The object id of a tree. */
  ghost function Oid(node: Node, h: Hash): seq<byte>
    requires ValidNode(node)
    decreases node, 2
  {
    h(Object(node, h))
  }

  /** What is hashed for a tree. */
  ghost function Object(node: Node, h: Hash): seq<byte>
    requires ValidNode(node)
    decreases node, 1
  {
    ValidNodeHasValidNames(node);
    TreeObject(EncodeRows(Rows(node, Listing(node), h)))
  }

  ghost function Rows(node: Node, listing: seq<Name>, h: Hash): (rows: seq<Row>)
    requires ValidNode(node) && forall i :: 0 <= i < |listing| ==> listing[i] in node.entries
    ensures |rows| == |listing| && forall i :: 0 <= i < |rows| ==> rows[i].name == listing[i]
    decreases node, 0, |listing|
  {
    if listing == [] then []
    else
      var n := |listing| - 1;
      Rows(node, listing[..n], h) + [RowOf(node, listing[n], h)]
  }

  ghost function RowOf(node: Node, name: Name, h: Hash): (row: Row)
    requires ValidNode(node) && name in node.entries
    ensures row.name == name
    decreases node, 0, 0
  {
    match node.entries[name]
    case BlobEntry(blob) => Row(blob.mode, name, blob.oid)
    case TreeEntry(child) => Row(MODE_TREE, name, Oid(child, h))
  }

  /** The object of a tree with one file, byte by byte: the word tree, a space, the length in decimal and a zero byte;
      and then 100644, a space, the name, a zero byte and the object id of the file. */
  lemma TreeOfOneFile(node: Node, name: Name, oid: seq<byte>, h: Hash)
    requires ValidName(name) && |oid| == 20 && node.entries == map[name := BlobEntry(Blob(MODE_FILE, oid))]
    ensures ValidNode(node)
    ensures Object(node, h) == [116, 114, 101, 101, 32] + Decimal(28 + |name|) + [0]
                               + [49, 48, 48, 54, 52, 52] + [32] + name + [0] + oid
  {
    hide TreeObject, EncodeRows, Object, ValidName;
    OneRow(node, name, h);
    ObjectOfRow(Row(MODE_FILE, name, oid));
  }

  /** And of a tree with one subtree: 40000, a space, its name, a zero byte and its object id. */
  lemma TreeOfOneTree(node: Node, name: Name, child: Node, oid: seq<byte>, h: Hash)
    requires ValidName(name) && ValidNode(child) && node.entries == map[name := TreeEntry(child)]
               && oid == Oid(child, h)
    ensures ValidNode(node)
    ensures Object(node, h) == [116, 114, 101, 101, 32] + Decimal(7 + |name| + |oid|) + [0]
                               + [52, 48, 48, 48, 48] + [32] + name + [0] + oid
  {
    hide TreeObject, EncodeRows, Object, Oid, ValidName, RowOf;
    assert ValidNode(node) by { OneSubtreeIsValid(node, name, child); }
    OneRow(node, name, h);
    RowOfTree(node, name, child, oid, h);
    ObjectOfRow(Row(MODE_TREE, name, oid));
  }

  lemma RowOfTree(node: Node, name: Name, child: Node, oid: seq<byte>, h: Hash)
    requires ValidNode(node) && ValidNode(child) && node.entries == map[name := TreeEntry(child)]
               && oid == Oid(child, h)
    ensures RowOf(node, name, h) == Row(MODE_TREE, name, oid)
  {
    hide Oid, ValidNode;
  }

  lemma OneSubtreeIsValid(node: Node, name: Name, child: Node)
    requires ValidName(name) && ValidNode(child) && node.entries == map[name := TreeEntry(child)]
    ensures ValidNode(node)
  {
    hide ValidName;
  }

  lemma ObjectOfRow(row: Row)
    ensures TreeObject(EncodeRows([row]))
              == [116, 114, 101, 101, 32] + Decimal(|row.mode| + 2 + |row.name| + |row.oid|) + [0]
                                             + row.mode + [32] + row.name + [0] + row.oid
  {
    assert EncodeRows([row]) == EncodeRow(row) + EncodeRows([]);
    assert EncodeRows([row]) == row.mode + [32] + row.name + [0] + row.oid;
  }

  lemma OnlyName(node: Node, listing: seq<Name>, name: Name)
    requires ValidNames(node) && node.entries.Keys == {name} && IsListing(node, listing)
    ensures listing == [name]
  {
    hide Before, ValidName;
    assert name in node.entries;
    assert forall n :: n in node.entries <==> n == name;
    if |listing| > 1 {
      assert listing[0] == name == listing[1];
      assert Before(node, listing[0], listing[1]);
      BeforeIsTotal(node, name, name, name);
    }
  }

  lemma OneRow(node: Node, name: Name, h: Hash)
    requires ValidNode(node) && node.entries.Keys == {name}
    ensures Object(node, h) == TreeObject(EncodeRows([RowOf(node, name, h)]))
  {
    hide TreeObject, EncodeRows, RowOf, Before;
    ValidNodeHasValidNames(node);
    var listing := Listing(node);
    OnlyName(node, listing, name);
    assert listing[..0] == [];
    assert Rows(node, [], h) == [];
    assert Rows(node, listing, h) == [RowOf(node, name, h)];
  }

  lemma {:induction false} RowsAt(node: Node, listing: seq<Name>, h: Hash, i: nat)
    requires ValidNode(node) && (forall k :: 0 <= k < |listing| ==> listing[k] in node.entries) && i < |listing|
    ensures Rows(node, listing, h)[i] == RowOf(node, listing[i], h)
  {
    var n := |listing| - 1;
    if i < n {
      RowsAt(node, listing[..n], h, i);
    }
  }

  /** Everything hashed for a tree and the trees below it. */
  ghost function Objects(node: Node, h: Hash): set<seq<byte>>
    requires ValidNode(node)
    decreases node, 3
  {
    {Object(node, h)}
    + set name, o | name in node.entries && node.entries[name].TreeEntry?
    && o in Objects(node.entries[name].tree, h) :: o
  }

  ghost predicate CollisionFree(h: Hash, objects: set<seq<byte>>) {
    forall a, b | a in objects && b in objects && h(a) == h(b) :: a == b
  }

  /** Unless the hash collides on what is hashed for them, two trees with one object id are equal. */
  lemma {:induction false} OidDeterminesTree(a: Node, b: Node, h: Hash)
    requires ValidNode(a) && ValidNode(b)
    requires forall x :: |h(x)| == OID_LENGTH
    requires CollisionFree(h, Objects(a, h) + Objects(b, h))
    requires Oid(a, h) == Oid(b, h)
    ensures a == b
    decreases a
  {
    hide TreeObject, EncodeRows, ValidNames, IsListing;
    SameRows(a, b, h);
    forall name | name in a.entries
      ensures a.entries[name] == b.entries[name]
    {
      SameRowOf(a, b, h, name);
      if a.entries[name].TreeEntry? {
        var x, y := a.entries[name].tree, b.entries[name].tree;
        assert Objects(x, h) <= Objects(a, h) && Objects(y, h) <= Objects(b, h);
        OidDeterminesTree(x, y, h);
      }
    }
    assert a.entries == b.entries;
  }

  lemma RowWellFormed(node: Node, name: Name, h: Hash)
    requires ValidNode(node) && name in node.entries
    requires forall x :: |h(x)| == OID_LENGTH
    ensures WellFormedRow(RowOf(node, name, h))
  {
  }

  lemma {:induction false} RowsWellFormed(node: Node, listing: seq<Name>, h: Hash)
    requires ValidNode(node) && (forall k :: 0 <= k < |listing| ==> listing[k] in node.entries)
    requires forall x :: |h(x)| == OID_LENGTH
    ensures forall row | row in Rows(node, listing, h) :: WellFormedRow(row)
  {
    hide WellFormedRow, RowOf;
    if listing != [] {
      var n := |listing| - 1;
      RowsWellFormed(node, listing[..n], h);
      RowWellFormed(node, listing[n], h);
    }
  }

  lemma ObjectRows(a: Node, b: Node, h: Hash)
    requires ValidNode(a) && ValidNode(b)
    requires forall x :: |h(x)| == OID_LENGTH
    requires Object(a, h) == Object(b, h)
    ensures ValidNames(a) && ValidNames(b)
    ensures Rows(a, Listing(a), h) == Rows(b, Listing(b), h)
  {
    hide TreeObject, Rows, WellFormedRow, Listing;
    ValidNodeHasValidNames(a);
    ValidNodeHasValidNames(b);
    var x, y := Rows(a, Listing(a), h), Rows(b, Listing(b), h);
    TreeObjectInjective(EncodeRows(x), EncodeRows(y));
    RowsWellFormed(a, Listing(a), h);
    RowsWellFormed(b, Listing(b), h);
    RowsDecodable(x, y);
  }

  lemma SameRows(a: Node, b: Node, h: Hash)
    requires ValidNode(a) && ValidNode(b)
    requires forall x :: |h(x)| == OID_LENGTH
    requires Object(a, h) == Object(b, h)
    ensures a.entries.Keys == b.entries.Keys
    ensures forall name | name in a.entries :: RowOf(a, name, h) == RowOf(b, name, h)
  {
    hide Object, Rows, RowOf, Before, ValidNode;
    ObjectRows(a, b, h);
    var la, lb := Listing(a), Listing(b);
    assert la == lb by {
      assert forall i :: 0 <= i < |la| ==> la[i] == Rows(a, la, h)[i].name == lb[i];
    }
    forall name | name in a.entries
      ensures RowOf(a, name, h) == RowOf(b, name, h)
    {
      var i :| 0 <= i < |la| && la[i] == name;
      RowsAt(a, la, h, i);
      RowsAt(b, lb, h, i);
    }
  }

  lemma SameRowOf(a: Node, b: Node, h: Hash, name: Name)
    requires ValidNode(a) && ValidNode(b) && name in a.entries && name in b.entries
    requires RowOf(a, name, h) == RowOf(b, name, h)
    ensures a.entries[name].TreeEntry? <==> b.entries[name].TreeEntry?
    ensures a.entries[name].BlobEntry? ==> a.entries[name] == b.entries[name]
    ensures a.entries[name].TreeEntry? ==> Oid(a.entries[name].tree, h) == Oid(b.entries[name].tree, h)
  {
  }

  // ---------------------------------------------------------------- directories

  /** The paths of every directory below a node. */
  ghost function Directories(node: Node): set<Path>
    decreases node, 1
  {
    DirectoriesUnder(node, node.entries.Keys)
  }

  /** Those whose first component is one of `names`. */
  ghost function DirectoriesUnder(node: Node, names: set<Name>): set<Path>
    requires names <= node.entries.Keys
    decreases node, 0
  {
    set name, d | name in names && node.entries[name].TreeEntry?
                  && d in {[]} + Directories(node.entries[name].tree) :: [name] + d
  }

  lemma DirectoryStep(node: Node, q: Path)
    ensures q in Directories(node) <==>
              && q != [] && q[0] in node.entries && node.entries[q[0]].TreeEntry?
              && (q[1..] == [] || q[1..] in Directories(node.entries[q[0]].tree))
  {
    var under := DirectoriesUnder(node, node.entries.Keys);
    assert Directories(node) == under;
    forall name, d | name in node.entries && node.entries[name].TreeEntry?
             && d in {[]} + Directories(node.entries[name].tree)
      ensures ([name] + d)[0] == name && ([name] + d)[1..] == d
    {
    }
    assert q != [] ==> q == [q[0]] + q[1..];
  }

  lemma {:induction false} DirectoriesResolve(node: Node, q: Path)
    ensures q in Directories(node) <==> q != [] && Resolve(node, q).Directory?
    decreases |q|
  {
    hide Directories;
    DirectoryStep(node, q);
    if q != [] && q[0] in node.entries && node.entries[q[0]].TreeEntry? {
      DirectoriesResolve(node.entries[q[0]].tree, q[1..]);
    }
  }

  /** The directories of a tree are the proper prefixes of its files' paths. */
  lemma DirectoriesArePrefixes(node: Node, items: seq<Item>, q: Path)
    requires NoEmptyDirectory(node) && Holds(node, items)
    ensures q in Directories(node) <==> q != [] && exists i :: 0 <= i < |items| && ProperPrefix(q, items[i].path)
  {
    DirectoriesResolve(node, q);
    if q != [] && Resolve(node, q).Directory? {
      var below := FileBelow(node, q);
      assert Item(below, Resolve(node, below).blob) in items;
      var i :| 0 <= i < |items| && items[i] == Item(below, Resolve(node, below).blob);
      assert ProperPrefix(q, items[i].path);
    }
    forall i | 0 <= i < |items| && q != [] && ProperPrefix(q, items[i].path)
      ensures Resolve(node, q).Directory?
    {
      assert Item(items[i].path, items[i].blob) in items;
      AboveFile(node, q, items[i].path);
    }
  }

  lemma {:induction false} FileBelow(node: Node, q: Path) returns (below: Path)
    requires NoEmptyDirectory(node) && q != [] && Resolve(node, q).Directory?
    ensures ProperPrefix(q, below) && Resolve(node, below).File?
    decreases |q|
  {
    var child := node.entries[q[0]].tree;
    var r: Path;
    if |q| == 1 {
      r := SomeFile(child);
    } else {
      r := FileBelow(child, q[1..]);
    }
    below := [q[0]] + r;
    assert below[1..] == r && q == [q[0]] + q[1..];
  }

  lemma {:induction false} AboveFile(node: Node, q: Path, path: Path)
    requires ProperPrefix(q, path) && Resolve(node, path).File?
    ensures Resolve(node, q).Directory?
    decreases |q|
  {
    if q != [] {
      assert path[0] == q[0];
      assert ProperPrefix(q[1..], path[1..]);
      AboveFile(node.entries[q[0]].tree, q[1..], path[1..]);
    }
  }

  /** The paths of a directory, seen from the directory above it. */
  function Prefixed(name: Name, paths: set<Path>): (r: set<Path>)
    ensures forall p :: p in r <==> p != [] && p[0] == name && p[1..] in paths
  {
    forall p: Path | p != [] && p[0] == name && p[1..] in paths
      ensures p in set d | d in paths :: [name] + d
    {
      assert p == [name] + p[1..];
    }
    assert forall d :: ([name] + d)[1..] == d;
    set d | d in paths :: [name] + d
  }

  lemma {:induction false} PrefixedCount(name: Name, paths: set<Path>)
    ensures |Prefixed(name, paths)| == |paths|
  {
    if paths == {} {
      assert Prefixed(name, paths) == {};
    } else {
      var p :| p in paths;
      hide Prefixed;
      PrefixedCount(name, paths - {p});
      assert ([name] + p)[1..] == p;
      forall q | q in Prefixed(name, paths)
        ensures q in Prefixed(name, paths - {p}) + {[name] + p}
      {
        assert q == [name] + q[1..];
      }
      assert Prefixed(name, paths) == Prefixed(name, paths - {p}) + {[name] + p};
    }
  }

  lemma UnderMember(node: Node, names: set<Name>, p: Path)
    requires names <= node.entries.Keys
    ensures p in DirectoriesUnder(node, names) <==>
              && p != [] && p[0] in names && node.entries[p[0]].TreeEntry?
              && p[1..] in {[]} + Directories(node.entries[p[0]].tree)
  {
    hide Directories;
    assert forall name: Name, d: Path :: ([name] + d)[0] == name && ([name] + d)[1..] == d;
    assert p != [] ==> p == [p[0]] + p[1..];
  }

  ghost function Nested(node: Node, name: Name): set<Path>
    requires name in node.entries
  {
    if node.entries[name].TreeEntry? then {[]} + Directories(node.entries[name].tree) else {}
  }

  lemma UnderNext(node: Node, names: set<Name>, name: Name, p: Path)
    requires names <= node.entries.Keys && name in node.entries && name !in names
    ensures p in DirectoriesUnder(node, names + {name}) <==>
              p in DirectoriesUnder(node, names) || p in Prefixed(name, Nested(node, name))
    ensures !(p in DirectoriesUnder(node, names) && p in Prefixed(name, Nested(node, name)))
  {
    hide Directories, DirectoriesUnder, Prefixed;
    UnderMember(node, names, p);
    UnderMember(node, names + {name}, p);
  }

  lemma DisjointCount<T(!new)>(all: set<T>, a: set<T>, b: set<T>)
    requires forall x :: (x in all <==> x in a || x in b) && !(x in a && x in b)
    ensures |all| == |a| + |b|
  {
    assert all == a + b && a !! b;
  }

  lemma NextDirectories(node: Node, names: set<Name>, name: Name)
    requires names <= node.entries.Keys && name in node.entries && name !in names
    ensures |DirectoriesUnder(node, names + {name})| == |DirectoriesUnder(node, names)|
              + if node.entries[name].TreeEntry? then |Directories(node.entries[name].tree)| + 1 else 0
  {
    hide Directories, DirectoriesUnder, Prefixed;
    forall p
      ensures p in DirectoriesUnder(node, names + {name}) <==>
                p in DirectoriesUnder(node, names) || p in Prefixed(name, Nested(node, name))
      ensures !(p in DirectoriesUnder(node, names) && p in Prefixed(name, Nested(node, name)))
    {
      UnderNext(node, names, name, p);
    }
    DisjointCount(DirectoriesUnder(node, names + {name}), DirectoriesUnder(node, names),
                  Prefixed(name, Nested(node, name)));
    PrefixedCount(name, Nested(node, name));
    if node.entries[name].TreeEntry? {
      RootIsNoDirectory(node.entries[name].tree);
    }
  }

  lemma RootIsNoDirectory(node: Node)
    ensures [] !in Directories(node)
  {
  }

  lemma {:induction false} EncodeAppend(rows: seq<Row>, row: Row)
    ensures EncodeRows(rows + [row]) == EncodeRows(rows) + EncodeRow(row)
  {
    if rows == [] {
      assert rows + [row] == [row];
      assert EncodeRows([]) == [];
    } else {
      assert (rows + [row])[1..] == rows[1..] + [row];
      EncodeAppend(rows[1..], row);
    }
  }

  /** The entry of one name and the number of directories it adds, itself included. */
  method EntryRow(node: Node, name: Name, h: Hash) returns (row: Row, directories: nat)
    requires ValidNode(node) && name in node.entries
    ensures row == RowOf(node, name, h)
    ensures directories == if node.entries[name].TreeEntry? then |Directories(node.entries[name].tree)| + 1 else 0
    decreases node, 0
  {
    match node.entries[name]
    case BlobEntry(blob) =>
      row, directories := Row(blob.mode, name, blob.oid), 0;
    case TreeEntry(child) =>
      var oid, nestedCount := GitTreeOid(child, h);
      row, directories := Row(MODE_TREE, name, oid), nestedCount + 1;
  }

  function NameSet(listing: seq<Name>): set<Name> {
    set n | n in listing
  }

  /** What the loop over the entries has produced after the first `i` of them. */
  ghost predicate Produced(node: Node, listing: seq<Name>, h: Hash, i: nat, content: seq<byte>, directoryCount: nat)
    requires ValidNode(node) && (forall k :: 0 <= k < |listing| ==> listing[k] in node.entries) && i <= |listing|
  {
    && content == EncodeRows(Rows(node, listing[..i], h))
    && directoryCount == |DirectoriesUnder(node, NameSet(listing[..i]))|
  }

  lemma ProducedMore(node: Node, listing: seq<Name>, h: Hash, i: nat, content: seq<byte>, directoryCount: nat)
    requires ValidNode(node) && ValidNames(node) && Ordered(node, listing) && i < |listing|
    requires Produced(node, listing, h, i, content, directoryCount)
    ensures Produced(node, listing, h, i + 1, content + EncodeRow(RowOf(node, listing[i], h)),
                     directoryCount + if node.entries[listing[i]].TreeEntry?
                                      then |Directories(node.entries[listing[i]].tree)| + 1 else 0)
  {
    hide Before, EncodeRows, EncodeRow, Rows, DirectoriesUnder, ValidNames, RowOf;
    var names := NameSet(listing[..i]);
    NotBefore(node, listing, i);
    NextDirectories(node, names, listing[i]);
    NextRow(node, listing, h, i);
    assert listing[..i + 1] == listing[..i] + [listing[i]];
    assert NameSet(listing[..i + 1]) == names + {listing[i]};
  }

  /** The object id of a tree and the number of directories below it. */
  method GitTreeOid(node: Node, h: Hash) returns (oid: seq<byte>, directoryCount: nat)
    requires ValidNode(node)
    ensures oid == Oid(node, h)
    ensures directoryCount == |Directories(node)|
    decreases node, 1
  {
    hide Before, Produced, EncodeRow, RowOf, ValidNames, TreeObject;
    ValidNodeHasValidNames(node);
    var listing := SortEntries(node);
    OrderedUnique(node, listing, Listing(node));
    var content := [];
    directoryCount := 0;
    Start(node, listing, h);
    for i := 0 to |listing|
      invariant Produced(node, listing, h, i, content, directoryCount)
    {
      var row, directories := EntryRow(node, listing[i], h);
      ProducedMore(node, listing, h, i, content, directoryCount);
      content := content + EncodeRow(row);
      directoryCount := directoryCount + directories;
    }
    Finish(node, listing, h, content, directoryCount);
    oid := h(TreeObject(content));
  }

  lemma Start(node: Node, listing: seq<Name>, h: Hash)
    requires ValidNode(node) && (forall k :: 0 <= k < |listing| ==> listing[k] in node.entries)
    ensures Produced(node, listing, h, 0, [], 0)
  {
    assert listing[..0] == [];
    assert DirectoriesUnder(node, NameSet(listing[..0])) == {};
  }

  lemma Finish(node: Node, listing: seq<Name>, h: Hash, content: seq<byte>, directoryCount: nat)
    requires ValidNode(node) && ValidNames(node) && listing == Listing(node)
    requires Produced(node, listing, h, |listing|, content, directoryCount)
    ensures Object(node, h) == TreeObject(content) && directoryCount == |Directories(node)|
  {
    hide TreeObject, Before, EncodeRows, Rows;
    assert listing[..|listing|] == listing;
    assert NameSet(listing[..|listing|]) == node.entries.Keys;
  }

  lemma NotBefore(node: Node, listing: seq<Name>, i: nat)
    requires ValidNames(node) && Ordered(node, listing) && i < |listing|
    ensures listing[i] !in listing[..i]
  {
    hide Before;
    BeforeIsTotal(node, listing[i], listing[i], listing[i]);
  }

  lemma NextRow(node: Node, listing: seq<Name>, h: Hash, i: nat)
    requires ValidNode(node) && (forall k :: 0 <= k < |listing| ==> listing[k] in node.entries) && i < |listing|
    ensures EncodeRows(Rows(node, listing[..i + 1], h))
         == EncodeRows(Rows(node, listing[..i], h)) + EncodeRow(RowOf(node, listing[i], h))
  {
    hide EncodeRows, EncodeRow, RowOf;
    assert listing[..i + 1][..i] == listing[..i];
    EncodeAppend(Rows(node, listing[..i], h), RowOf(node, listing[i], h));
  }
}
