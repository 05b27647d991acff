/** Profiles of JSON-lines data, whose columns appear as their keys do: exactly what the counts of a column say
    about the rows of the sample, and when they account for every row. */
module JsonLines {
  import opened ColumnKinds
  import opened DatasetProfile
  import opened Text

  datatype Entry = Entry(key: string, value: Value)

  /** A line of the file; an object's keys come in the order in which they are visited. */
  datatype Line = Unreadable | Blank | Malformed | OtherValue | Fields(entries: seq<Entry>)

  datatype State = State(columns: seq<Column>, rows: nat)

  // ---------------------------------------------------------------- the profile as a fold

  /** The position of a column, or the number of columns. */
  function Find(columns: seq<Column>, name: string): (i: nat)
    ensures i <= |columns|
    ensures i < |columns| ==> columns[i].name == name
    ensures forall j :: 0 <= j < i ==> columns[j].name != name
  {
    if columns == [] || columns[0].name == name then 0 else 1 + Find(columns[1..], name)
  }

  predicate Known(columns: seq<Column>, name: string) {
    Find(columns, name) < |columns|
  }

  predicate HasKey(entries: seq<Entry>, name: string) {
    exists e <- entries :: e.key == name
  }

  function MarkMissing(columns: seq<Column>, entries: seq<Entry>): seq<Column> {
    seq(|columns|, i requires 0 <= i < |columns| => if HasKey(entries, columns[i].name) then columns[i]
        else Missed(columns[i]))
  }

  function AllMissed(columns: seq<Column>): seq<Column> {
    seq(|columns|, i requires 0 <= i < |columns| => Missed(columns[i]))
  }

  function AddEntry(s: State, e: Entry, classify: Classify): State {
    var name := BoundedName(e.key, |s.columns|);
    var i := Find(s.columns, name);
    if i < |s.columns| then s.(columns := s.columns[i := SawJson(s.columns[i], e.value, classify)])
    else if |s.columns| >= MAX_PROFILE_COLUMNS then s
    else s.(columns := s.columns + [SawJson(Column(name, [], s.rows), e.value, classify)])
  }

  function AddEntries(s: State, entries: seq<Entry>, classify: Classify): State {
    if entries == [] then s
    else AddEntry(AddEntries(s, entries[..|entries| - 1], classify), entries[|entries| - 1], classify)
  }

  function AddLine(s: State, line: Line, classify: Classify): State {
    match line
    case OtherValue => State(AllMissed(s.columns), s.rows + 1)
    case Fields(entries) =>
      var added := AddEntries(State(MarkMissing(s.columns, entries), s.rows), entries, classify);
      added.(rows := s.rows + 1)
    case _ => s
  }

  function Run(lines: seq<Line>, classify: Classify): State {
    if lines == [] then State([], 0) else AddLine(Run(lines[..|lines| - 1], classify), lines[|lines| - 1], classify)
  }

  // ---------------------------------------------------------------- which names there are

  function Names(columns: seq<Column>): seq<string> {
    seq(|columns|, i requires 0 <= i < |columns| => columns[i].name)
  }

  lemma {:induction false} FindByNames(a: seq<Column>, b: seq<Column>, name: string)
    requires Names(a) == Names(b)
    ensures Find(a, name) == Find(b, name) && |a| == |b|
  {
    assert |Names(a)| == |a| && |Names(b)| == |b|;
    if a != [] {
      assert Names(a)[0] == a[0].name && Names(b)[0] == b[0].name;
      assert Names(a[1..]) == Names(a)[1..] && Names(b[1..]) == Names(b)[1..];
      FindByNames(a[1..], b[1..], name);
    }
  }

  lemma {:induction false} FindInMore(columns: seq<Column>, c: Column, name: string)
    ensures Find(columns + [c], name) ==
            if Known(columns, name) then Find(columns, name) else if c.name == name then |columns| else |columns| + 1
  {
    if columns == [] {
      assert ([] + [c])[1..] == [];
    } else {
      assert (columns + [c])[1..] == columns[1..] + [c];
      FindInMore(columns[1..], c, name);
    }
  }

  // ---------------------------------------------------------------- counting

  /** What a column's counts add up to. */
  function Total(columns: seq<Column>, name: string): nat
    requires Known(columns, name)
  {
    var c := columns[Find(columns, name)];
    |c.kinds| + c.missing
  }

  /** The entry is counted in the column of this name. */
  predicate Assigns(s: State, e: Entry, name: string) {
    BoundedName(e.key, |s.columns|) == name && (Known(s.columns, name) || |s.columns| < MAX_PROFILE_COLUMNS)
  }

  /** How many entries of a line are counted in the column of this name. */
  function HitsIn(s: State, entries: seq<Entry>, name: string, classify: Classify): nat {
    if entries == [] then 0
    else
      var front := entries[..|entries| - 1];
      HitsIn(s, front, name, classify)
        + if Assigns(AddEntries(s, front, classify), entries[|entries| - 1], name) then 1 else 0
  }

  /** How many entries of the whole sample are. */
  function Hits(lines: seq<Line>, name: string, classify: Classify): nat {
    if lines == [] then 0
    else
      var front, last := lines[..|lines| - 1], lines[|lines| - 1];
      var s := Run(front, classify);
      Hits(front, name, classify)
      + if last.Fields? then HitsIn(State(MarkMissing(s.columns, last.entries), s.rows), last.entries, name, classify)
        else 0
  }

  /** How many lines have the column's name itself as a key, once the column exists. */
  function Presences(lines: seq<Line>, name: string, classify: Classify): nat {
    if lines == [] then 0
    else
      var front, last := lines[..|lines| - 1], lines[|lines| - 1];
      Presences(front, name, classify)
      + if last.Fields? && HasKey(last.entries, name) && Known(Run(front, classify).columns, name) then 1 else 0
  }

  lemma EntryCounts(s: State, e: Entry, name: string, classify: Classify)
    ensures var t := AddEntry(s, e, classify);
            && t.rows == s.rows
            && (Known(s.columns, name) ==>
                  Known(t.columns, name)
                  && Total(t.columns, name) == Total(s.columns, name) + if Assigns(s, e, name) then 1 else 0)
            && (!Known(s.columns, name) ==>
                  (Known(t.columns, name) <==> Assigns(s, e, name))
                  && (Known(t.columns, name) ==> Total(t.columns, name) == s.rows + 1))
  {
    hide BoundedName, JsonKind;
    var bounded := BoundedName(e.key, |s.columns|);
    var i := Find(s.columns, bounded);
    if i < |s.columns| {
      var t := AddEntry(s, e, classify);
      assert Names(t.columns) == Names(s.columns);
      FindByNames(t.columns, s.columns, name);
    } else if |s.columns| < MAX_PROFILE_COLUMNS {
      FindInMore(s.columns, SawJson(Column(bounded, [], s.rows), e.value, classify), name);
    }
  }

  lemma {:induction false} EntriesCount(s: State, entries: seq<Entry>, name: string, classify: Classify)
    ensures var t, hits := AddEntries(s, entries, classify), HitsIn(s, entries, name, classify);
            && t.rows == s.rows
            && (Known(s.columns, name) ==>
                Known(t.columns, name) && Total(t.columns, name) == Total(s.columns, name) + hits)
            && (!Known(s.columns, name) ==>
                  (Known(t.columns, name) <==> hits > 0)
                  && (Known(t.columns, name) ==> Total(t.columns, name) == s.rows + hits))
  {
    hide Total, Known, Assigns, AddEntry;
    if entries != [] {
      var front := entries[..|entries| - 1];
      EntriesCount(s, front, name, classify);
      EntryCounts(AddEntries(s, front, classify), entries[|entries| - 1], name, classify);
    }
  }

  lemma MarkCounts(columns: seq<Column>, entries: seq<Entry>, name: string)
    ensures Known(MarkMissing(columns, entries), name) <==> Known(columns, name)
    ensures Known(AllMissed(columns), name) <==> Known(columns, name)
    ensures Known(columns, name) ==>
              Total(MarkMissing(columns, entries), name) == Total(columns, name)
                + if HasKey(entries, name) then 0 else 1
    ensures Known(columns, name) ==> Total(AllMissed(columns), name) == Total(columns, name) + 1
  {
    hide HasKey;
    assert Names(MarkMissing(columns, entries)) == Names(columns) == Names(AllMissed(columns));
    FindByNames(MarkMissing(columns, entries), columns, name);
    FindByNames(AllMissed(columns), columns, name);
  }

  /** The exact account of every column: what it counts is the rows, and a surplus or a deficit that the keys of
      the input decide. */
  lemma {:induction false} ColumnAccount(lines: seq<Line>, name: string, classify: Classify)
    ensures var s := Run(lines, classify);
            var hits, present := Hits(lines, name, classify), Presences(lines, name, classify);
            if Known(s.columns, name) then Total(s.columns, name) + 1 + present == s.rows + hits
            else hits == 0 == present
  {
    hide Total, Known, HitsIn, AddEntries, MarkMissing, AllMissed, HasKey;
    if lines == [] {
      NothingKnown(name);
    } else {
      var front, last := lines[..|lines| - 1], lines[|lines| - 1];
      var s := Run(front, classify);
      ColumnAccount(front, name, classify);
      if last.Fields? {
        MarkCounts(s.columns, last.entries, name);
        EntriesCount(State(MarkMissing(s.columns, last.entries), s.rows), last.entries, name, classify);
      } else if last.OtherValue? {
        MarkCounts(s.columns, [], name);
      }
    }
  }

  lemma NothingKnown(name: string)
    ensures !Known([], name)
  {
  }

  /** A column accounts for at least every row, or for exactly every row, exactly if its hits outnumber, or match,
      the lines its name is a key of. */
  lemma AccountsForRows(lines: seq<Line>, name: string, classify: Classify)
    requires Known(Run(lines, classify).columns, name)
    ensures var s := Run(lines, classify);
            var hits, present := Hits(lines, name, classify), Presences(lines, name, classify);
            && (Total(s.columns, name) >= s.rows <==> hits > present)
            && (Total(s.columns, name) == s.rows <==> hits == present + 1)
  {
    hide Run, Hits, Presences, Total, Known;
    ColumnAccount(lines, name, classify);
  }

  // ---------------------------------------------------------------- names that are their own

  /** A name that bounding leaves as it is. */
  predicate IsOwnName(name: string) {
    name != [] && |name| <= MAX_COLUMN_NAME_CHARS && WithoutMark(Trim(name)) == name
  }

  lemma OwnNameStays(name: string, n: nat)
    requires IsOwnName(name)
    ensures BoundedName(name, n) == name
  {
    hide Trim, WithoutMark, Decimal;
  }

  lemma {:induction false} UnmarkedIsShorter(s: string)
    ensures |WithoutMark(s)| <= |s|
  {
    if s != [] && s[0] == BYTE_ORDER_MARK {
      UnmarkedIsShorter(s[1..]);
    }
  }

  /** Those are all the names that bounding leaves as they are, wherever they stand. */
  lemma OwnNamesAre(name: string)
    ensures IsOwnName(name) <==> forall n: nat :: BoundedName(name, n) == name
  {
    hide Trim, WithoutMark, Decimal;
    var said := WithoutMark(Trim(name));
    UnmarkedIsShorter(Trim(name));
    TrimIsShorter(name);
    if forall n: nat :: BoundedName(name, n) == name {
      assert BoundedName(name, 0) == name && BoundedName(name, 1) == name;
      DecimalWrites(1);
      DecimalWrites(2);
    }
  }

  lemma TrimIsShorter(s: string)
    ensures |Trim(s)| <= |s|
  {
    var before, after := TrimTakesSpaces(s);
  }

  lemma {:induction false} OwnKeyHits(s: State, entries: seq<Entry>, name: string, classify: Classify)
    requires IsOwnName(name) && Known(s.columns, name) && HasKey(entries, name)
    ensures HitsIn(s, entries, name, classify) > 0
  {
    hide Known, IsOwnName, BoundedName;
    var front, last := entries[..|entries| - 1], entries[|entries| - 1];
    assert entries == front + [last];
    EntriesCount(s, front, name, classify);
    if last.key == name {
      OwnNameStays(name, |AddEntries(s, front, classify).columns|);
    } else {
      OwnKeyHits(s, front, name, classify);
    }
  }

  /** A column whose name is its own accounts for every row. */
  lemma OwnNameAccounts(lines: seq<Line>, name: string, classify: Classify)
    requires IsOwnName(name) && Known(Run(lines, classify).columns, name)
    ensures Total(Run(lines, classify).columns, name) >= Run(lines, classify).rows
  {
    hide Run, Total, Known;
    OwnNameHits(lines, name, classify);
    ColumnAccount(lines, name, classify);
  }

  lemma {:induction false} OwnNameHits(lines: seq<Line>, name: string, classify: Classify)
    requires IsOwnName(name)
    ensures Known(Run(lines, classify).columns, name) ==> Hits(lines, name, classify) > Presences(lines, name, classify)
  {
    hide Total, Known, HitsIn, AddEntries, MarkMissing, AllMissed, HasKey, IsOwnName;
    if lines == [] {
      NothingKnown(name);
    } else {
      var front, last := lines[..|lines| - 1], lines[|lines| - 1];
      var s := Run(front, classify);
      OwnNameHits(front, name, classify);
      ColumnAccount(front, name, classify);
      if last.Fields? {
        var marked := State(MarkMissing(s.columns, last.entries), s.rows);
        MarkCounts(s.columns, last.entries, name);
        EntriesCount(marked, last.entries, name, classify);
        if Known(marked.columns, name) && HasKey(last.entries, name) {
          OwnKeyHits(marked, last.entries, name, classify);
        }
      } else if last.OtherValue? {
        MarkCounts(s.columns, [], name);
      }
    }
  }

  /** A key, and then its bounded name as a key of the next line. */
  function TwoLines(key: string, first: Value, second: Value): seq<Line> {
    [Fields([Entry(key, first)]), Fields([Entry(BoundedName(key, 0), second)])]
  }

  /** On these two lines the first column accounts for both exactly if bounding its name again changes nothing. */
  lemma NamesMustBeTheirOwn(key: string, first: Value, second: Value, classify: Classify)
    ensures var s, name := Run(TwoLines(key, first, second), classify), BoundedName(key, 0);
            && Known(s.columns, name) && s.rows == 2
            && (Total(s.columns, name) >= s.rows <==> BoundedName(name, 1) == name)
  {
    hide BoundedName, JsonKind, Run, AddLine;
    var name := BoundedName(key, 0);
    var lines := TwoLines(key, first, second);
    var one := SawJson(Column(name, [], 0), first, classify);
    assert MarkMissing([], [Entry(key, first)]) == [];
    TwoLinesRun(lines[0], lines[1], classify);
    OneEntryLine(State([], 0), Entry(key, first), classify);
    assert AddLine(State([], 0), lines[0], classify) == State([one], 1);
    assert HasKey([Entry(name, second)], name) by { assert Entry(name, second) in [Entry(name, second)]; }
    assert MarkMissing([one], [Entry(name, second)]) == [one];
    OneEntryLine(State([one], 1), Entry(name, second), classify);
    EntryCounts(State([one], 1), Entry(name, second), name, classify);
  }

  lemma TwoLinesRun(a: Line, b: Line, classify: Classify)
    ensures Run([a, b], classify) == AddLine(AddLine(State([], 0), a, classify), b, classify)
  {
    hide AddLine;
    var one, two := [a], [a, b];
    assert one[..|one| - 1] == [] && two[..|two| - 1] == one;
    assert Run(one, classify) == AddLine(State([], 0), a, classify);
  }

  lemma OneEntryLine(s: State, e: Entry, classify: Classify)
    ensures AddLine(s, Fields([e]), classify)
              == AddEntry(State(MarkMissing(s.columns, [e]), s.rows), e, classify).(rows := s.rows + 1)
  {
    hide AddEntry, MarkMissing;
    var one := [e];
    assert one[..|one| - 1] == [];
    assert AddEntries(State(MarkMissing(s.columns, one), s.rows), one, classify)
        == AddEntry(State(MarkMissing(s.columns, one), s.rows), e, classify);
  }

  /** A byte-order mark before a space is such a key: the second of two rows is neither observed nor missing. */
  lemma MarkedKeyLosesARow(classify: Classify)
    ensures var s := Run(TwoLines([BYTE_ORDER_MARK, ' ', 'a'], Bool, Bool), classify);
            s.rows == 2 && Known(s.columns, " a") && Total(s.columns, " a") < 2
  {
    var key := [BYTE_ORDER_MARK, ' ', 'a'];
    assert key[1..] == " a" && " a"[1..] == "a";
    assert Trim(key) == key && WithoutMark(key) == " a" && WithoutMark(" a") == " a";
    assert Trim(" a") == "a" && WithoutMark("a") == "a";
    assert BoundedName(key, 0) == " a" && BoundedName(" a", 1) == "a";
    hide BoundedName, Trim, Run;
    NamesMustBeTheirOwn(key, Bool, Bool, classify);
  }

  // ---------------------------------------------------------------- keys that are their own names

  /** Different keys, each its own bounded name. */
  predicate OwnKeys(entries: seq<Entry>) {
    && (forall e <- entries :: IsOwnName(e.key))
    && forall i, j :: 0 <= i < j < |entries| ==> entries[i].key != entries[j].key
  }

  predicate OnlyOwnKeys(lines: seq<Line>) {
    forall line <- lines :: line.Fields? ==> OwnKeys(line.entries)
  }

  /** The value under a key; a missing key reads as null. */
  function Lookup(entries: seq<Entry>, name: string): Value {
    if entries == [] then Null
    else
      var last := entries[|entries| - 1];
      if last.key == name then last.value else Lookup(entries[..|entries| - 1], name)
  }

  /** The kinds of all values under one key, over the whole sample. */
  function KindsUnder(lines: seq<Line>, name: string, classify: Classify): seq<Kind> {
    if lines == [] then []
    else
      var front, last := lines[..|lines| - 1], lines[|lines| - 1];
      var value := if last.Fields? then Lookup(last.entries, name) else Null;
      KindsUnder(front, name, classify) + if value.Null? then [] else [JsonKind(value, classify)]
  }

  predicate Appears(lines: seq<Line>, name: string) {
    exists line <- lines :: line.Fields? && HasKey(line.entries, name)
  }

  function At(columns: seq<Column>, name: string): Column
    requires Known(columns, name)
  {
    columns[Find(columns, name)]
  }

  lemma OwnEntrySaw(s: State, e: Entry, name: string, classify: Classify)
    requires IsOwnName(e.key)
    ensures var t := AddEntry(s, e, classify);
            && |s.columns| <= |t.columns| && t.rows == s.rows
            && (Known(s.columns, name) ==> Known(t.columns, name))
            && (Known(s.columns, name) ==>
                  At(t.columns, name)
                    == if e.key == name then SawJson(At(s.columns, name), e.value, classify) else At(s.columns, name))
            && (!Known(s.columns, name) && Known(t.columns, name) ==>
                  e.key == name && |s.columns| < MAX_PROFILE_COLUMNS
                  && At(t.columns, name) == SawJson(Column(name, [], s.rows), e.value, classify))
            && (!Known(t.columns, name) && e.key == name ==> |t.columns| >= MAX_PROFILE_COLUMNS)
  {
    hide BoundedName, JsonKind, IsOwnName;
    OwnNameStays(e.key, |s.columns|);
    var i := Find(s.columns, e.key);
    if i < |s.columns| {
      var t := AddEntry(s, e, classify);
      assert Names(t.columns) == Names(s.columns);
      FindByNames(t.columns, s.columns, name);
    } else if |s.columns| < MAX_PROFILE_COLUMNS {
      FindInMore(s.columns, SawJson(Column(e.key, [], s.rows), e.value, classify), name);
    }
  }

  /** What a line's entries do to the column of one name. */
  ghost predicate LineSaw(s: State, t: State, entries: seq<Entry>, name: string, classify: Classify) {
    && |s.columns| <= |t.columns| && t.rows == s.rows
    && (Known(s.columns, name) ==> Known(t.columns, name))
    && (Known(s.columns, name) ==>
          At(t.columns, name)
          == if HasKey(entries, name) then SawJson(At(s.columns, name), Lookup(entries, name), classify)
            else At(s.columns, name))
    && (!Known(s.columns, name) && Known(t.columns, name) ==>
          HasKey(entries, name) && |s.columns| < MAX_PROFILE_COLUMNS
          && At(t.columns, name) == SawJson(Column(name, [], s.rows), Lookup(entries, name), classify))
    && (!Known(t.columns, name) && HasKey(entries, name) ==> |t.columns| >= MAX_PROFILE_COLUMNS)
  }

  lemma {:induction false} OwnEntriesSaw(s: State, entries: seq<Entry>, name: string, classify: Classify)
    requires OwnKeys(entries)
    ensures LineSaw(s, AddEntries(s, entries, classify), entries, name, classify)
  {
    hide Known, At, AddEntry, SawJson, IsOwnName;
    if entries != [] {
      var front, last := entries[..|entries| - 1], entries[|entries| - 1];
      assert entries == front + [last];
      OwnEntriesSaw(s, front, name, classify);
      OwnEntrySaw(AddEntries(s, front, classify), last, name, classify);
      LastKey(front, last, name);
    }
  }

  lemma LastKey(front: seq<Entry>, last: Entry, name: string)
    requires OwnKeys(front + [last])
    ensures HasKey(front + [last], name) <==> HasKey(front, name) || last.key == name
    ensures last.key == name ==> !HasKey(front, name)
    ensures Lookup(front + [last], name) == if last.key == name then last.value else Lookup(front, name)
  {
    hide IsOwnName;
    var all := front + [last];
    assert all[..|all| - 1] == front;
    assert last in all && forall e <- front :: e in all;
    if HasKey(front, name) {
      var e :| e in front && e.key == name;
      var i :| 0 <= i < |front| && front[i] == e;
      assert all[i].key != all[|front|].key;
    }
  }

  /** What the column of a name must have seen. */
  function Expected(lines: seq<Line>, name: string, rows: nat, classify: Classify): Column
    requires |KindsUnder(lines, name, classify)| <= rows
  {
    var kinds := KindsUnder(lines, name, classify);
    Column(name, kinds, rows - |kinds|)
  }

  ghost predicate Exact(lines: seq<Line>, s: State, name: string, classify: Classify) {
    && |KindsUnder(lines, name, classify)| <= s.rows
    && (Known(s.columns, name) ==> At(s.columns, name) == Expected(lines, name, s.rows, classify))
    && (!Known(s.columns, name) && |s.columns| < MAX_PROFILE_COLUMNS ==>
        !Appears(lines, name) && KindsUnder(lines, name, classify) == [])
  }

  lemma MarkedColumn(columns: seq<Column>, entries: seq<Entry>, name: string)
    ensures Known(MarkMissing(columns, entries), name) <==> Known(columns, name)
    ensures Known(AllMissed(columns), name) <==> Known(columns, name)
    ensures Known(columns, name) ==>
              At(MarkMissing(columns, entries), name)
                == if HasKey(entries, name) then At(columns, name) else Missed(At(columns, name))
    ensures Known(columns, name) ==> At(AllMissed(columns), name) == Missed(At(columns, name))
  {
    hide HasKey;
    assert Names(MarkMissing(columns, entries)) == Names(columns) == Names(AllMissed(columns));
    FindByNames(MarkMissing(columns, entries), columns, name);
    FindByNames(AllMissed(columns), columns, name);
  }

  lemma {:induction false} NoKeyNoValue(entries: seq<Entry>, name: string)
    requires !HasKey(entries, name)
    ensures Lookup(entries, name) == Null
  {
    if entries != [] {
      var front, last := entries[..|entries| - 1], entries[|entries| - 1];
      assert entries == front + [last];
      assert last in entries && forall e <- front :: e in entries;
      NoKeyNoValue(front, name);
    }
  }

  /** With keys that are their own names, the profile of a column is what the whole sample says of its key. */
  lemma {:induction false} OwnKeysAreExact(lines: seq<Line>, name: string, classify: Classify)
    requires OnlyOwnKeys(lines)
    ensures Exact(lines, Run(lines, classify), name, classify)
  {
    hide Known, At, AddEntries, MarkMissing, AllMissed, HasKey, OwnKeys, LineSaw, JsonKind;
    if lines == [] {
      NothingKnown(name);
    } else {
      var front, last := lines[..|lines| - 1], lines[|lines| - 1];
      assert lines == front + [last];
      assert last in lines && forall line <- front :: line in lines;
      OwnKeysAreExact(front, name, classify);
      AppearsInMore(front, last, name);
      var s := Run(front, classify);
      if last.Fields? {
        FieldsStayExact(front, s, last.entries, name, classify);
      } else {
        MarkedColumn(s.columns, [], name);
        OtherStaysExact(front, s, last, name, classify);
      }
    }
  }

  lemma AppearsInMore(front: seq<Line>, last: Line, name: string)
    ensures Appears(front + [last], name) <==> Appears(front, name) || (last.Fields? && HasKey(last.entries, name))
    ensures (front + [last])[..|front|] == front
  {
    hide HasKey;
    assert last in front + [last] && forall line <- front :: line in front + [last];
  }

  lemma OtherStaysExact(front: seq<Line>, s: State, last: Line, name: string, classify: Classify)
    requires !last.Fields? && Exact(front, s, name, classify)
    ensures Exact(front + [last], AddLine(s, last, classify), name, classify)
  {
    hide Known, At, AllMissed, HasKey, JsonKind, Appears;
    AppearsInMore(front, last, name);
    MarkedColumn(s.columns, [], name);
    SameCount(s.columns);
  }

  lemma SameCount(columns: seq<Column>)
    ensures |AllMissed(columns)| == |columns|
  {
  }

  lemma FieldsStayExact(front: seq<Line>, s: State, entries: seq<Entry>, name: string, classify: Classify)
    requires OwnKeys(entries) && Exact(front, s, name, classify)
    ensures Exact(front + [Fields(entries)], AddLine(s, Fields(entries), classify), name, classify)
  {
    hide Known, At, AddEntries, HasKey, OwnKeys, JsonKind, Appears, Lookup;
    AppearsInMore(front, Fields(entries), name);
    MarkedColumn(s.columns, entries, name);
    OwnEntriesSaw(State(MarkMissing(s.columns, entries), s.rows), entries, name, classify);
    if !HasKey(entries, name) {
      NoKeyNoValue(entries, name);
    }
  }

  // ---------------------------------------------------------------- the profile row by row

  /** The accumulators stand for the columns, and the index map finds each by its name. */
  ghost predicate Holds(columns: seq<ColumnAccumulator>, indexes: map<string, nat>, s: State)
    reads columns
  {
    SeenAs(columns, s.columns) && Indexed(indexes, s.columns) && |indexes| == |s.columns|
  }

  ghost predicate Indexed(indexes: map<string, nat>, columns: seq<Column>) {
    && (forall name :: name in indexes <==> Known(columns, name))
    && (forall name <- indexes :: indexes[name] == Find(columns, name))
    && (forall k :: 0 <= k < |columns| ==> Find(columns, columns[k].name) == k)
  }

  lemma IndexedSame(indexes: map<string, nat>, a: seq<Column>, b: seq<Column>)
    requires Indexed(indexes, a) && Names(a) == Names(b)
    ensures Indexed(indexes, b)
  {
    forall name
      ensures Find(a, name) == Find(b, name) && |a| == |b|
    {
      FindByNames(a, b, name);
    }
    forall k | 0 <= k < |b|
      ensures Find(b, b[k].name) == k
    {
      assert Names(a)[k] == a[k].name && Names(b)[k] == b[k].name;
    }
  }

  lemma IndexedMore(indexes: map<string, nat>, columns: seq<Column>, c: Column)
    requires Indexed(indexes, columns) && !Known(columns, c.name)
    ensures Indexed(indexes[c.name := |columns|], columns + [c])
  {
    forall name
      ensures Find(columns + [c], name) ==
              if Known(columns, name) then Find(columns, name) else if c.name == name then |columns| else |columns| + 1
    {
      FindInMore(columns, c, name);
    }
  }

  ghost predicate SeenAs(columns: seq<ColumnAccumulator>, seen: seq<Column>)
    reads columns
  {
    && Separate(columns) && |columns| == |seen|
    && forall k :: 0 <= k < |columns| ==> columns[k].Valid() && columns[k].Seen() == seen[k]
  }

  method MissOne(columns: seq<ColumnAccumulator>, ghost seen: seq<Column>, i: nat)
    requires SeenAs(columns, seen) && i < |columns|
    modifies columns
    ensures SeenAs(columns, seen[i := Missed(seen[i])])
  {
    columns[i].Miss();
  }

  method ObserveOne(columns: seq<ColumnAccumulator>, ghost seen: seq<Column>, i: nat, value: Value, classify: Classify)
    requires SeenAs(columns, seen) && i < |columns|
    modifies columns
    ensures SeenAs(columns, seen[i := SawJson(seen[i], value, classify)])
  {
    hide SawJson;
    columns[i].ObserveJson(value, classify);
  }

  method MissAll(columns: seq<ColumnAccumulator>, ghost seen: seq<Column>)
    requires SeenAs(columns, seen)
    modifies columns
    ensures SeenAs(columns, AllMissed(seen))
  {
    hide SeenAs, Missed;
    var i := 0;
    ghost var now := seen;
    SameLength(columns, seen);
    while i < |columns|
      invariant 0 <= i <= |columns| == |seen| == |now| && SeenAs(columns, now)
      invariant now == AllMissed(seen)[..i] + seen[i..]
    {
      MissOne(columns, now, i);
      now := now[i := Missed(now[i])];
      i := i + 1;
    }
    assert now == AllMissed(seen);
  }

  lemma SameLength(columns: seq<ColumnAccumulator>, seen: seq<Column>)
    requires SeenAs(columns, seen)
    ensures |columns| == |seen|
  {
  }

  lemma MissedNames(columns: seq<Column>, entries: seq<Entry>)
    ensures Names(AllMissed(columns)) == Names(columns) == Names(MarkMissing(columns, entries))
  {
  }

  /** The columns after those names that are not among `names` have been looked up in the line. */
  function Partly(columns: seq<Column>, entries: seq<Entry>, names: set<string>): seq<Column> {
    seq(|columns|, i requires 0 <= i < |columns| =>
      if columns[i].name in names || HasKey(entries, columns[i].name) then columns[i] else Missed(columns[i]))
  }

  lemma LookedUp(columns: seq<Column>, entries: seq<Entry>, names: set<string>, name: string)
    requires name in names && Known(columns, name)
    requires forall k :: 0 <= k < |columns| ==> Find(columns, columns[k].name) == k
    ensures var before, after := Partly(columns, entries, names), Partly(columns, entries, names - {name});
            var i := Find(columns, name);
            after == if HasKey(entries, name) then before else before[i := Missed(before[i])]
  {
    hide HasKey, Missed;
  }

  lemma AllLookedUp(columns: seq<Column>, entries: seq<Entry>, names: set<string>)
    requires forall name :: Known(columns, name) ==> name in names
    requires forall k :: 0 <= k < |columns| ==> Find(columns, columns[k].name) == k
    ensures Partly(columns, entries, names) == columns && Partly(columns, entries, {}) == MarkMissing(columns, entries)
  {
    hide HasKey, Missed;
    forall k | 0 <= k < |columns|
      ensures columns[k].name in names
    {
      assert Known(columns, columns[k].name);
    }
  }

  /** Every column whose name is no key of the line misses it. */
  method MissAbsent(columns: seq<ColumnAccumulator>, indexes: map<string, nat>, ghost seen: seq<Column>,
                    entries: seq<Entry>)
    requires SeenAs(columns, seen) && Indexed(indexes, seen)
    modifies columns
    ensures SeenAs(columns, MarkMissing(seen, entries))
  {
    hide SeenAs, HasKey, Missed, Partly;
    var names := indexes.Keys;
    SameLength(columns, seen);
    AllLookedUp(seen, entries, names);
    while names != {}
      invariant names <= indexes.Keys && SeenAs(columns, Partly(seen, entries, names))
      decreases |names|
    {
      var name :| name in names;
      LookedUp(seen, entries, names, name);
      if !HasKey(entries, name) {
        MissOne(columns, Partly(seen, entries, names), indexes[name]);
      }
      names := names - {name};
    }
  }

  /** More columns after the ones there were. */
  predicate Grown(before: seq<ColumnAccumulator>, after: seq<ColumnAccumulator>) {
    |before| <= |after| && forall k :: 0 <= k < |before| ==> after[k] == before[k]
  }

  method NewColumn(columns: seq<ColumnAccumulator>, ghost seen: seq<Column>, name: string, rows: nat, value: Value,
                   classify: Classify)
    returns (more: seq<ColumnAccumulator>)
    requires SeenAs(columns, seen)
    ensures SeenAs(more, seen + [SawJson(Column(name, [], rows), value, classify)])
    ensures Grown(columns, more) && |more| == |columns| + 1 && fresh(more[|columns|])
  {
    hide SawJson, SeenAs;
    var column := new ColumnAccumulator(name, rows);
    column.ObserveJson(value, classify);
    more := columns + [column];
    SeenMore(columns, seen, column);
  }

  lemma SeenMore(columns: seq<ColumnAccumulator>, seen: seq<Column>, column: ColumnAccumulator)
    requires SeenAs(columns, seen) && column !in columns && column.Valid()
    ensures |columns| == |seen| && SeenAs(columns + [column], seen + [column.Seen()])
  {
  }

  /** There is a column of the entry's name, or room for one. */
  predicate HasRoom(s: State, e: Entry) {
    Known(s.columns, BoundedName(e.key, |s.columns|)) || |s.columns| < MAX_PROFILE_COLUMNS
  }

  /** Every entry of a line finds its column. */
  predicate TakesAll(s: State, entries: seq<Entry>, classify: Classify) {
    forall k :: 0 <= k < |entries| ==> HasRoom(AddEntries(s, entries[..k], classify), entries[k])
  }

  /** What is to be said of a line, after the lines before it gave `s`. */
  function LineWarnings(s: State, line: Line, classify: Classify): set<Warning> {
    match line
    case Unreadable => {RecordError}
    case Blank => {BlankLine}
    case Malformed => {RecordError}
    case OtherValue => {NotAnObject}
    case Fields(entries) =>
      WarningIf(!TakesAll(State(MarkMissing(s.columns, entries), s.rows), entries, classify), ColumnLimitExceeded)
  }

  /** The line is an object, and none of its entries is dropped. */
  predicate TakenWhole(s: State, line: Line, classify: Classify) {
    line.Fields? && TakesAll(State(MarkMissing(s.columns, line.entries), s.rows), line.entries, classify)
  }

  lemma SilentExactlyIfTakenWhole(s: State, line: Line, classify: Classify)
    ensures LineWarnings(s, line, classify) == {} <==> TakenWhole(s, line, classify)
  {
    hide TakesAll, MarkMissing;
  }

  /** Counts one entry in the column of its name, making the column if there is none and room for it. */
  method ObserveEntry(columns: seq<ColumnAccumulator>, indexes: map<string, nat>, ghost s: State, rows: nat, e: Entry,
                      classify: Classify)
    returns (columns': seq<ColumnAccumulator>, indexes': map<string, nat>, overflow: bool)
    requires Holds(columns, indexes, s) && rows == s.rows
    modifies columns
    ensures Holds(columns', indexes', AddEntry(s, e, classify))
    ensures Grown(columns, columns') && forall k :: |columns| <= k < |columns'| ==> fresh(columns'[k])
    ensures overflow <==> !HasRoom(s, e)
  {
    hide BoundedName, SawJson, SeenAs;
    var name := BoundedName(e.key, |indexes|);
    columns', indexes', overflow := columns, indexes, false;
    SameLength(columns, s.columns);
    if name in indexes {
      EntrySeen(indexes, s, e, classify);
      ObserveOne(columns, s.columns, indexes[name], e.value, classify);
    } else if |columns| >= MAX_PROFILE_COLUMNS {
      overflow := true;
    } else {
      SawKeepsName(Column(name, [], rows), e.value, classify);
      IndexedMore(indexes, s.columns, SawJson(Column(name, [], rows), e.value, classify));
      columns' := NewColumn(columns, s.columns, name, rows, e.value, classify);
      indexes' := indexes[name := |columns|];
    }
  }

  lemma EntrySeen(indexes: map<string, nat>, s: State, e: Entry, classify: Classify)
    requires Indexed(indexes, s.columns) && Known(s.columns, BoundedName(e.key, |s.columns|))
    ensures Indexed(indexes, AddEntry(s, e, classify).columns)
  {
    hide BoundedName, SawJson, Indexed;
    var t, i := AddEntry(s, e, classify), Find(s.columns, BoundedName(e.key, |s.columns|));
    SawKeepsName(s.columns[i], e.value, classify);
    assert Names(t.columns) == Names(s.columns);
    IndexedSame(indexes, s.columns, t.columns);
  }

  lemma SawKeepsName(c: Column, value: Value, classify: Classify)
    ensures SawJson(c, value, classify).name == c.name
  {
  }

  /** Counts the entries of one object. */
  method ObserveEntries(columns: seq<ColumnAccumulator>, indexes: map<string, nat>, ghost s: State, rows: nat,
                        entries: seq<Entry>, classify: Classify)
    returns (columns': seq<ColumnAccumulator>, indexes': map<string, nat>, overflow: bool)
    requires Holds(columns, indexes, s) && rows == s.rows
    modifies columns
    ensures Holds(columns', indexes', AddEntries(s, entries, classify))
    ensures Grown(columns, columns') && forall k :: |columns| <= k < |columns'| ==> fresh(columns'[k])
    ensures overflow <==> !TakesAll(s, entries, classify)
  {
    hide Holds, AddEntry, HasRoom;
    columns', indexes', overflow := columns, indexes, false;
    ghost var t := s;
    var i := 0;
    while i < |entries|
      invariant 0 <= i <= |entries| && t == AddEntries(s, entries[..i], classify) && t.rows == rows
      invariant Holds(columns', indexes', t)
      invariant Grown(columns, columns') && forall k :: |columns| <= k < |columns'| ==> fresh(columns'[k])
      invariant !overflow <==> forall k :: 0 <= k < i ==> HasRoom(AddEntries(s, entries[..k], classify), entries[k])
    {
      assert entries[..i + 1][..i] == entries[..i];
      EntryKeepsRows(t, entries[i], classify);
      var over;
      columns', indexes', over := ObserveEntry(columns', indexes', t, rows, entries[i], classify);
      t := AddEntry(t, entries[i], classify);
      overflow := overflow || over;
      i := i + 1;
    }
    assert entries[..i] == entries;
  }

  lemma EntryKeepsRows(s: State, e: Entry, classify: Classify)
    ensures AddEntry(s, e, classify).rows == s.rows
  {
  }

  lemma {:induction false} EntriesKeepRows(s: State, entries: seq<Entry>, classify: Classify)
    ensures AddEntries(s, entries, classify).rows == s.rows
  {
    hide AddEntry;
    if entries != [] {
      EntriesKeepRows(s, entries[..|entries| - 1], classify);
      EntryKeepsRows(AddEntries(s, entries[..|entries| - 1], classify), entries[|entries| - 1], classify);
    }
  }

  /** Takes one line into account. */
  method ObserveLine(columns: seq<ColumnAccumulator>, indexes: map<string, nat>, ghost s: State, rows: nat, line: Line,
                     classify: Classify)
    returns (columns': seq<ColumnAccumulator>, indexes': map<string, nat>, rows': nat, warnings: set<Warning>)
    requires Holds(columns, indexes, s) && rows == s.rows
    modifies columns
    ensures Holds(columns', indexes', AddLine(s, line, classify)) && rows' == AddLine(s, line, classify).rows
    ensures Grown(columns, columns') && forall k :: |columns| <= k < |columns'| ==> fresh(columns'[k])
    ensures warnings == LineWarnings(s, line, classify)
  {
    hide MarkMissing, AllMissed, AddEntries, SeenAs, Indexed, TakesAll;
    columns', indexes', rows', warnings := columns, indexes, rows, {};
    match line {
      case Unreadable =>
        warnings := {RecordError};
      case Blank =>
        warnings := {BlankLine};
      case Malformed =>
        warnings := {RecordError};
      case OtherValue =>
        warnings := {NotAnObject};
        MissedHolds(indexes, s.columns, []);
        MissAll(columns, s.columns);
        rows' := rows + 1;
      case Fields(entries) =>
        MissedHolds(indexes, s.columns, entries);
        MissAbsent(columns, indexes, s.columns, entries);
        ghost var marked := State(MarkMissing(s.columns, entries), s.rows);
        EntriesKeepRows(marked, entries, classify);
        var overflow;
        columns', indexes', overflow := ObserveEntries(columns, indexes, marked, rows, entries, classify);
        warnings := WarningIf(overflow, ColumnLimitExceeded);
        rows' := rows + 1;
    }
  }

  lemma MissedHolds(indexes: map<string, nat>, columns: seq<Column>, entries: seq<Entry>)
    requires Indexed(indexes, columns)
    ensures Indexed(indexes, MarkMissing(columns, entries)) && Indexed(indexes, AllMissed(columns))
    ensures |MarkMissing(columns, entries)| == |columns| == |AllMissed(columns)|
  {
    hide Indexed, HasKey;
    MissedNames(columns, entries);
    IndexedSame(indexes, columns, MarkMissing(columns, entries));
    IndexedSame(indexes, columns, AllMissed(columns));
  }

  /** Profiles a JSON-lines file from a sample of its lines; the first `n` are read. */
  method ProfileJsonLines(lines: seq<Line>, classify: Classify) returns (d: Dataset, ghost n: nat)
    ensures n <= |lines|
    ensures var s := Run(lines[..n], classify);
            && d.sampledRows == s.rows <= 100 && d.columns == ProfilesOf(s.columns)
            && (d.truncated <==> n < |lines|) && (d.truncated ==> s.rows == 100)
    ensures d.complete <==> d.warnings == {}
    ensures d.warnings == RunWarnings(lines[..n], classify) + WarningIf(n < |lines|, RowSampleLimit)
                          + WarningIf(d.sampledRows == 0, NoDataRows)
    ensures d.complete <==>
              && n == |lines| && d.sampledRows > 0
              && forall k :: 0 <= k < |lines| ==> TakenWhole(Run(lines[..k], classify), lines[k], classify)
  {
    hide Holds, AddLine, ProfilesOf, Run, TakenWhole, LineWarnings, RunWarnings;
    NoWarningsYet(classify);
    var columns: seq<ColumnAccumulator>, indexes: map<string, nat>, rows, warnings: set<Warning> := [], map[], 0, {};
    var truncated := false;
    ghost var s := State([], 0);
    NothingHolds(classify);
    var i := 0;
    n := 0;
    while i < |lines| && !truncated
      invariant n == i <= |lines| && s == Run(lines[..i], classify)
      invariant Holds(columns, indexes, s) && rows == s.rows <= MAX_PROFILE_ROWS
      invariant forall k :: 0 <= k < |columns| ==> fresh(columns[k])
      invariant truncated ==> i < |lines| && rows == MAX_PROFILE_ROWS && warnings != {}
      invariant warnings == RunWarnings(lines[..i], classify) + WarningIf(truncated, RowSampleLimit)
      decreases |lines| - i, !truncated
    {
      if rows >= MAX_PROFILE_ROWS {
        truncated := true;
        warnings := warnings + {RowSampleLimit};
      } else {
        RunOneMore(lines, i, classify);
        WarningsOneMore(lines, i, classify);
        LineAddsAtMostOne(s, lines[i], classify);
        var more;
        columns, indexes, rows, more := ObserveLine(columns, indexes, s, rows, lines[i], classify);
        s := AddLine(s, lines[i], classify);
        warnings := warnings + more;
        i, n := i + 1, n + 1;
      }
    }
    HeldColumns(columns, indexes, s);
    var profiles := FinishAll(columns, s.columns);
    warnings := warnings + WarningIf(rows == 0, NoDataRows);
    d := Dataset(rows, warnings == {}, truncated, profiles, warnings);
    assert lines[..i] == lines[..n];
    SilentRun(lines[..n], classify);
    PrefixesOfAll(lines, n);
  }

  /** What is to be said of the lines, one after the other. */
  function RunWarnings(lines: seq<Line>, classify: Classify): set<Warning> {
    if lines == [] then {}
    else
      var front := lines[..|lines| - 1];
      RunWarnings(front, classify) + LineWarnings(Run(front, classify), lines[|lines| - 1], classify)
  }

  lemma NoWarningsYet(classify: Classify)
    ensures RunWarnings([], classify) == {}
  {
  }

  lemma WarningsOneMore(lines: seq<Line>, i: nat, classify: Classify)
    requires i < |lines|
    ensures RunWarnings(lines[..i + 1], classify)
              == RunWarnings(lines[..i], classify) + LineWarnings(Run(lines[..i], classify), lines[i], classify)
  {
    hide Run, LineWarnings;
    assert lines[..i + 1][..i] == lines[..i];
  }

  /** A warning is given exactly if some line gives it. */
  lemma {:induction false} WarningsAreOfLines(lines: seq<Line>, w: Warning, classify: Classify)
    ensures w in RunWarnings(lines, classify) <==>
              exists k :: 0 <= k < |lines| && w in LineWarnings(Run(lines[..k], classify), lines[k], classify)
  {
    hide Run, LineWarnings;
    if lines != [] {
      var n := |lines| - 1;
      WarningsAreOfLines(lines[..n], w, classify);
      assert forall k :: 0 <= k < n ==> lines[..n][..k] == lines[..k] && lines[..n][k] == lines[k];
    }
  }

  lemma {:induction false} SilentRun(lines: seq<Line>, classify: Classify)
    ensures RunWarnings(lines, classify) == {} <==>
              forall k :: 0 <= k < |lines| ==> TakenWhole(Run(lines[..k], classify), lines[k], classify)
  {
    hide Run, LineWarnings, TakenWhole;
    if lines != [] {
      var n := |lines| - 1;
      SilentRun(lines[..n], classify);
      SilentExactlyIfTakenWhole(Run(lines[..n], classify), lines[n], classify);
      assert forall k :: 0 <= k < n ==> lines[..n][..k] == lines[..k] && lines[..n][k] == lines[k];
    }
  }

  lemma PrefixesOfAll(lines: seq<Line>, n: nat)
    requires n <= |lines|
    ensures forall k :: 0 <= k <= n ==> lines[..n][..k] == lines[..k]
    ensures n == |lines| ==> lines[..n] == lines
  {
  }

  lemma NothingHolds(classify: Classify)
    ensures Holds([], map[], State([], 0)) && Run([], classify) == State([], 0)
  {
  }

  lemma RunOneMore(lines: seq<Line>, i: nat, classify: Classify)
    requires i < |lines|
    ensures Run(lines[..i + 1], classify) == AddLine(Run(lines[..i], classify), lines[i], classify)
  {
    hide AddLine;
    assert lines[..i + 1][..i] == lines[..i];
  }

  lemma HeldColumns(columns: seq<ColumnAccumulator>, indexes: map<string, nat>, s: State)
    requires Holds(columns, indexes, s)
    ensures |columns| == |s.columns| && forall k :: 0 <= k < |columns| ==>
              columns[k].Valid() && columns[k].Seen() == s.columns[k]
  {
  }

  lemma LineAddsAtMostOne(s: State, line: Line, classify: Classify)
    ensures AddLine(s, line, classify).rows <= s.rows + 1
  {
    hide AddEntries;
  }

  /** With keys that are their own names, every column of the profile is exact and accounts for every row. */
  lemma OwnKeysAddUp(lines: seq<Line>, name: string, classify: Classify)
    requires OnlyOwnKeys(lines) && Known(Run(lines, classify).columns, name)
    ensures var s := Run(lines, classify);
            && Total(s.columns, name) == s.rows
            && At(s.columns, name).kinds == KindsUnder(lines, name, classify)
  {
    hide Run, KindsUnder;
    OwnKeysAreExact(lines, name, classify);
  }
}
