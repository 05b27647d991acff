/** Profiles of delimited and JSON-lines data: columns accumulated row by row, and what the counts then say of
    the whole sample. */
module DatasetProfile {
  import opened ColumnKinds
  import opened Text

  const MAX_PROFILE_ROWS: nat := 100
  const MAX_PROFILE_COLUMNS: nat := 128
  const MAX_COLUMN_NAME_CHARS: nat := 128
  const BYTE_ORDER_MARK: char := '\U{FEFF}'

  datatype Value = Null | Bool | WholeNumber | OtherNumber | String(text: string) | Array | Object

  /** How the text of a value is classified. */
  type Classify = string -> Kind

  function JsonKind(value: Value, classify: Classify): Kind {
    match value
    case Null => Unknown
    case Bool => Boolean
    case WholeNumber => Integer
    case OtherNumber => Number
    case String(text) => classify(text)
    case Array => Json
    case Object => Json
  }

  // ---------------------------------------------------------------- columns

  /** What a column has seen: the kinds of its values in order, and how many were missing. */
  datatype Column = Column(name: string, kinds: seq<Kind>, missing: nat)

  function Missed(c: Column): Column {
    c.(missing := c.missing + 1)
  }

  function SawText(c: Column, value: string, classify: Classify): Column {
    if Trim(value) == [] then Missed(c) else c.(kinds := c.kinds + [classify(Trim(value))])
  }

  function SawJson(c: Column, value: Value, classify: Classify): Column {
    if value.Null? then Missed(c) else c.(kinds := c.kinds + [JsonKind(value, classify)])
  }

  datatype Profile = Profile(name: string, inferredType: Kind, observedValues: nat, missingValues: nat)

  class ColumnAccumulator {
    const name: string
    var kind: Kind
    var observedValues: nat
    var missingValues: nat
    ghost var kinds: seq<Kind>

    constructor (name: string, missingValues: nat)
      ensures Valid() && Seen() == Column(name, [], missingValues)
    {
      this.name, this.missingValues := name, missingValues;
      kind, observedValues, kinds := Unknown, 0, [];
    }

    /** The kind is that of all values observed. */
    ghost predicate Valid()
      reads this
    {
      kind == KindOf(kinds) && observedValues == |kinds|
    }

    ghost function Seen(): Column
      reads this
    {
      Column(name, kinds, missingValues)
    }

    method Miss()
      requires Valid()
      modifies this
      ensures Valid() && Seen() == Missed(old(Seen()))
    {
      missingValues := missingValues + 1;
    }

    method Observe(next: Kind)
      requires Valid()
      modifies this
      ensures Valid() && Seen() == old(Seen()).(kinds := old(kinds) + [next])
    {
      observedValues := observedValues + 1;
      kind := Merge(kind, next);
      kinds := kinds + [next];
      assert kinds[..|kinds| - 1] == old(kinds);
    }

    method ObserveText(value: string, classify: Classify)
      requires Valid()
      modifies this
      ensures Valid() && Seen() == SawText(old(Seen()), value, classify)
    {
      var text := Trim(value);
      if text == [] {
        Miss();
      } else {
        Observe(classify(text));
      }
    }

    method ObserveJson(value: Value, classify: Classify)
      requires Valid()
      modifies this
      ensures Valid() && Seen() == SawJson(old(Seen()), value, classify)
      ensures match value
              case Null => kinds == old(kinds) && missingValues == old(missingValues) + 1
              case Bool => kinds == old(kinds) + [Boolean]
              case WholeNumber => kinds == old(kinds) + [Integer]
              case OtherNumber => kinds == old(kinds) + [Number]
              case String(text) => kinds == old(kinds) + [classify(text)]
              case _ => kinds == old(kinds) + [Json]
      ensures !value.Null? ==> missingValues == old(missingValues)
    {
      if value.Null? {
        Miss();
      } else {
        Observe(JsonKind(value, classify));
      }
    }

    method Finish() returns (p: Profile)
      requires Valid()
      ensures p == Profile(name, KindOf(kinds), |kinds|, missingValues)
    {
      p := Profile(name, kind, observedValues, missingValues);
    }
  }

  // ---------------------------------------------------------------- names

  function WithoutMark(s: string): string {
    if s != [] && s[0] == BYTE_ORDER_MARK then WithoutMark(s[1..]) else s
  }

  function Decimal(n: nat): (r: string)
    ensures r != []
  {
    if n < 10 then [('0' as int + n) as char] else Decimal(n / 10) + [('0' as int + n % 10) as char]
  }

  /** A column's name from what stands in the header or key. */
  function BoundedName(raw: string, index: nat): (r: string)
    ensures |r| > 0
  {
    var value := WithoutMark(Trim(raw));
    if value == [] then "column_" + Decimal(index + 1)
    else if |value| > MAX_COLUMN_NAME_CHARS then value[..MAX_COLUMN_NAME_CHARS]
    else value
  }

  /** A name that says something keeps its first characters, and only what is too long is cut; names made up for
      columns without one are numbered from one. */
  lemma BoundedNames(raw: string, index: nat)
    requires index <= 128
    ensures var name, said := BoundedName(raw, index), WithoutMark(Trim(raw));
            && 0 < |name| <= 128 && (said != [] ==> name <= said && (name == said || |name| == 128))
            && (said == [] ==>
                  "column_" <= name && AllDigits(name[7..]) && NumberOf(name[7..]) == index + 1)
  {
    hide Trim, WithoutMark;
    DecimalWrites(index + 1);
    ShortDecimal(index + 1);
    MadeUpName("column_", Decimal(index + 1));
  }

  lemma MadeUpName(prefix: string, number: string)
    requires |prefix| == 7
    ensures prefix <= prefix + number && (prefix + number)[7..] == number
  {
  }

  lemma ShortDecimal(n: nat)
    requires n < 1_000
    ensures |Decimal(n)| <= 3
  {
    assert n >= 10 ==> |Decimal(n)| == |Decimal(n / 10)| + 1;
    assert n >= 100 ==> |Decimal(n / 10)| == |Decimal(n / 100)| + 1;
  }

  predicate AllDigits(s: string) {
    forall i :: 0 <= i < |s| ==> '0' <= s[i] <= '9'
  }

  /** The number that a run of digits writes. */
  function NumberOf(s: string): nat
    requires AllDigits(s)
  {
    if s == [] then 0 else 10 * NumberOf(s[..|s| - 1]) + (s[|s| - 1] as int - '0' as int)
  }

  lemma {:induction false} DecimalWrites(n: nat)
    ensures AllDigits(Decimal(n)) && NumberOf(Decimal(n)) == n
  {
    if n < 10 {
      assert Decimal(n)[..0] == [];
    } else {
      DecimalWrites(n / 10);
      assert Decimal(n)[..|Decimal(n)| - 1] == Decimal(n / 10);
    }
  }

  // ---------------------------------------------------------------- delimited data

  datatype Record = ParseError | Row(fields: seq<string>)

  datatype Header = HeaderError | Names(names: seq<string>)

  datatype Warning =
    | HeaderParseError | MissingHeader | ColumnLimitExceeded | EmptyColumnName | DuplicateColumnName
    | RowSampleLimit | RecordError | InconsistentRowWidth | NotAnObject | BlankLine | NoDataRows

  datatype Dataset = Dataset(
    sampledRows: nat, complete: bool, truncated: bool, columns: seq<Profile>, warnings: set<Warning>)

  /** The records that parse, in order. */
  function Rows(records: seq<Record>): (r: seq<seq<string>>)
    ensures |r| <= |records|
  {
    if records == [] then []
    else
      var last := records[|records| - 1];
      Rows(records[..|records| - 1]) + if last.Row? then [last.fields] else []
  }

  /** The values of one column over all rows, classified. */
  function Cells(rows: seq<seq<string>>, k: nat, classify: Classify): (r: seq<Kind>)
    ensures |r| <= |rows|
  {
    if rows == [] then []
    else
      var row := rows[|rows| - 1];
      Cells(rows[..|rows| - 1], k, classify) + if k < |row| && Trim(row[k]) != [] then [classify(Trim(row[k]))] else []
  }

  /** What the column must have seen of these rows. */
  function ColumnOver(rows: seq<seq<string>>, name: string, k: nat, classify: Classify): Column {
    var cells := Cells(rows, k, classify);
    Column(name, cells, |rows| - |cells|)
  }

  predicate Separate(columns: seq<ColumnAccumulator>) {
    forall i, j :: 0 <= i < j < |columns| ==> columns[i] != columns[j]
  }

  ghost predicate Over(columns: seq<ColumnAccumulator>, names: seq<string>, rows: seq<seq<string>>, classify: Classify)
    reads columns
  {
    && |columns| == |names| && Separate(columns)
    && forall k :: 0 <= k < |columns| ==>
         columns[k].Valid() && columns[k].Seen() == ColumnOver(rows, names[k], k, classify)
  }

  lemma OneMoreRow(rows: seq<seq<string>>, row: seq<string>, name: string, k: nat, classify: Classify)
    ensures var before, after := ColumnOver(rows, name, k, classify), ColumnOver(rows + [row], name, k, classify);
            after == if k < |row| then SawText(before, row[k], classify) else Missed(before)
  {
    hide Trim;
    assert (rows + [row])[..|rows|] == rows;
  }

  /** Every column takes its field of the row, or misses it. */
  method ObserveRow(columns: seq<ColumnAccumulator>, names: seq<string>, ghost rows: seq<seq<string>>, row: seq<string>,
                    classify: Classify)
    requires Over(columns, names, rows, classify)
    modifies columns
    ensures Over(columns, names, rows + [row], classify)
  {
    hide ColumnOver, SawText;
    var i := 0;
    while i < |columns|
      invariant 0 <= i <= |columns|
      invariant forall k :: 0 <= k < i ==>
                  columns[k].Valid() && columns[k].Seen() == ColumnOver(rows + [row], names[k], k, classify)
      invariant forall k :: i <= k < |columns| ==>
                  columns[k].Valid() && columns[k].Seen() == ColumnOver(rows, names[k], k, classify)
    {
      OneMoreRow(rows, row, names[i], i, classify);
      if i < |row| {
        columns[i].ObserveText(row[i], classify);
      } else {
        columns[i].Miss();
      }
      i := i + 1;
    }
  }

  /** What a header promises: names that are there and differ. */
  function HeaderNames(names: seq<string>): seq<string> {
    seq(if |names| > MAX_PROFILE_COLUMNS then MAX_PROFILE_COLUMNS else |names|,
        k requires 0 <= k < |names| => BoundedName(names[k], k))
  }

  predicate HasEmptyName(names: seq<string>, n: nat)
    requires n <= |names|
  {
    exists k :: 0 <= k < n && WithoutMark(Trim(names[k])) == []
  }

  predicate HasTwins(names: seq<string>, lower: string -> string) {
    exists j, k :: 0 <= j < k < |names| && lower(names[j]) == lower(names[k])
  }

  /** One column for each name of the header, up to the limit. */
  method ReadHeader(names: seq<string>, lower: string -> string)
    returns (columns: seq<ColumnAccumulator>, emptyName: bool, twins: bool)
    ensures Fresh(columns, HeaderNames(names)) && fresh(columns) && |columns| == |HeaderNames(names)|
    ensures emptyName <==> HasEmptyName(names, |columns|)
    ensures twins <==> HasTwins(HeaderNames(names), lower)
  {
    hide BoundedName, HasTwins, HasEmptyName, Trim, WithoutMark, Lowered, Fresh;
    var seen: set<string> := {};
    columns, emptyName, twins := [], false, false;
    ghost var all := HeaderNames(names);
    assert all[..0] == [];
    NoTwins(names, lower);
    while |columns| < |names| && |columns| < MAX_PROFILE_COLUMNS
      invariant |columns| <= |all| && Fresh(columns, all[..|columns|]) && fresh(columns)
      invariant emptyName <==> HasEmptyName(names, |columns|)
      invariant twins <==> HasTwins(all[..|columns|], lower)
      invariant seen == Lowered(all[..|columns|], lower)
    {
      var k := |columns|;
      var name := BoundedName(names[k], k);
      emptyName := emptyName || WithoutMark(Trim(names[k])) == [];
      twins := twins || lower(name) in seen;
      assert all[..k + 1] == all[..k] + [name];
      TwinsGrow(all[..k], name, lower);
      EmptyGrows(names, k);
      seen := seen + {lower(name)};
      columns := AddColumn(columns, all[..k], name);
    }
    assert all[..|columns|] == all;
  }

  /** Columns that have seen nothing yet. */
  ghost predicate Fresh(columns: seq<ColumnAccumulator>, names: seq<string>)
    reads columns
  {
    && Separate(columns) && |columns| == |names|
    && forall k :: 0 <= k < |columns| ==> columns[k].Valid() && columns[k].Seen() == Column(names[k], [], 0)
  }

  method AddColumn(columns: seq<ColumnAccumulator>, ghost names: seq<string>, name: string)
    returns (more: seq<ColumnAccumulator>)
    requires Fresh(columns, names)
    ensures Fresh(more, names + [name]) && |more| == |columns| + 1 && more[..|columns|] == columns
              && fresh(more[|columns|])
  {
    var column := new ColumnAccumulator(name, 0);
    more := columns + [column];
  }

  function Lowered(names: seq<string>, lower: string -> string): set<string> {
    set name | name in names :: lower(name)
  }

  lemma NoTwins(names: seq<string>, lower: string -> string)
    ensures !HasTwins([], lower) && Lowered([], lower) == {} && !HasEmptyName(names, 0) && Fresh([], [])
  {
  }

  lemma EmptyGrows(names: seq<string>, k: nat)
    requires k < |names|
    ensures HasEmptyName(names, k + 1) <==> HasEmptyName(names, k) || WithoutMark(Trim(names[k])) == []
  {
    hide Trim, WithoutMark;
  }

  lemma TwinsGrow(names: seq<string>, name: string, lower: string -> string)
    ensures HasTwins(names + [name], lower) <==> HasTwins(names, lower) || lower(name) in Lowered(names, lower)
    ensures Lowered(names + [name], lower) == Lowered(names, lower) + {lower(name)}
  {
    var more := names + [name];
    if HasTwins(names, lower) {
      var i, j :| 0 <= i < j < |names| && lower(names[i]) == lower(names[j]);
      assert lower(more[i]) == lower(more[j]);
    }
    if other :| other in names && lower(other) == lower(name) {
      var j :| 0 <= j < |names| && names[j] == other;
      assert lower(more[j]) == lower(more[|names|]);
    }
    if HasTwins(more, lower) {
      var i, j :| 0 <= i < j < |more| && lower(more[i]) == lower(more[j]);
      assert more[i] == names[i];
      if j < |names| {
        assert lower(names[i]) == lower(names[j]);
      }
    }
  }

  /** All rows read so far have the header's width. */
  predicate EvenWidth(rows: seq<seq<string>>, width: nat) {
    forall row <- rows :: |row| == width
  }

  predicate AllParse(records: seq<Record>) {
    forall record <- records :: record.Row?
  }

  method FinishAll(columns: seq<ColumnAccumulator>, ghost seen: seq<Column>) returns (profiles: seq<Profile>)
    requires |columns| == |seen| && forall k :: 0 <= k < |columns| ==>
               columns[k].Valid() && columns[k].Seen() == seen[k]
    ensures profiles == ProfilesOf(seen)
  {
    hide KindOf;
    profiles := [];
    while |profiles| < |columns|
      invariant |profiles| <= |columns| && profiles == ProfilesOf(seen)[..|profiles|]
    {
      var p := columns[|profiles|].Finish();
      profiles := profiles + [p];
    }
  }

  function ProfileOf(c: Column): Profile {
    Profile(c.name, KindOf(c.kinds), |c.kinds|, c.missing)
  }

  function ProfilesOf(columns: seq<Column>): seq<Profile> {
    seq(|columns|, k requires 0 <= k < |columns| => ProfileOf(columns[k]))
  }

  /** The columns a delimited file must be found to have. */
  function ColumnsOver(rows: seq<seq<string>>, names: seq<string>, classify: Classify): seq<Column> {
    seq(|names|, k requires 0 <= k < |names| => ColumnOver(rows, names[k], k, classify))
  }

  lemma OneMoreRecord(records: seq<Record>, i: nat, width: nat)
    requires i < |records|
    ensures Rows(records[..i + 1])
              == if records[i].Row? then Rows(records[..i]) + [records[i].fields] else Rows(records[..i])
    ensures AllParse(records[..i + 1]) <==> AllParse(records[..i]) && records[i].Row?
    ensures EvenWidth(Rows(records[..i + 1]), width) <==>
              EvenWidth(Rows(records[..i]), width) && (records[i].Row? ==> |records[i].fields| == width)
  {
    var front, last := records[..i], records[i];
    assert records[..i + 1] == front + [last];
    assert (front + [last])[..i] == front;
    assert last in front + [last] && forall r <- front :: r in front + [last];
    var rows := Rows(front);
    if last.Row? {
      assert last.fields in rows + [last.fields] && forall r <- rows :: r in rows + [last.fields];
    }
  }

  /** Samples rows up to the limit; the first `n` records are read. */
  method SampleRows(columns: seq<ColumnAccumulator>, names: seq<string>, width: nat, records: seq<Record>,
                    classify: Classify)
    returns (sampled: nat, truncated: bool, even: bool, parsed: bool, ghost n: nat)
    requires Over(columns, names, [], classify)
    modifies columns
    ensures n <= |records| && Over(columns, names, Rows(records[..n]), classify)
    ensures sampled == |Rows(records[..n])| <= MAX_PROFILE_ROWS
    ensures truncated <==> n < |records|
    ensures truncated ==> sampled == MAX_PROFILE_ROWS
    ensures even <==> EvenWidth(Rows(records[..n]), width)
    ensures parsed <==> AllParse(records[..n])
  {
    hide Over, Cells;
    sampled, truncated, even, parsed, n := 0, false, true, true, 0;
    var i := 0;
    while i < |records|
      invariant n == i <= |records| && Over(columns, names, Rows(records[..i]), classify)
      invariant sampled == |Rows(records[..i])| <= MAX_PROFILE_ROWS
      invariant even <==> EvenWidth(Rows(records[..i]), width)
      invariant parsed <==> AllParse(records[..i])
    {
      if sampled >= MAX_PROFILE_ROWS {
        truncated := true;
        return;
      }
      OneMoreRecord(records, i, width);
      match records[i] {
        case ParseError =>
          parsed := false;
        case Row(row) =>
          even := even && |row| == width;
          ObserveRow(columns, names, Rows(records[..i]), row, classify);
          sampled := sampled + 1;
      }
      i, n := i + 1, n + 1;
    }
  }

  /** What a delimited profile must say of the first `n` records. */
  ghost predicate Describes(d: Dataset, names: seq<string>, records: seq<Record>, n: nat, lower: string -> string,
                            classify: Classify)
    requires n <= |records|
  {
    var rows, columns := Rows(records[..n]), HeaderNames(names);
    && d.sampledRows == |rows| <= 100
    && (d.truncated <==> n < |records|) && (d.truncated ==> |rows| == 100)
    && d.columns == ProfilesOf(ColumnsOver(rows, columns, classify))
    && (d.complete <==> d.warnings == {})
    && (d.complete <==>
          && n == |records| && rows != [] && |names| <= 128
          && !HasEmptyName(names, |columns|) && !HasTwins(columns, lower)
          && AllParse(records[..n]) && EvenWidth(rows, |names|))
    && (ColumnLimitExceeded in d.warnings <==> |names| > 128)
    && (EmptyColumnName in d.warnings <==> HasEmptyName(names, |columns|))
    && (DuplicateColumnName in d.warnings <==> HasTwins(columns, lower))
    && (RowSampleLimit in d.warnings <==> n < |records|)
    && (RecordError in d.warnings <==> !AllParse(records[..n]))
    && (InconsistentRowWidth in d.warnings <==> !EvenWidth(rows, |names|))
    && (NoDataRows in d.warnings <==> rows == [])
    && HeaderParseError !in d.warnings && MissingHeader !in d.warnings && NotAnObject !in d.warnings
    && BlankLine !in d.warnings
  }

  function WarningIf(b: bool, w: Warning): set<Warning> {
    if b then {w} else {}
  }

  function Collected(tooMany: bool, emptyName: bool, twins: bool, truncated: bool, unparsed: bool, uneven: bool,
                     noRows: bool): set<Warning> {
    WarningIf(tooMany, ColumnLimitExceeded) + WarningIf(emptyName, EmptyColumnName)
      + WarningIf(twins, DuplicateColumnName)
    + WarningIf(truncated, RowSampleLimit) + WarningIf(unparsed, RecordError) + WarningIf(uneven, InconsistentRowWidth)
    + WarningIf(noRows, NoDataRows)
  }

  lemma CollectedAre(tooMany: bool, emptyName: bool, twins: bool, truncated: bool, unparsed: bool, uneven: bool,
                     noRows: bool)
    ensures var warnings := Collected(tooMany, emptyName, twins, truncated, unparsed, uneven, noRows);
            && (ColumnLimitExceeded in warnings <==> tooMany) && (EmptyColumnName in warnings <==> emptyName)
            && (DuplicateColumnName in warnings <==> twins) && (RowSampleLimit in warnings <==> truncated)
            && (RecordError in warnings <==> unparsed) && (InconsistentRowWidth in warnings <==> uneven)
            && (NoDataRows in warnings <==> noRows)
            && HeaderParseError !in warnings && MissingHeader !in warnings && NotAnObject !in warnings
            && BlankLine !in warnings
            && (warnings == {} <==> !(tooMany || emptyName || twins || truncated || unparsed || uneven || noRows))
  {
    hide WarningIf;
    forall b: bool, w: Warning, x: Warning
      ensures x in WarningIf(b, w) <==> b && x == w
    {
      WarningIfOnly(b, w, x);
    }
    var all := Collected(tooMany, emptyName, twins, truncated, unparsed, uneven, noRows);
    if !(tooMany || emptyName || twins || truncated || unparsed || uneven || noRows) {
      assert forall x :: x !in all;
    }
  }

  lemma WarningIfOnly(b: bool, w: Warning, x: Warning)
    ensures x in WarningIf(b, w) <==> b && x == w
  {
  }

  /** Profiles a delimited file from a sample of its rows. */
  method ProfileDelimited(header: Header, records: seq<Record>, lower: string -> string, classify: Classify)
    returns (d: Dataset, ghost n: nat)
    ensures n <= |records|
    ensures header == HeaderError ==> d == Dataset(0, false, false, [], {HeaderParseError, NoDataRows})
    ensures header == Names([]) ==> d == Dataset(0, false, false, [], {MissingHeader, NoDataRows})
    ensures header.Names? && header.names != [] ==> Describes(d, header.names, records, n, lower, classify)
  {
    hide Over, Rows, HasEmptyName, HasTwins, EvenWidth, AllParse, BoundedName, Cells, Collected;
    n := 0;
    if header.HeaderError? {
      return Dataset(0, false, false, [], {HeaderParseError, NoDataRows}), 0;
    }
    var names := header.names;
    if names == [] {
      return Dataset(0, false, false, [], {MissingHeader, NoDataRows}), 0;
    }
    var columns, emptyName, twins := ReadHeader(names, lower);
    NothingSampled(columns, HeaderNames(names), classify);
    var sampled, truncated, even, parsed;
    sampled, truncated, even, parsed, n := SampleRows(columns, HeaderNames(names), |names|, records, classify);
    SampledColumns(columns, HeaderNames(names), Rows(records[..n]), classify);
    var profiles := FinishAll(columns, ColumnsOver(Rows(records[..n]), HeaderNames(names), classify));
    var tooMany := |names| > MAX_PROFILE_COLUMNS;
    var warnings := Collected(tooMany, emptyName, twins, truncated, !parsed, !even, sampled == 0);
    CollectedAre(tooMany, emptyName, twins, truncated, !parsed, !even, sampled == 0);
    var complete := !tooMany && !emptyName && !twins && !truncated && parsed && even && sampled != 0;
    d := Dataset(sampled, complete, truncated, profiles, warnings);
  }

  lemma NothingSampled(columns: seq<ColumnAccumulator>, names: seq<string>, classify: Classify)
    requires Fresh(columns, names)
    ensures Over(columns, names, [], classify) && Rows([]) == []
  {
  }

  lemma SampledColumns(columns: seq<ColumnAccumulator>, names: seq<string>, rows: seq<seq<string>>, classify: Classify)
    requires Over(columns, names, rows, classify)
    ensures |columns| == |names| && forall k :: 0 <= k < |columns| ==>
              columns[k].Valid() && columns[k].Seen() == ColumnsOver(rows, names, classify)[k]
  {
  }

  /** In a delimited profile every column accounts for every sampled row. */
  lemma DelimitedColumnsAddUp(d: Dataset, names: seq<string>, records: seq<Record>, n: nat, lower: string -> string,
                              classify: Classify, k: nat)
    requires n <= |records| && Describes(d, names, records, n, lower, classify) && k < |d.columns|
    ensures d.columns[k].observedValues + d.columns[k].missingValues == d.sampledRows
    ensures d.columns[k].inferredType == KindOf(Cells(Rows(records[..n]), k, classify))
  {
    hide Rows, HasEmptyName, HasTwins, KindOf;
  }
}
