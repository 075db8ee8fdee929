/** The "friendly" view of a 2DA game-data table: a table of named columns and
    string cells built from an already-tokenized raw table. Raw line 2 names
    the columns; every raw line from 3 on is one data row whose first token is
    the row number. The cell token `****` marks a default (unset) cell. */
module Friendly {
  import opened CNumeric

  /** The token that marks a default cell. */
  const DefaultToken: string := "****"

  /** One cell: its text, and whether it was the default marker. */
  datatype Entry = Entry(data: string, isDefault: bool)

  /** The token a cell was read from: the inverse of `EntryOf`. */
  function TokenOf(e: Entry): (token: string) {
    if e.isDefault then DefaultToken else e.data
  }

  /** The cell read from one token: the marker gives a default cell with empty
      text, any other token a cell holding that token. No token is lost. */
  function EntryOf(token: string): (e: Entry)
    ensures e.isDefault <==> token == DefaultToken
    ensures e.isDefault ==> e.data == ""
    ensures TokenOf(e) == token
  {
    if token == DefaultToken then Entry("", true) else Entry(token, false)
  }

  /** The cells that reading makes: default cells are empty, and no other cell
      holds the marker. */
  predicate WellFormed(e: Entry) {
    if e.isDefault then e.data == "" else e.data != DefaultToken
  }

  /** Reading back the token of a cell that reading can make gives that cell. */
  lemma EntryOfTokenOf(e: Entry)
    requires WellFormed(e)
    ensures EntryOf(TokenOf(e)) == e
  {
  }

  /** The cells of a sequence of tokens, in order. */
  function MapEntries(tokens: seq<string>): (es: seq<Entry>)
    ensures |es| == |tokens|
    ensures forall j :: 0 <= j < |tokens| ==> es[j] == EntryOf(tokens[j])
  {
    if tokens == [] then []
    else MapEntries(tokens[..|tokens| - 1]) + [EntryOf(tokens[|tokens| - 1])]
  }

  /** The cells of one raw data line: its first token (the row number) is
      dropped unchecked, every other token becomes one cell, in order. */
  function EntriesOf(line: seq<string>): (es: seq<Entry>)
    ensures |es| == if |line| == 0 then 0 else |line| - 1
    ensures forall j :: 0 <= j < |es| ==> es[j] == EntryOf(line[j + 1])
  {
    if line == [] then [] else MapEntries(line[1..])
  }

  /** The tokens cells were read from. */
  function TokensOf(es: seq<Entry>): (tokens: seq<string>) {
    seq(|es|, j requires 0 <= j < |es| => TokenOf(es[j]))
  }

  /** A row loses only the row number of its line: the tokens of its cells are
      the rest of the line, and every cell is well formed. */
  lemma EntriesOfLossless(line: seq<string>)
    requires |line| > 0
    ensures TokensOf(EntriesOf(line)) == line[1..]
    ensures forall j :: 0 <= j < |EntriesOf(line)| ==> WellFormed(EntriesOf(line)[j])
  {
  }

  /** The row number is never looked at: lines that differ only in it give
      the same cells. */
  lemma RowNumberIgnored(line: seq<string>, number: string)
    requires |line| > 0
    ensures EntriesOf([number] + line[1..]) == EntriesOf(line)
  {
  }

  /** The position of the last occurrence of `name` in `header`, or -1. */
  function LastIndex(header: seq<string>, name: string): (i: int)
    ensures -1 <= i < |header|
    ensures i == -1 <==> name !in header
    ensures 0 <= i ==> header[i] == name
    ensures 0 <= i ==> forall j :: i < j < |header| ==> header[j] != name
  {
    if header == [] then -1
    else if header[|header| - 1] == name then |header| - 1
    else LastIndex(header[..|header| - 1], name)
  }

  /** The column map of a header line: each name on the line maps to the
      last position it occurs at, so a repeated name's later position wins. */
  function ColumnMapOf(header: seq<string>): (m: map<string, nat>)
    ensures forall name :: name in m <==> name in header
    ensures forall name :: name in m ==> m[name] == LastIndex(header, name)
  {
    if header == [] then map[]
    else
      var init := header[..|header| - 1];
      assert header == init + [header[|header| - 1]];
      ColumnMapOf(init)[header[|header| - 1] := |header| - 1]
  }

  /** Builds the column map of a header line, position by position. */
  method ColumnIndex(header: seq<string>) returns (m: map<string, nat>)
    ensures m == ColumnMapOf(header)
    ensures m.Keys == set name | name in header
  {
    m := map[];
    var i := 0;
    while i < |header|
      invariant 0 <= i <= |header|
      invariant m == ColumnMapOf(header[..i])
    {
      assert header[..i + 1][..i] == header[..i];
      m := m[header[i] := i];
      i := i + 1;
    }
    assert header[..i] == header;
  }

  /** Builds the cells of one raw data line, skipping its row number. */
  method ConvertLine(tokens: seq<string>) returns (entries: seq<Entry>)
    ensures entries == EntriesOf(tokens)
  {
    entries := [];
    var j := 1;
    while j < |tokens|
      invariant 1 <= j
      invariant |tokens| > 0 ==> j <= |tokens| && entries == MapEntries(tokens[1..j])
      invariant |tokens| == 0 ==> entries == []
    {
      var token := tokens[j];
      var entry := if token == DefaultToken then Entry("", true) else Entry(token, false);
      assert tokens[1..j + 1][..j - 1] == tokens[1..j];
      entries := entries + [entry];
      j := j + 1;
    }
  }

  /** One data row: its cells, and the column map shared by all rows. */
  datatype Row = Row(entries: seq<Entry>, columns: map<string, nat>) {

    function Size(): (n: nat) {
      |entries|
    }

    /** The cell at a column position; the position must be within the row. */
    function At(column: nat): (e: Entry)
      requires column < Size()
      ensures e == entries[column]
    {
      entries[column]
    }

    /** The cell under a column name: the name must be a column, and the row
        must reach the column's position. */
    function Named(name: string): (e: Entry)
      requires name in columns && columns[name] < Size()
      ensures e == At(columns[name])
    {
      entries[columns[name]]
    }

    function AsStr(column: nat): (s: string)
      requires column < Size()
      ensures s == At(column).data
    {
      At(column).data
    }

    function AsStrNamed(name: string): (s: string)
      requires name in columns && columns[name] < Size()
      ensures s == AsStr(columns[name])
    {
      Named(name).data
    }

    function AsInt(column: nat): (r: int32)
      requires column < Size() && InInt32(DecimalPrefixValue(AsStr(column)))
      ensures r as int == DecimalPrefixValue(AsStr(column))
    {
      Atoi(At(column).data)
    }

    function AsIntNamed(name: string): (r: int32)
      requires name in columns && columns[name] < Size()
      requires InInt32(DecimalPrefixValue(AsStrNamed(name)))
      ensures r == AsInt(columns[name])
    {
      Atoi(Named(name).data)
    }
  }

  /** A row built from a data line has one cell per token after the row
      number, and none for an empty line. */
  lemma RowSizeOfLine(line: seq<string>, columns: map<string, nat>)
    ensures Row(EntriesOf(line), columns).Size() == if |line| == 0 then 0 else |line| - 1
  {
  }

  /** The cell at position `j` of a row built from a data line is read from
      token `j + 1`, and it is a default cell exactly when that token is the
      marker. */
  lemma RowAtOfLine(line: seq<string>, columns: map<string, nat>, j: nat)
    requires j < |EntriesOf(line)|
    ensures Row(EntriesOf(line), columns).At(j) == EntryOf(line[j + 1])
    ensures Row(EntriesOf(line), columns).At(j).isDefault <==> line[j + 1] == DefaultToken
  {
  }

  /** The text at position `j` of a row built from a data line is empty when
      token `j + 1` is the marker, and that token otherwise. */
  lemma RowAsStrOfLine(line: seq<string>, columns: map<string, nat>, j: nat)
    requires j < |EntriesOf(line)|
    ensures line[j + 1] == DefaultToken ==> Row(EntriesOf(line), columns).AsStr(j) == ""
    ensures line[j + 1] != DefaultToken ==> Row(EntriesOf(line), columns).AsStr(j) == line[j + 1]
  {
  }

  /** The rows of a raw table: one per raw line from 3 on, in order. */
  function RowsOf(raw: seq<seq<string>>, columns: map<string, nat>): (rs: seq<Row>)
    requires |raw| >= 3
  {
    seq(|raw| - 3, k requires 0 <= k < |raw| - 3 => Row(EntriesOf(raw[k + 3]), columns))
  }

  /** A 2DA table built once from a raw table and only read afterwards. */
  class TwoDA {
    var columnNames: map<string, nat>
    var rows: seq<Row>
    /** The raw table this one was built from (not kept by the program). */
    ghost var raw: seq<seq<string>>

    ghost predicate Valid()
      reads this
    {
      && |raw| >= 3
      && columnNames == ColumnMapOf(raw[2])
      && rows == RowsOf(raw, columnNames)
    }

    constructor (raw: seq<seq<string>>)
      requires |raw| >= 3
      ensures Valid() && this.raw == raw
      ensures columnNames == ColumnMapOf(raw[2])
      ensures |rows| == |raw| - 3
      ensures forall k :: 0 <= k < |rows| ==> rows[k] == Row(EntriesOf(raw[k + 3]), columnNames)
    {
      this.raw := raw;
      columnNames := map[];
      rows := [];
      new;
      columnNames := ColumnIndex(raw[2]);
      var i := 3;
      while i < |raw|
        invariant 3 <= i <= |raw|
        invariant this.raw == raw && columnNames == ColumnMapOf(raw[2])
        invariant |rows| == i - 3
        invariant forall k :: 0 <= k < i - 3 ==> rows[k] == Row(EntriesOf(raw[k + 3]), columnNames)
      {
        var entries := ConvertLine(raw[i]);
        rows := rows + [Row(entries, columnNames)];
        i := i + 1;
      }
    }

    /** The number of rows: the raw line count less the three header lines. */
    function Size(): (n: nat)
      reads this
      requires Valid()
      ensures n == |raw| - 3
    {
      |rows|
    }

    /** The token a cell was read from. */
    ghost function Token(row: nat, column: nat): string
      reads this
      requires Valid()
      requires row < |rows| && column < rows[row].Size()
    {
      raw[row + 3][column + 1]
    }

    /** Row `i` holds the cells of raw line `i + 3` and the shared column map. */
    function At(i: nat): (r: Row)
      reads this
      requires Valid()
      requires i < Size()
      ensures r.entries == EntriesOf(raw[i + 3])
      ensures r.columns == columnNames
    {
      rows[i]
    }

    /** The text of a cell: empty for a default cell, otherwise its token. */
    function AsStr(row: nat, column: nat): (s: string)
      reads this
      requires Valid()
      requires row < |rows| && column < rows[row].Size()
      ensures Token(row, column) == DefaultToken ==> s == ""
      ensures Token(row, column) != DefaultToken ==> s == Token(row, column)
    {
      rows[row].AsStr(column)
    }

    /** The text under a column name is the text at the name's last position
        on the header line. */
    function AsStrNamed(row: nat, name: string): (s: string)
      reads this
      requires Valid()
      requires row < |rows|
      requires name in columnNames && columnNames[name] < rows[row].Size()
      ensures 0 <= LastIndex(raw[2], name) < rows[row].Size()
      ensures s == AsStr(row, LastIndex(raw[2], name))
    {
      rows[row].AsStrNamed(name)
    }

    /** The integer value of a cell, read as `atoi` reads its text; a default
        cell reads as 0. */
    function AsInt(row: nat, column: nat): (r: int32)
      reads this
      requires Valid()
      requires row < |rows| && column < rows[row].Size()
      requires InInt32(DecimalPrefixValue(AsStr(row, column)))
      ensures r as int == DecimalPrefixValue(AsStr(row, column))
      ensures Token(row, column) == DefaultToken ==> r == 0
    {
      NoDigitsReadsZero("");
      rows[row].AsInt(column)
    }

    /** The integer under a column name is the integer at the name's last
        position on the header line. */
    function AsIntNamed(row: nat, name: string): (r: int32)
      reads this
      requires Valid()
      requires row < |rows|
      requires name in columnNames && columnNames[name] < rows[row].Size()
      requires InInt32(DecimalPrefixValue(AsStrNamed(row, name)))
      ensures 0 <= LastIndex(raw[2], name) < rows[row].Size()
      ensures r == AsInt(row, LastIndex(raw[2], name))
    {
      rows[row].AsIntNamed(name)
    }

    /** The column map: exactly the names on the header line, each at its last
        position, and the very map every row looks names up in. */
    function GetColumnNames(): (m: map<string, nat>)
      reads this
      requires Valid()
      ensures forall name :: name in m <==> name in raw[2]
      ensures forall name :: name in m ==> m[name] == LastIndex(raw[2], name)
      ensures forall k :: 0 <= k < |rows| ==> rows[k].columns == m
    {
      columnNames
    }
  }

  /** A table with columns `Label` and `Value` and two rows, the second of
      which leaves `Label` at its default. */
  lemma TwoRowTable(t: TwoDA)
    requires t.Valid()
    requires t.raw == [["IGNORED"], ["IGNORED"], ["Label", "Value"], ["0", "Foo", "10"], ["1", "****", "20"]]
    ensures t.Size() == 2
    ensures t.GetColumnNames() == map["Label" := 0, "Value" := 1]
    ensures t.AsStrNamed(0, "Label") == "Foo"
    ensures InInt32(DecimalPrefixValue(t.AsStrNamed(0, "Value"))) && t.AsIntNamed(0, "Value") == 10
    ensures t.At(1).Named("Label").isDefault && t.AsStrNamed(1, "Label") == ""
    ensures InInt32(DecimalPrefixValue(t.AsStrNamed(1, "Value"))) && t.AsIntNamed(1, "Value") == 20
  {
    assert t.columnNames == map["Label" := 0, "Value" := 1];
    assert t.rows[0].entries == [Entry("Foo", false), Entry("10", false)];
    assert t.rows[1].entries == [Entry("", true), Entry("20", false)];
    DecimalRoundTrip(10);
    assert Decimal(10) == "10";
    DecimalRoundTrip(20);
    assert Decimal(20) == "20";
  }
}
