/** The tabular data the pipeline passes between its stages: pandas
    DataFrames with named columns, and worksheets read back as strings. */
module Frames {
  import opened Common

  type MonthNumber = m: int | 1 <= m <= 12 witness 1

  /** A calendar date; the pipeline's timestamps are always at midnight. */
  datatype Date = Date(year: nat, month: MonthNumber, day: nat)

  const MonthAbbreviations: seq<string> :=
    ["Jan", "Feb", "Mar", "Apr", "May", "Jun", "Jul", "Aug", "Sep", "Oct", "Nov", "Dec"]

  /** strftime('%b') */
  function MonthAbbreviation(m: MonthNumber): string
  {
    MonthAbbreviations[m - 1]
  }

  /** One DataFrame cell. `Missing` is every value pandas treats as missing
      (None, NaN, NaT). */
  datatype Value = Missing | Str(s: string) | Num(x: real) | Stamp(d: Date)

  /** A DataFrame row: column name to cell. */
  type Row = map<string, Value>

  /** A DataFrame: its column order and its rows. */
  datatype Frame = Frame(columns: seq<string>, rows: seq<Row>)

  /** `row.get(c)`: a column the row does not have reads as missing. */
  function Get(r: Row, c: string): Value
  {
    if c in r then r[c] else Missing
  }

  /** The text of a text cell; the cells this is applied to are text or missing. */
  function TextOf(v: Value): string
  {
    if v.Str? then v.s else ""
  }

  /** The column list after `df[c] = ...`: an existing column keeps its place,
      a new one goes last. */
  function AddColumnName(columns: seq<string>, c: string): (r: seq<string>)
    ensures c in r
    ensures forall x :: x in columns ==> x in r
    ensures |r| == |columns| || r == columns + [c]
  {
    if c in columns then columns else columns + [c]
  }

  /** `df[c] = <cell of each row>`. */
  function SetColumn(f: Frame, c: string, cell: Row -> Value): (g: Frame)
    ensures g.columns == AddColumnName(f.columns, c)
    ensures |g.rows| == |f.rows|
    ensures forall i :: 0 <= i < |f.rows| ==> g.rows[i] == f.rows[i][c := cell(f.rows[i])]
  {
    Frame(AddColumnName(f.columns, c),
          seq(|f.rows|, i requires 0 <= i < |f.rows| => f.rows[i][c := cell(f.rows[i])]))
  }

  /** `df.astype(str).values.tolist()`: every row, its cells in column order,
      each rendered by `show`. */
  function Render(f: Frame, show: Value -> string): (data: seq<seq<string>>)
    ensures |data| == |f.rows|
    ensures forall i :: 0 <= i < |data| ==> |data[i]| == |f.columns|
    ensures forall i, j :: 0 <= i < |data| && 0 <= j < |f.columns| ==>
      data[i][j] == show(Get(f.rows[i], f.columns[j]))
  {
    seq(|f.rows|, i requires 0 <= i < |f.rows| =>
      seq(|f.columns|, j requires 0 <= j < |f.columns| => show(Get(f.rows[i], f.columns[j]))))
  }

  /** A worksheet read into a DataFrame of strings: its header row and the
      rows below it. */
  datatype Table = Table(header: seq<string>, rows: seq<seq<string>>)

  /** The position of the first column with this name. */
  function IndexOf(xs: seq<string>, x: string): (r: Option<nat>)
    ensures r.None? <==> x !in xs
    ensures r.Some? ==> r.value < |xs| && xs[r.value] == x
    ensures r.Some? ==> forall j :: 0 <= j < r.value ==> xs[j] != x
  {
    if xs == [] then None
    else if xs[0] == x then Some(0)
    else match IndexOf(xs[1..], x)
      case None => None
      case Some(k) => Some(k + 1)
  }

  /** The cell in column i; a row shorter than the header reads as padded
      with empty cells, as the sheet client returns it. */
  function CellAt(row: seq<string>, i: nat): string
  {
    if i < |row| then row[i] else ""
  }

  /** The outcome of reading a worksheet into a DataFrame: the spreadsheet
      was not found (None), the worksheet holds no row at all (building the
      DataFrame from its first row raises), or the table. */
  datatype SheetRead = NoSheet | Unreadable | Read(table: Table)

  /** `pd.DataFrame(data[1:], columns=data[0])` over `get_all_values()`. */
  function SheetOf(values: seq<seq<string>>): (r: SheetRead)
    ensures r.Unreadable? <==> values == []
    ensures r.Read? ==> [r.table.header] + r.table.rows == values
  {
    if values == [] then Unreadable else Read(Table(values[0], values[1..]))
  }
}
