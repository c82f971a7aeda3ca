/** The dashboard queries of the HR service (backend/services/hr_service.py):
    the archive worksheet filtered by year and month, the approval counts
    and the reimbursement total of each employee. */
module HrDashboard {
  import opened Common
  import opened Frames

  // ---------------------------------------------------------------------
  // _get_filtered_data
  // ---------------------------------------------------------------------

  const DoubledOutput: string := "\\output\\output\\"
  const SingleOutput: string := "\\output\\"

  /** A truthy argument: given and not the empty string. */
  predicate Given(arg: Option<string>)
  {
    arg.Some? && arg.value != ""
  }

  /** `df.empty`: the frame has no column or no row. */
  predicate IsEmpty(t: Table)
  {
    t.header == [] || t.rows == []
  }

  /** `pd.DataFrame()` */
  const EmptyTable: Table := Table([], [])

  /** An image path with the doubled output folder collapsed; a path
      without it is kept as it is. */
  function FixPath(s: string): string
  {
    if Contains(s, DoubledOutput) then ReplaceAll(s, DoubledOutput, SingleOutput) else s
  }

  /** The guard only saves work: the repair is `str.replace` on every path. */
  lemma FixPathIsReplace(s: string)
    ensures FixPath(s) == ReplaceAll(s, DoubledOutput, SingleOutput)
  {
    if !Contains(s, DoubledOutput) {
      ReplaceAllAbsent(s, DoubledOutput, SingleOutput);
    }
  }

  /** Every row with its cell in column `i` rewritten by `f`; a row too
      short to hold that cell is kept. */
  function MapColumn(rows: seq<seq<string>>, i: nat, f: string -> string): (r: seq<seq<string>>)
    ensures |r| == |rows|
    ensures forall k :: 0 <= k < |rows| ==> |r[k]| == |rows[k]|
    ensures forall k, j :: 0 <= k < |rows| && 0 <= j < |rows[k]| ==>
      r[k][j] == (if j == i then f(rows[k][j]) else rows[k][j])
  {
    seq(|rows|, k requires 0 <= k < |rows| => if i < |rows[k]| then rows[k][i := f(rows[k][i])] else rows[k])
  }

  /** The Image_name column with every path repaired; a table without that
      column is kept. */
  function RepairImagePaths(t: Table): (r: Table)
    ensures r.header == t.header && |r.rows| == |t.rows|
  {
    match IndexOf(t.header, "Image_name")
    case None => t
    case Some(i) => Table(t.header, MapColumn(t.rows, i, FixPath))
  }

  /** `.astype(str).str.contains(pattern, case=False)` on the cell in
      column i. */
  predicate Matches(row: seq<string>, i: nat, pattern: string)
  {
    Contains(Lower(CellAt(row, i)), Lower(pattern))
  }

  /** The rows whose cell in column i contains the pattern, in order. */
  function KeepMatching(rows: seq<seq<string>>, i: nat, pattern: string): seq<seq<string>>
  {
    Filter(rows, row => Matches(row, i, pattern))
  }

  /** _get_filtered_data over the archive worksheet as read: None when the
      read raises (a worksheet without a single row). */
  function FilteredData(read: SheetRead, year: Option<string>, month: Option<string>): (r: Option<Table>)
    ensures r.None? <==> read.Unreadable?
    ensures read.NoSheet? || (read.Read? && IsEmpty(read.table)) ==> r == Some(EmptyTable)
    ensures read.Read? && !IsEmpty(read.table) ==>
      r.Some? && r.value.header == read.table.header && |r.value.rows| <= |read.table.rows|
  {
    match read
    case Unreadable => None
    case NoSheet => Some(EmptyTable)
    case Read(t) =>
      if IsEmpty(t) then Some(EmptyTable)
      else
        var repaired := RepairImagePaths(t);
        match IndexOf(repaired.header, "Month Year")
        case None => Some(repaired)
        case Some(i) =>
          if Given(year) && Given(month) then
            Some(Table(repaired.header, KeepMatching(repaired.rows, i, year.value + "-" + month.value)))
          else if Given(year) then
            Some(Table(repaired.header, KeepMatching(repaired.rows, i, year.value)))
          else
            Some(repaired)
  }

  /** The rows kept: with a year and a month, those whose Month Year
      contains "year-month" ignoring case; with a year only, those that
      contain the year; with a month only, or without a Month Year column,
      every row. Only the Image_name cells are rewritten. */
  lemma FilteredRows(t: Table, year: Option<string>, month: Option<string>, row: seq<string>)
    requires !IsEmpty(t)
    ensures var r := FilteredData(Read(t), year, month).value;
      var all := RepairImagePaths(t).rows;
      && ("Month Year" !in t.header || !Given(year) ==> r.rows == all)
      && ("Month Year" in t.header && Given(year) && Given(month) ==>
            (row in r.rows <==> row in all && Matches(row, IndexOf(t.header, "Month Year").value, year.value + "-" + month.value)))
      && ("Month Year" in t.header && Given(year) && !Given(month) ==>
            (row in r.rows <==> row in all && Matches(row, IndexOf(t.header, "Month Year").value, year.value)))
  {
  }

  /** The repair rewrites the Image_name cells with `str.replace` and
      leaves every other cell, and every path without the doubled folder,
      as it was. */
  lemma RepairSpec(t: Table, k: nat, j: nat)
    requires k < |t.rows| && j < |t.rows[k]|
    ensures var r := RepairImagePaths(t).rows;
      && |r[k]| == |t.rows[k]|
      && (j < |t.header| && t.header[j] == "Image_name" && (forall c :: 0 <= c < j ==> t.header[c] != "Image_name") ==>
            r[k][j] == ReplaceAll(t.rows[k][j], DoubledOutput, SingleOutput))
      && (j >= |t.header| || t.header[j] != "Image_name" || !Contains(t.rows[k][j], DoubledOutput) ==>
            r[k][j] == t.rows[k][j])
  {
    FixPathIsReplace(t.rows[k][j]);
    var idx := IndexOf(t.header, "Image_name");
    if idx.Some? && j < |t.header| && t.header[j] == "Image_name" && (forall c :: 0 <= c < j ==> t.header[c] != "Image_name") {
      assert idx.value == j;
    }
  }

  // ---------------------------------------------------------------------
  // get_dashboard_metrics
  // ---------------------------------------------------------------------

  datatype Metrics = Metrics(totalReceipts: nat, totalApprovals: nat, pendingApprovals: nat, rejectedReceipts: nat)

  /** The number of rows whose cell in column i is `value`. */
  function CountWhere(rows: seq<seq<string>>, i: nat, value: string): (n: nat)
    ensures n <= |rows|
    ensures n == |Filter(rows, row => CellAt(row, i) == value)|
  {
    if rows == [] then 0 else (if CellAt(rows[0], i) == value then 1 else 0) + CountWhere(rows[1..], i, value)
  }

  /** Rows with "Yes" and rows with "No" in one column are different rows. */
  lemma {:induction false} YesNoBounded(rows: seq<seq<string>>, i: nat)
    ensures CountWhere(rows, i, "Yes") + CountWhere(rows, i, "No") <= |rows|
  {
    if rows != [] {
      YesNoBounded(rows[1..], i);
    }
  }

  /** get_dashboard_metrics: None when the read raises or a column it needs
      is missing; zeros for empty data. */
  function DashboardMetrics(read: SheetRead, year: Option<string>, month: Option<string>): (r: Option<Metrics>)
    ensures read.Unreadable? ==> r.None?
    ensures r.Some? ==> r.value.totalApprovals <= r.value.totalReceipts &&
                        r.value.rejectedReceipts <= r.value.totalReceipts &&
                        r.value.pendingApprovals <= r.value.totalReceipts
  {
    match FilteredData(read, year, month)
    case None => None
    case Some(t) =>
      if IsEmpty(t) then Some(Metrics(0, 0, 0, 0))
      else
        match (IndexOf(t.header, "Eligible for Reimbursement"), IndexOf(t.header, "Category"))
        case (Some(e), Some(c)) =>
          Some(Metrics(|t.rows|, CountWhere(t.rows, e, "Yes"), CountWhere(t.rows, c, "3"), CountWhere(t.rows, e, "No")))
        case _ => None
  }

  /** The counts: all zero without data; otherwise the row count, the rows
      eligible ("Yes"), those rejected ("No") and those of category 3, and
      no row is both approved and rejected. */
  lemma MetricsSpec(read: SheetRead, year: Option<string>, month: Option<string>)
    ensures var r := DashboardMetrics(read, year, month);
      && (read.NoSheet? ==> r == Some(Metrics(0, 0, 0, 0)))
      && (r.Some? ==> r.value.totalApprovals + r.value.rejectedReceipts <= r.value.totalReceipts)
      && (FilteredData(read, year, month).Some? && !IsEmpty(FilteredData(read, year, month).value) ==>
            var t := FilteredData(read, year, month).value;
            (r.Some? <==> "Eligible for Reimbursement" in t.header && "Category" in t.header) &&
            (r.Some? ==> r.value.totalReceipts == |t.rows| &&
                         r.value.totalApprovals == CountWhere(t.rows, IndexOf(t.header, "Eligible for Reimbursement").value, "Yes") &&
                         r.value.rejectedReceipts == CountWhere(t.rows, IndexOf(t.header, "Eligible for Reimbursement").value, "No") &&
                         r.value.pendingApprovals == CountWhere(t.rows, IndexOf(t.header, "Category").value, "3")))
  {
    var f := FilteredData(read, year, month);
    if f.Some? && !IsEmpty(f.value) && "Eligible for Reimbursement" in f.value.header {
      YesNoBounded(f.value.rows, IndexOf(f.value.header, "Eligible for Reimbursement").value);
    }
  }

  // ---------------------------------------------------------------------
  // get_employee_reimbursements
  // ---------------------------------------------------------------------

  /** One row of the summary: an (Emp ID, Emp Name) pair and its total. */
  datatype EmployeeTotal = EmployeeTotal(empId: string, name: string, total: real)

  datatype Reimbursements = Reimbursements(totalEmployees: nat, employees: seq<EmployeeTotal>)

  function Key(g: EmployeeTotal): (string, string)
  {
    (g.empId, g.name)
  }

  /** Python's `<` on strings: code point by code point. */
  predicate StrLess(a: string, b: string)
  {
    if a == [] then b != []
    else if b == [] then false
    else if a[0] != b[0] then a[0] < b[0]
    else StrLess(a[1..], b[1..])
  }

  lemma {:induction false} StrLessIrreflexive(a: string)
    ensures !StrLess(a, a)
  {
    if a != [] {
      StrLessIrreflexive(a[1..]);
    }
  }

  lemma {:induction false} StrLessTransitive(a: string, b: string, c: string)
    requires StrLess(a, b) && StrLess(b, c)
    ensures StrLess(a, c)
  {
    if a != [] && b != [] && c != [] && a[0] == b[0] && b[0] == c[0] {
      StrLessTransitive(a[1..], b[1..], c[1..]);
    }
  }

  lemma {:induction false} StrLessTotal(a: string, b: string)
    requires a != b
    ensures StrLess(a, b) || StrLess(b, a)
  {
    if a != [] && b != [] && a[0] == b[0] {
      assert a == [a[0]] + a[1..] && b == [b[0]] + b[1..];
      StrLessTotal(a[1..], b[1..]);
    }
  }

  /** The order of the grouped keys: by Emp ID, then by Emp Name. */
  predicate KeyLess(k: (string, string), l: (string, string))
  {
    StrLess(k.0, l.0) || (k.0 == l.0 && StrLess(k.1, l.1))
  }

  lemma KeyLessIrreflexive(k: (string, string))
    ensures !KeyLess(k, k)
  {
    StrLessIrreflexive(k.0);
    StrLessIrreflexive(k.1);
  }

  lemma KeyLessTransitive(k: (string, string), l: (string, string), m: (string, string))
    requires KeyLess(k, l) && KeyLess(l, m)
    ensures KeyLess(k, m)
  {
    if StrLess(k.0, l.0) && StrLess(l.0, m.0) {
      StrLessTransitive(k.0, l.0, m.0);
    } else if k.0 == l.0 && l.0 == m.0 {
      StrLessTransitive(k.1, l.1, m.1);
    }
  }

  lemma KeyLessTotal(k: (string, string), l: (string, string))
    requires k != l
    ensures KeyLess(k, l) || KeyLess(l, k)
  {
    if k.0 != l.0 {
      StrLessTotal(k.0, l.0);
    } else {
      StrLessTotal(k.1, l.1);
    }
  }

  /** The groups are in increasing key order, so no key appears twice. */
  predicate Sorted(groups: seq<EmployeeTotal>)
  {
    forall i, j :: 0 <= i < j < |groups| ==> KeyLess(Key(groups[i]), Key(groups[j]))
  }

  function KeysOf(groups: seq<EmployeeTotal>): set<(string, string)>
  {
    set g | g in groups :: Key(g)
  }

  /** The total of the group with key k, 0 when there is none. */
  function TotalFor(groups: seq<EmployeeTotal>, k: (string, string)): real
  {
    if groups == [] then 0.0
    else if Key(groups[0]) == k then groups[0].total
    else TotalFor(groups[1..], k)
  }

  function SumTotals(groups: seq<EmployeeTotal>): real
  {
    if groups == [] then 0.0 else groups[0].total + SumTotals(groups[1..])
  }

  /** A key no group has totals 0. */
  lemma {:induction false} TotalForAbsent(groups: seq<EmployeeTotal>, k: (string, string))
    requires k !in KeysOf(groups)
    ensures TotalFor(groups, k) == 0.0
  {
    if groups != [] {
      assert groups[0] in groups;
      assert KeysOf(groups[1..]) <= KeysOf(groups) by {
        forall g | g in groups[1..] ensures g in groups { }
      }
      TotalForAbsent(groups[1..], k);
    }
  }

  lemma KeysOfCons(g: EmployeeTotal, rest: seq<EmployeeTotal>)
    ensures KeysOf([g] + rest) == {Key(g)} + KeysOf(rest)
  {
    var gs := [g] + rest;
    forall h | h in gs ensures h == g || h in rest {
      var j :| 0 <= j < |gs| && gs[j] == h;
      if j > 0 { assert rest[j - 1] == h; }
    }
    assert g in gs;
    forall h | h in rest ensures h in gs {
      var j :| 0 <= j < |rest| && rest[j] == h;
      assert gs[j + 1] == h;
    }
  }

  lemma SortedTail(groups: seq<EmployeeTotal>)
    requires Sorted(groups) && groups != []
    ensures Sorted(groups[1..])
  {
    var rest := groups[1..];
    forall i, j | 0 <= i < j < |rest| ensures KeyLess(Key(rest[i]), Key(rest[j])) {
      assert rest[i] == groups[i + 1] && rest[j] == groups[j + 1];
    }
  }

  /** Every key of a sorted list is above a key below its first one. */
  lemma SortedAbove(groups: seq<EmployeeTotal>, k: (string, string))
    requires Sorted(groups) && groups != [] && KeyLess(k, Key(groups[0]))
    ensures forall l :: l in KeysOf(groups) ==> KeyLess(k, l)
    ensures k !in KeysOf(groups)
  {
    forall l | l in KeysOf(groups) ensures KeyLess(k, l) {
      var g :| g in groups && Key(g) == l;
      var j :| 0 <= j < |groups| && groups[j] == g;
      if j > 0 {
        KeyLessTransitive(k, Key(groups[0]), l);
      }
    }
    KeyLessIrreflexive(k);
  }

  /** The first key of a sorted list is below all the others. */
  lemma SortedHeadBelow(groups: seq<EmployeeTotal>)
    requires Sorted(groups) && groups != []
    ensures forall l :: l in KeysOf(groups[1..]) ==> KeyLess(Key(groups[0]), l)
  {
    forall l | l in KeysOf(groups[1..]) ensures KeyLess(Key(groups[0]), l) {
      var g :| g in groups[1..] && Key(g) == l;
      var m :| 0 <= m < |groups| - 1 && groups[1..][m] == g;
      assert groups[m + 1] == g;
    }
  }

  /** A group below every key of a sorted list can go in front of it. */
  lemma SortedCons(g: EmployeeTotal, rest: seq<EmployeeTotal>)
    requires Sorted(rest)
    requires forall l :: l in KeysOf(rest) ==> KeyLess(Key(g), l)
    ensures Sorted([g] + rest)
  {
    var r := [g] + rest;
    forall i, j | 0 <= i < j < |r| ensures KeyLess(Key(r[i]), Key(r[j])) {
      assert r[j] == rest[j - 1];
      if i > 0 {
        assert r[i] == rest[i - 1];
      } else {
        assert Key(rest[j - 1]) in KeysOf(rest) by { assert rest[j - 1] in rest; }
      }
    }
  }

  /** One row's amount added to the group of its key, or a new group at
      the key's place in the order. */
  function AddTo(groups: seq<EmployeeTotal>, k: (string, string), amount: real): seq<EmployeeTotal>
  {
    if groups == [] then [EmployeeTotal(k.0, k.1, amount)]
    else if Key(groups[0]) == k then [groups[0].(total := groups[0].total + amount)] + groups[1..]
    else if KeyLess(k, Key(groups[0])) then [EmployeeTotal(k.0, k.1, amount)] + groups
    else [groups[0]] + AddTo(groups[1..], k, amount)
  }

  /** Adding a row adds its key. */
  lemma {:induction false} AddToKeys(groups: seq<EmployeeTotal>, k: (string, string), amount: real)
    ensures KeysOf(AddTo(groups, k, amount)) == KeysOf(groups) + {k}
  {
    var added := EmployeeTotal(k.0, k.1, amount);
    if groups == [] {
      KeysOfCons(added, []);
    } else {
      var first := groups[0];
      var rest := groups[1..];
      assert groups == [first] + rest;
      KeysOfCons(first, rest);
      if Key(first) == k {
        KeysOfCons(first.(total := first.total + amount), rest);
      } else if KeyLess(k, Key(first)) {
        KeysOfCons(added, groups);
      } else {
        AddToKeys(rest, k, amount);
        KeysOfCons(first, AddTo(rest, k, amount));
      }
    }
  }

  /** Adding a row keeps the groups in key order. */
  lemma {:induction false} AddToSorted(groups: seq<EmployeeTotal>, k: (string, string), amount: real)
    requires Sorted(groups)
    ensures Sorted(AddTo(groups, k, amount))
  {
    if groups != [] {
      var first := groups[0];
      var rest := groups[1..];
      SortedTail(groups);
      SortedHeadBelow(groups);
      if Key(first) == k {
        SortedCons(first.(total := first.total + amount), rest);
      } else if KeyLess(k, Key(first)) {
        SortedAbove(groups, k);
        SortedCons(EmployeeTotal(k.0, k.1, amount), groups);
      } else {
        KeyLessTotal(k, Key(first));
        AddToSorted(rest, k, amount);
        AddToKeys(rest, k, amount);
        SortedCons(first, AddTo(rest, k, amount));
      }
    }
  }

  /** Adding a row adds its amount to its key's total and to the sum of the
      totals, and no other key's total moves. */
  lemma {:induction false} AddToTotals(groups: seq<EmployeeTotal>, k: (string, string), amount: real)
    requires Sorted(groups)
    ensures TotalFor(AddTo(groups, k, amount), k) == TotalFor(groups, k) + amount
    ensures forall l :: l != k ==> TotalFor(AddTo(groups, k, amount), l) == TotalFor(groups, l)
    ensures SumTotals(AddTo(groups, k, amount)) == SumTotals(groups) + amount
  {
    if groups != [] {
      var first := groups[0];
      var rest := groups[1..];
      if Key(first) == k {
        assert AddTo(groups, k, amount)[1..] == rest;
      } else if KeyLess(k, Key(first)) {
        SortedAbove(groups, k);
        TotalForAbsent(groups, k);
        assert AddTo(groups, k, amount)[1..] == groups;
      } else {
        SortedTail(groups);
        AddToTotals(rest, k, amount);
        assert AddTo(groups, k, amount)[1..] == AddTo(rest, k, amount);
      }
    }
  }

  /** The amount of a row: `pd.to_numeric(errors='coerce').fillna(0)`. */
  function AmountOf(cell: string, parseNumber: string -> Option<real>): real
  {
    match parseNumber(cell)
    case None => 0.0
    case Some(x) => x
  }

  /** The columns the summary reads: Emp ID, Emp Name and the amount. */
  datatype SummaryColumns = SummaryColumns(empId: nat, name: nat, amount: nat)

  function RowKey(row: seq<string>, cols: SummaryColumns): (string, string)
  {
    (CellAt(row, cols.empId), CellAt(row, cols.name))
  }

  /** The groupby-sum, one row at a time. */
  function Grouped(rows: seq<seq<string>>, cols: SummaryColumns, parseNumber: string -> Option<real>): (r: seq<EmployeeTotal>)
    ensures Sorted(r)
  {
    if rows == [] then []
    else
      var last := rows[|rows| - 1];
      var before := Grouped(rows[..|rows| - 1], cols, parseNumber);
      AddToSorted(before, RowKey(last, cols), AmountOf(CellAt(last, cols.amount), parseNumber));
      AddTo(before, RowKey(last, cols), AmountOf(CellAt(last, cols.amount), parseNumber))
  }

  /** The sum of the amounts of the rows with key k. */
  function AmountFor(rows: seq<seq<string>>, cols: SummaryColumns, parseNumber: string -> Option<real>, k: (string, string)): real
  {
    if rows == [] then 0.0
    else
      var last := rows[|rows| - 1];
      AmountFor(rows[..|rows| - 1], cols, parseNumber, k) +
        (if RowKey(last, cols) == k then AmountOf(CellAt(last, cols.amount), parseNumber) else 0.0)
  }

  /** The sum of the amounts of all rows. */
  function SumAmounts(rows: seq<seq<string>>, cols: SummaryColumns, parseNumber: string -> Option<real>): real
  {
    if rows == [] then 0.0
    else SumAmounts(rows[..|rows| - 1], cols, parseNumber) + AmountOf(CellAt(rows[|rows| - 1], cols.amount), parseNumber)
  }

  /** The keys of the rows. */
  function RowKeys(rows: seq<seq<string>>, cols: SummaryColumns): set<(string, string)>
  {
    set row | row in rows :: RowKey(row, cols)
  }

  /** The summary has one group per distinct (Emp ID, Emp Name) pair of the
      rows, in key order; each group's total is the sum of its rows'
      amounts, and the totals add up to the amounts of all rows. */
  lemma GroupedSpec(rows: seq<seq<string>>, cols: SummaryColumns, parseNumber: string -> Option<real>)
    ensures KeysOf(Grouped(rows, cols, parseNumber)) == RowKeys(rows, cols)
    ensures forall k :: TotalFor(Grouped(rows, cols, parseNumber), k) == AmountFor(rows, cols, parseNumber, k)
    ensures SumTotals(Grouped(rows, cols, parseNumber)) == SumAmounts(rows, cols, parseNumber)
  {
    GroupedKeys(rows, cols, parseNumber);
    GroupedTotals(rows, cols, parseNumber);
  }

  lemma {:induction false} GroupedKeys(rows: seq<seq<string>>, cols: SummaryColumns, parseNumber: string -> Option<real>)
    ensures KeysOf(Grouped(rows, cols, parseNumber)) == RowKeys(rows, cols)
  {
    if rows != [] {
      var init := rows[..|rows| - 1];
      var last := rows[|rows| - 1];
      GroupedKeys(init, cols, parseNumber);
      AddToKeys(Grouped(init, cols, parseNumber), RowKey(last, cols), AmountOf(CellAt(last, cols.amount), parseNumber));
      assert RowKeys(rows, cols) == RowKeys(init, cols) + {RowKey(last, cols)} by {
        assert rows == init + [last];
        forall row | row in rows ensures row in init || row == last { }
        forall row | row in init ensures row in rows { }
        assert last in rows;
      }
    }
  }

  lemma {:induction false} GroupedTotals(rows: seq<seq<string>>, cols: SummaryColumns, parseNumber: string -> Option<real>)
    ensures forall k :: TotalFor(Grouped(rows, cols, parseNumber), k) == AmountFor(rows, cols, parseNumber, k)
    ensures SumTotals(Grouped(rows, cols, parseNumber)) == SumAmounts(rows, cols, parseNumber)
  {
    if rows != [] {
      var init := rows[..|rows| - 1];
      var last := rows[|rows| - 1];
      GroupedTotals(init, cols, parseNumber);
      AddToTotals(Grouped(init, cols, parseNumber), RowKey(last, cols), AmountOf(CellAt(last, cols.amount), parseNumber));
    }
  }

  /** In a sorted list the total of a group's key is that group's total. */
  lemma {:induction false} TotalForAt(groups: seq<EmployeeTotal>, i: nat)
    requires Sorted(groups) && i < |groups|
    ensures TotalFor(groups, Key(groups[i])) == groups[i].total
  {
    if i > 0 {
      assert KeyLess(Key(groups[0]), Key(groups[i]));
      KeyLessIrreflexive(Key(groups[i]));
      assert Sorted(groups[1..]) by {
        forall a, b | 0 <= a < b < |groups[1..]| ensures KeyLess(Key(groups[1..][a]), Key(groups[1..][b])) {
          assert groups[1..][a] == groups[a + 1] && groups[1..][b] == groups[b + 1];
        }
      }
      TotalForAt(groups[1..], i - 1);
    }
  }

  /** Sorted keys are distinct, so there are as many groups as keys. */
  lemma {:induction false} SortedCount(groups: seq<EmployeeTotal>)
    requires Sorted(groups)
    ensures |KeysOf(groups)| == |groups|
  {
    if groups != [] {
      var rest := groups[1..];
      assert groups == [groups[0]] + rest;
      SortedTail(groups);
      SortedCount(rest);
      KeysOfCons(groups[0], rest);
      SortedHeadBelow(groups);
      KeyLessIrreflexive(Key(groups[0]));
    }
  }

  /** get_employee_reimbursements: None when the read raises or a column it
      needs is missing; no employee for empty data. */
  function EmployeeReimbursements(read: SheetRead, year: Option<string>, month: Option<string>,
                                  parseNumber: string -> Option<real>): (r: Option<Reimbursements>)
    ensures read.Unreadable? ==> r.None?
    ensures r.Some? ==> r.value.totalEmployees == |r.value.employees| && Sorted(r.value.employees)
  {
    match FilteredData(read, year, month)
    case None => None
    case Some(t) =>
      if IsEmpty(t) then Some(Reimbursements(0, []))
      else
        match (IndexOf(t.header, "Reimbursement Amount"), IndexOf(t.header, "Emp ID"), IndexOf(t.header, "Emp Name"))
        case (Some(a), Some(e), Some(n)) =>
          var groups := Grouped(t.rows, SummaryColumns(e, n, a), parseNumber);
          Some(Reimbursements(|groups|, groups))
        case _ => None
  }

  /** The summary lists one employee per distinct (Emp ID, Emp Name) pair of
      the filtered rows, each with the sum of that pair's amounts, and the
      totals add up to the amounts of all filtered rows. */
  lemma ReimbursementsSpec(read: SheetRead, year: Option<string>, month: Option<string>,
                           parseNumber: string -> Option<real>)
    ensures var r := EmployeeReimbursements(read, year, month, parseNumber);
      var f := FilteredData(read, year, month);
      && (read.NoSheet? ==> r == Some(Reimbursements(0, [])))
      && (f.Some? && !IsEmpty(f.value) ==>
            var t := f.value;
            (r.Some? <==> "Reimbursement Amount" in t.header && "Emp ID" in t.header && "Emp Name" in t.header) &&
            (r.Some? ==>
              var cols := SummaryColumns(IndexOf(t.header, "Emp ID").value, IndexOf(t.header, "Emp Name").value,
                                         IndexOf(t.header, "Reimbursement Amount").value);
              && r.value.totalEmployees == |RowKeys(t.rows, cols)|
              && KeysOf(r.value.employees) == RowKeys(t.rows, cols)
              && (forall i :: 0 <= i < |r.value.employees| ==>
                    r.value.employees[i].total == AmountFor(t.rows, cols, parseNumber, Key(r.value.employees[i])))
              && SumTotals(r.value.employees) == SumAmounts(t.rows, cols, parseNumber)))
  {
    var r := EmployeeReimbursements(read, year, month, parseNumber);
    var f := FilteredData(read, year, month);
    if f.Some? && !IsEmpty(f.value) && r.Some? {
      var t := f.value;
      var cols := SummaryColumns(IndexOf(t.header, "Emp ID").value, IndexOf(t.header, "Emp Name").value,
                                 IndexOf(t.header, "Reimbursement Amount").value);
      var groups := Grouped(t.rows, cols, parseNumber);
      assert r.value.employees == groups;
      GroupedSpec(t.rows, cols, parseNumber);
      SortedCount(groups);
      forall i | 0 <= i < |groups| ensures groups[i].total == AmountFor(t.rows, cols, parseNumber, Key(groups[i])) {
        TotalForAt(groups, i);
      }
    }
  }
}
