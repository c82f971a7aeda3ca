/** Reconciliation of the extracted receipts with the rosters, and the
    ledger writes to the archive worksheet
    (backend/modules/post_processing.py). The DataFrames are `Frame`s; the
    pandas conversions that are foreign code (number and date parsing,
    rendering values as text) are parameters. */
module PostProcessing {
  import opened Common
  import opened Frames

  // ---------------------------------------------------------------------
  // Ledger: push_to_sheet
  // ---------------------------------------------------------------------

  /** A worksheet of the archive spreadsheet: its cells, row by row. */
  class Worksheet {
    var values: seq<seq<string>>

    constructor (values: seq<seq<string>>)
      ensures this.values == values
    {
      this.values := values;
    }

    /** get_all_values */
    method GetAllValues() returns (v: seq<seq<string>>)
      ensures v == values
    {
      v := values;
    }

    /** clear */
    method Clear()
      modifies this
      ensures values == []
    {
      values := [];
    }

    /** append_rows: the rows go after the last row of the sheet. */
    method AppendRows(rows: seq<seq<string>>)
      modifies this
      ensures values == old(values) + rows
    {
      values := values + rows;
    }
  }

  /** The sheet after push_to_sheet: an empty sheet gets the header and the
      rows; a sheet whose header row is the columns gets the rows appended
      when appending; any other sheet is rewritten as the header and the rows. */
  function PushedSheet(existing: seq<seq<string>>, columns: seq<string>, data: seq<seq<string>>,
                       append: bool): seq<seq<string>>
  {
    if existing == [] then [columns] + data
    else if existing[0] == columns && append then existing + data
    else [columns] + data
  }

  /** push_to_sheet with the frame already rendered (`data` holds
      `df.astype(str).values.tolist()`). A missing spreadsheet is the null
      worksheet: the failure is printed and nothing changes. */
  method PushToSheet(ws: Worksheet?, columns: seq<string>, data: seq<seq<string>>, append: bool)
    modifies ws
    ensures ws != null ==> ws.values == PushedSheet(old(ws.values), columns, data, append)
  {
    if ws == null {
      return;
    }
    var existing := ws.GetAllValues();
    if existing == [] {
      ws.AppendRows([columns] + data);
      return;
    }
    if existing[0] == columns && append {
      ws.AppendRows(data);
      return;
    }
    ws.Clear();
    ws.AppendRows([columns] + data);
  }

  /** Whatever the case, the sheet's first row is the columns and it ends
      with the pushed rows; appending keeps the earlier content in front. */
  lemma PushedSheetShape(existing: seq<seq<string>>, columns: seq<string>, data: seq<seq<string>>, append: bool)
    ensures var s := PushedSheet(existing, columns, data, append);
      |s| >= |data| + 1 && s[0] == columns && s[|s| - |data|..] == data
    ensures existing != [] && existing[0] == columns && append ==>
      PushedSheet(existing, columns, data, append)[..|existing|] == existing
    ensures existing == [] || existing[0] != columns || !append ==>
      PushedSheet(existing, columns, data, append) == [columns] + data
  {
    var s := PushedSheet(existing, columns, data, append);
    if existing != [] && existing[0] == columns && append {
      assert s[|s| - |data|..] == data;
      assert s[..|existing|] == existing;
    } else {
      assert s[|s| - |data|..] == data;
    }
  }

  /** An overwrite is idempotent, and the result of an overwrite does not
      depend on what the sheet held. */
  lemma OverwriteIdempotent(existing: seq<seq<string>>, columns: seq<string>, data: seq<seq<string>>)
    ensures PushedSheet(PushedSheet(existing, columns, data, false), columns, data, false) ==
            PushedSheet(existing, columns, data, false)
    ensures PushedSheet(existing, columns, data, false) == PushedSheet([], columns, data, true)
  {
  }

  // ---------------------------------------------------------------------
  // fill_missing_amount_with_mode
  // ---------------------------------------------------------------------

  /** The lower-cased meal types whose missing amounts are filled, in the
      order they are filled. */
  const ModeMeals: seq<string> := ["special packed m", "special veg thali", "special non veg thali"]

  /** pd.to_numeric(errors='coerce') of one cell. */
  function NumericAmount(v: Value, parseNumber: string -> Option<real>): (r: Value)
    ensures r.Missing? || r.Num?
    ensures v.Num? ==> r == v
  {
    match v
    case Num(_) => v
    case Str(s) => (match parseNumber(s) case Some(x) => Num(x) case None => Missing)
    case _ => Missing
  }

  /** astype(str) of a meal cell: a missing meal becomes the text "nan". */
  function MealText(v: Value, show: Value -> string): string
  {
    match v
    case Missing => "nan"
    case Str(s) => s
    case _ => show(v)
  }

  /** The frame after the two conversions at the start of the step. */
  function Coerced(f: Frame, parseNumber: string -> Option<real>, show: Value -> string): Frame
  {
    SetColumn(SetColumn(f, "Amount", r => NumericAmount(Get(r, "Amount"), parseNumber)),
              "Meal", r => Str(MealText(Get(r, "Meal"), show)))
  }

  /** The mask: the amount is missing, or its text is longer than three
      characters (`showAmount` is str() of a float). */
  predicate Implausible(v: Value, showAmount: real -> string)
  {
    v.Missing? || (v.Num? && |showAmount(v.x)| > 3)
  }

  /** The lower-cased meal of a converted row. */
  function MealKey(r: Row): string
  {
    Lower(TextOf(Get(r, "Meal")))
  }

  /** The non-missing amounts of the rows with this lower-cased meal. */
  function MealAmounts(rows: seq<Row>, meal: string): (xs: seq<real>)
    ensures forall x :: x in xs ==> exists i :: 0 <= i < |rows| && MealKey(rows[i]) == meal && Get(rows[i], "Amount") == Num(x)
  {
    if rows == [] then []
    else
      var rest := MealAmounts(rows[1..], meal);
      assert forall x :: x in rest ==> exists i :: 0 <= i < |rows| && MealKey(rows[i]) == meal && Get(rows[i], "Amount") == Num(x) by {
        forall x | x in rest ensures exists i :: 0 <= i < |rows| && MealKey(rows[i]) == meal && Get(rows[i], "Amount") == Num(x) {
          var j :| 0 <= j < |rows[1..]| && MealKey(rows[1..][j]) == meal && Get(rows[1..][j], "Amount") == Num(x);
          assert rows[j + 1] == rows[1..][j];
        }
      }
      var v := Get(rows[0], "Amount");
      if MealKey(rows[0]) == meal && v.Num? then [v.x] + rest else rest
  }

  /** The candidate of `candidates` that occurs most often in xs, the
      smallest one on a tie. */
  function ModeAmong(candidates: seq<real>, xs: seq<real>): (m: real)
    requires candidates != []
    ensures m in candidates
    ensures forall y :: y in candidates ==>
      Count(xs, y) < Count(xs, m) || (Count(xs, y) == Count(xs, m) && m <= y)
  {
    if |candidates| == 1 then candidates[0]
    else
      var m := ModeAmong(candidates[1..], xs);
      assert forall y :: y in candidates ==> y == candidates[0] || y in candidates[1..];
      var c := candidates[0];
      if Count(xs, c) > Count(xs, m) || (Count(xs, c) == Count(xs, m) && c < m) then c else m
  }

  /** Series.mode().iloc[0]: the most frequent value, the smallest on a tie;
      None for an empty series (an empty mode). */
  function SmallestMode(xs: seq<real>): (m: Option<real>)
    ensures m.None? <==> xs == []
    ensures m.Some? ==> m.value in xs
    ensures m.Some? ==> forall y :: y in xs ==> Count(xs, y) <= Count(xs, m.value)
    ensures m.Some? ==> forall y :: y in xs && Count(xs, y) == Count(xs, m.value) ==> m.value <= y
  {
    if xs == [] then None else Some(ModeAmong(xs, xs))
  }

  /** The modes of the three meal types, computed before any fill. */
  function Modes(rows: seq<Row>): (ms: seq<Option<real>>)
    ensures |ms| == |ModeMeals|
  {
    seq(|ModeMeals|, k requires 0 <= k < |ModeMeals| => SmallestMode(MealAmounts(rows, ModeMeals[k])))
  }

  /** A converted row after the fills of the first k meal types. */
  function FilledUpTo(r: Row, flagged: bool, modes: seq<Option<real>>, k: nat): Row
    requires |modes| == |ModeMeals| && k <= |ModeMeals|
  {
    match IndexOf(ModeMeals, MealKey(r))
    case Some(j) =>
      if flagged && j < k && modes[j].Some? then r["Amount" := Num(modes[j].value)] else r
    case None => r
  }

  /** The frame fill_missing_amount_with_mode returns. */
  function ModeFilled(f: Frame, parseNumber: string -> Option<real>, show: Value -> string,
                      showAmount: real -> string): (g: Frame)
    ensures |g.rows| == |f.rows|
  {
    var c := Coerced(f, parseNumber, show);
    var modes := Modes(c.rows);
    Frame(c.columns, seq(|c.rows|, i requires 0 <= i < |c.rows| =>
      FilledUpTo(c.rows[i], Implausible(Get(c.rows[i], "Amount"), showAmount), modes, |ModeMeals|)))
  }

  /** One meal type's fill keeps a row's meal, so the fills of the first
      k + 1 types are those of the first k followed by the fill of type k. */
  lemma FilledStep(r: Row, flagged: bool, modes: seq<Option<real>>, k: nat)
    requires |modes| == |ModeMeals| && k < |ModeMeals|
    ensures MealKey(FilledUpTo(r, flagged, modes, k)) == MealKey(r)
    ensures FilledUpTo(r, flagged, modes, k + 1) ==
      var before := FilledUpTo(r, flagged, modes, k);
      if modes[k].Some? && flagged && MealKey(before) == ModeMeals[k] then before["Amount" := Num(modes[k].value)] else before
  {
    assert Get(r["Amount" := Num(0.0)], "Meal") == Get(r, "Meal");
    forall x: real ensures MealKey(r["Amount" := Num(x)]) == MealKey(r) {
      assert Get(r["Amount" := Num(x)], "Meal") == Get(r, "Meal");
    }
    match IndexOf(ModeMeals, MealKey(r))
    case Some(j) =>
      assert ModeMeals[j] == MealKey(r);
      if j != k {
        assert ModeMeals[k] != MealKey(r);
      }
    case None =>
      assert ModeMeals[k] != MealKey(r);
  }

  /** The loop over the three meal types: df.loc[mask & meal == t, 'Amount'] = mode. */
  method FillModes(rows0: seq<Row>, mask: seq<bool>, modes: seq<Option<real>>) returns (rows: seq<Row>)
    requires |mask| == |rows0| && |modes| == |ModeMeals|
    ensures |rows| == |rows0|
    ensures forall i :: 0 <= i < |rows| ==> rows[i] == FilledUpTo(rows0[i], mask[i], modes, |ModeMeals|)
  {
    rows := rows0;
    for k := 0 to |ModeMeals|
      invariant |rows| == |rows0|
      invariant forall i :: 0 <= i < |rows| ==> rows[i] == FilledUpTo(rows0[i], mask[i], modes, k)
    {
      forall i | 0 <= i < |rows| {
        FilledStep(rows0[i], mask[i], modes, k);
      }
      if modes[k].Some? {
        var mode := modes[k].value;
        rows := seq(|rows|, i requires 0 <= i < |rows| =>
          if mask[i] && MealKey(rows[i]) == ModeMeals[k] then rows[i]["Amount" := Num(mode)] else rows[i]);
      }
    }
  }

  /** fill_missing_amount_with_mode: the mask and the modes are computed
      first; then each meal type's masked rows take its mode. */
  method FillMissingAmountWithMode(f: Frame, parseNumber: string -> Option<real>, show: Value -> string,
                                   showAmount: real -> string) returns (g: Frame)
    ensures g == ModeFilled(f, parseNumber, show, showAmount)
  {
    var c := Coerced(f, parseNumber, show);
    var mask := seq(|c.rows|, i requires 0 <= i < |c.rows| => Implausible(Get(c.rows[i], "Amount"), showAmount));
    var modes := Modes(c.rows);
    var rows := FillModes(c.rows, mask, modes);
    g := Frame(c.columns, rows);
  }

  /** A row's amount changes only when it is masked and its meal is one of
      the three types with a mode, and then it becomes that type's mode over
      the amounts as they were before any fill. Every other cell is the
      converted cell. */
  lemma ModeFillChanges(f: Frame, parseNumber: string -> Option<real>, show: Value -> string,
                        showAmount: real -> string, i: nat)
    requires i < |f.rows|
    ensures
      var c := Coerced(f, parseNumber, show);
      var r := c.rows[i];
      var g := ModeFilled(f, parseNumber, show, showAmount);
      var mode := SmallestMode(MealAmounts(c.rows, MealKey(r)));
      && g.columns == c.columns
      && (forall col :: col != "Amount" ==> Get(g.rows[i], col) == Get(r, col))
      && (if Implausible(Get(r, "Amount"), showAmount) && MealKey(r) in ModeMeals && mode.Some?
          then Get(g.rows[i], "Amount") == Num(mode.value)
          else Get(g.rows[i], "Amount") == Get(r, "Amount"))
  {
    var c := Coerced(f, parseNumber, show);
    var r := c.rows[i];
    var modes := Modes(c.rows);
    match IndexOf(ModeMeals, MealKey(r))
    case Some(j) =>
      assert ModeMeals[j] == MealKey(r);
    case None =>
  }

  // ---------------------------------------------------------------------
  // replace_characters_in_code
  // ---------------------------------------------------------------------

  const RepairPrefixes: seq<string> := ["tglp", "tgzm", "gzm", "glp"]

  predicate NeedsRepair(code: string)
  {
    exists p :: p in RepairPrefixes && StartsWith(Lower(code), p)
  }

  /** The code with the OCR confusions 'o' -> '0' and 's' -> '5' undone,
      when it starts with one of the prefixes (any case). */
  function RepairCode(code: string): string
  {
    if NeedsRepair(code) then ReplaceAll(ReplaceAll(code, "o", "0"), "s", "5") else code
  }

  /** The repair, character by character: only lower-case 'o' and 's'
      change, and only in codes with a prefix. */
  lemma RepairCodeCharacters(code: string)
    ensures |RepairCode(code)| == |code|
    ensures forall i :: 0 <= i < |code| ==>
      RepairCode(code)[i] ==
        if NeedsRepair(code) && code[i] == 'o' then '0'
        else if NeedsRepair(code) && code[i] == 's' then '5'
        else code[i]
  {
    if NeedsRepair(code) {
      var a := ReplaceAll(code, "o", "0");
      ReplaceCharAt(code, 'o', '0');
      ReplaceCharAt(a, 's', '5');
    }
  }

  /** No prefix holds an 'o' or an 's'. */
  lemma PrefixLetters(p: string)
    requires p in RepairPrefixes
    ensures forall i :: 0 <= i < |p| ==> p[i] != 'o' && p[i] != 's'
  {
    if p == "tglp" {
    } else if p == "tgzm" {
    } else if p == "gzm" {
    } else {
      assert p == "glp";
    }
  }

  /** A repaired code starts with the same prefix, since no prefix holds an
      'o' or an 's'. */
  lemma RepairKeepsPrefix(code: string, p: string)
    requires NeedsRepair(code) && p in RepairPrefixes && StartsWith(Lower(code), p)
    ensures StartsWith(Lower(RepairCode(code)), p)
  {
    var r := RepairCode(code);
    RepairCodeCharacters(code);
    PrefixLetters(p);
    forall i | 0 <= i < |p| ensures Lower(r)[i] == p[i] {
      assert Lower(code)[i] == p[i];
      assert r[i] == code[i];
    }
  }

  /** Repairing a repaired code changes nothing: it keeps its prefix and has
      no 'o' or 's' left. */
  lemma RepairCodeIdempotent(code: string)
    ensures RepairCode(RepairCode(code)) == RepairCode(code)
  {
    var r := RepairCode(code);
    if NeedsRepair(code) {
      var p :| p in RepairPrefixes && StartsWith(Lower(code), p);
      RepairKeepsPrefix(code, p);
      assert NeedsRepair(r);
      RepairCodeCharacters(code);
      RepairCodeCharacters(r);
      assert forall i :: 0 <= i < |r| ==> r[i] != 'o' && r[i] != 's';
      assert RepairCode(r) == r;
    }
  }

  /** replace_characters_in_code */
  function ReplaceCharactersInCode(f: Frame): (g: Frame)
    ensures g.columns == AddColumnName(f.columns, "Code") && |g.rows| == |f.rows|
  {
    SetColumn(f, "Code", r => match Get(r, "Code") case Str(c) => Str(RepairCode(c)) case v => v)
  }

  // ---------------------------------------------------------------------
  // Eligibility and reimbursement amount
  // ---------------------------------------------------------------------

  const EligibleColumn := "Eligible for Reimbursement"
  const AmountColumn := "Reimbursement Amount"

  /** add_reimbursement_column: 'Yes' for a present meal that is one of the
      configured meal types, 'No' otherwise. */
  function AddReimbursementColumn(f: Frame, mealTypes: seq<string>): Frame
  {
    SetColumn(f, EligibleColumn, r => if Get(r, "Meal").Str? && Get(r, "Meal").s in mealTypes then Str("Yes") else Str("No"))
  }

  /** add_reimbursement_amount: the configured rate when eligibility reads
      'yes' in any case, else 0. */
  function AddReimbursementAmount(f: Frame, rate: real): Frame
  {
    SetColumn(f, AmountColumn, r => if Get(r, EligibleColumn).Str? && Lower(Get(r, EligibleColumn).s) == "yes" then Num(rate) else Num(0.0))
  }

  /** Eligibility is 'Yes' exactly for the configured meals, and then the
      amount is the rate; every other row gets 'No' and 0. */
  lemma EligibilityAndAmount(f: Frame, mealTypes: seq<string>, rate: real, i: nat)
    requires i < |f.rows|
    ensures
      var g := AddReimbursementAmount(AddReimbursementColumn(f, mealTypes), rate);
      var meal := Get(f.rows[i], "Meal");
      && (Get(g.rows[i], EligibleColumn) == Str("Yes") <==> meal.Str? && meal.s in mealTypes)
      && (Get(g.rows[i], EligibleColumn) == Str("No") <==> !(meal.Str? && meal.s in mealTypes))
      && Get(g.rows[i], AmountColumn) == (if meal.Str? && meal.s in mealTypes then Num(rate) else Num(0.0))
  {
    assert Lower("Yes") == "yes";
    assert Lower("No") != "yes";
  }

  // ---------------------------------------------------------------------
  // fill_employee_names
  // ---------------------------------------------------------------------

  /** The first row of the table whose cell in the key column is `key`;
      the roster is taken to have one row per key. */
  function Lookup(t: Table, keyColumn: string, key: string): (r: Option<seq<string>>)
    ensures r.Some? ==> r.value in t.rows
    ensures r.Some? ==> keyColumn in t.header && CellAt(r.value, IndexOf(t.header, keyColumn).value) == key
  {
    match IndexOf(t.header, keyColumn)
    case None => None
    case Some(k) => FirstWithCell(t.rows, k, key)
  }

  function FirstWithCell(rows: seq<seq<string>>, k: nat, key: string): (r: Option<seq<string>>)
    ensures r.Some? ==> r.value in rows && CellAt(r.value, k) == key
    ensures r.None? ==> forall row :: row in rows ==> CellAt(row, k) != key
  {
    if rows == [] then None
    else if CellAt(rows[0], k) == key then Some(rows[0])
    else
      assert forall row :: row in rows ==> row == rows[0] || row in rows[1..];
      FirstWithCell(rows[1..], k, key)
  }

  /** The cell of a named column of a table row. */
  function Cell(t: Table, row: seq<string>, column: string): string
  {
    match IndexOf(t.header, column)
    case Some(k) => CellAt(row, k)
    case None => ""
  }

  const RosterColumns: seq<string> := ["Emp ID", "First Name", "Last Name"]

  /** The rows whose cell in column k is `key`, in table order. */
  function RowsWithCell(rows: seq<seq<string>>, k: nat, key: string): (r: seq<seq<string>>)
    ensures forall row :: row in r ==> row in rows && CellAt(row, k) == key
    ensures r == [] <==> forall row :: row in rows ==> CellAt(row, k) != key
  {
    if rows == [] then []
    else
      assert forall row :: row in rows ==> row == rows[0] || row in rows[1..];
      (if CellAt(rows[0], k) == key then [rows[0]] else []) + RowsWithCell(rows[1..], k, key)
  }

  /** The roster rows the left merge on `Code == Emp ID` pairs with a code. */
  function RosterMatches(roster: Table, code: Value): seq<seq<string>>
  {
    if !code.Str? then []
    else match IndexOf(roster.header, "Emp ID")
      case None => []
      case Some(k) => RowsWithCell(roster.rows, k, code.s)
  }

  /** The roster's 'Name' of a row: first and last name joined by a space. */
  function FullName(roster: Table, row: seq<string>): string
  {
    Cell(roster, row, "First Name") + " " + Cell(roster, row, "Last Name")
  }

  /** The name of the first roster row holding the code, if any. */
  function RosterName(roster: Table, code: Value): (n: Option<string>)
    ensures n.Some? ==> exists row :: row in roster.rows && n.value == FullName(roster, row)
  {
    var m := RosterMatches(roster, code);
    if m == [] then None else Some(FullName(roster, m[0]))
  }

  /** The 'Name' column of the left merge, in merged row order: each frame
      row once per roster row holding its code, with that row's name, or
      once with no name when none does. */
  function MergedNames(roster: Table, rows: seq<Row>): (names: seq<Option<string>>)
    ensures |names| >= |rows|
  {
    if rows == [] then []
    else
      var m := RosterMatches(roster, Get(rows[0], "Code"));
      (if m == [] then [None] else seq(|m|, j requires 0 <= j < |m| => Some(FullName(roster, m[j]))))
        + MergedNames(roster, rows[1..])
  }

  /** fill_employee_names. The 'Emp Name' column is added empty first; a
      missing roster or a roster without the name columns then fails, and
      the failure is caught, leaving that column as it is. Otherwise the
      merged 'Name' column is written back by position (both frames carry a
      0-based range index), so row i takes merged row i's name, or keeps
      its own name where that one is missing. */
  function FillEmployeeNames(roster: Option<Table>, f: Frame): (g: Frame)
    ensures "Emp Name" in g.columns && |g.rows| == |f.rows|
  {
    var named := if "Emp Name" in f.columns then f else SetColumn(f, "Emp Name", _ => Str(""));
    if roster.None? || exists c :: c in RosterColumns && c !in roster.value.header then named
    else
      var names := MergedNames(roster.value, named.rows);
      Frame(named.columns, seq(|named.rows|, i requires 0 <= i < |named.rows| =>
        named.rows[i]["Emp Name" := if names[i].Some? then Str(names[i].value) else Get(named.rows[i], "Emp Name")]))
  }

  /** Merged row i is frame row i as long as no earlier code has more than
      one roster row. */
  lemma {:induction false} MergedNamesAligned(roster: Table, rows: seq<Row>, i: nat)
    requires i < |rows|
    requires forall j :: 0 <= j < i ==> |RosterMatches(roster, Get(rows[j], "Code"))| <= 1
    ensures MergedNames(roster, rows)[i] == RosterName(roster, Get(rows[i], "Code"))
  {
    var m := RosterMatches(roster, Get(rows[0], "Code"));
    var head := if m == [] then [None] else seq(|m|, j requires 0 <= j < |m| => Some(FullName(roster, m[j])));
    assert MergedNames(roster, rows) == head + MergedNames(roster, rows[1..]);
    if i > 0 {
      assert |head| == 1;
      forall j | 0 <= j < i - 1 ensures |RosterMatches(roster, Get(rows[1..][j], "Code"))| <= 1 {
        assert rows[1..][j] == rows[j + 1];
      }
      MergedNamesAligned(roster, rows[1..], i - 1);
    }
  }

  /** A code held by two roster rows makes the merge repeat its frame row,
      so the next frame row takes the second roster row's name. */
  lemma MergedNamesShift(roster: Table, rows: seq<Row>)
    requires |rows| >= 2
    requires |RosterMatches(roster, Get(rows[0], "Code"))| >= 2
    ensures MergedNames(roster, rows)[1] == Some(FullName(roster, RosterMatches(roster, Get(rows[0], "Code"))[1]))
  {
  }

  /** Every merged name is the name of some roster row. */
  lemma {:induction false} MergedNamesFromRoster(roster: Table, rows: seq<Row>, k: nat)
    requires k < |MergedNames(roster, rows)|
    requires MergedNames(roster, rows)[k].Some?
    ensures exists row :: row in roster.rows && MergedNames(roster, rows)[k].value == FullName(roster, row)
  {
    var m := RosterMatches(roster, Get(rows[0], "Code"));
    var head := if m == [] then [None] else seq(|m|, j requires 0 <= j < |m| => Some(FullName(roster, m[j])));
    assert MergedNames(roster, rows) == head + MergedNames(roster, rows[1..]);
    if k < |head| {
      assert m != [] && head[k].value == FullName(roster, m[k]);
      var row := m[k];
      assert row in m;
      assert Get(rows[0], "Code").Str? && IndexOf(roster.header, "Emp ID").Some?;
    } else {
      MergedNamesFromRoster(roster, rows[1..], k - |head|);
    }
  }

  /** Row i's name is the roster name of its code when no earlier code is
      held by two roster rows; a code on the roster gets "First Last" and
      any other row keeps its name, or "" when the frame had no name column.
      Whatever the roster, the name is a roster name or the row's own, and
      no other cell changes. */
  lemma EmployeeNameFill(roster: Table, f: Frame, i: nat)
    requires i < |f.rows|
    requires forall c :: c in RosterColumns ==> c in roster.header
    ensures
      var g := FillEmployeeNames(Some(roster), f);
      var code := Get(f.rows[i], "Code");
      var before := if "Emp Name" in f.columns then Get(f.rows[i], "Emp Name") else Str("");
      && ((forall j :: 0 <= j < i ==> |RosterMatches(roster, Get(f.rows[j], "Code"))| <= 1) ==>
            && (RosterName(roster, code).Some? ==> Get(g.rows[i], "Emp Name") == Str(RosterName(roster, code).value))
            && (RosterName(roster, code).None? ==> Get(g.rows[i], "Emp Name") == before))
      && (Get(g.rows[i], "Emp Name") == before ||
          exists row :: row in roster.rows && Get(g.rows[i], "Emp Name") == Str(FullName(roster, row)))
      && (forall c :: c != "Emp Name" ==> Get(g.rows[i], c) == Get(f.rows[i], c))
  {
    var names := MergedNames(roster, f.rows);
    FilledName(roster, f, i);
    if names[i].Some? {
      MergedNamesFromRoster(roster, f.rows, i);
    }
    if forall j :: 0 <= j < i ==> |RosterMatches(roster, Get(f.rows[j], "Code"))| <= 1 {
      MergedNamesAligned(roster, f.rows, i);
    }
  }

  /** The merged names depend on the codes alone. */
  lemma {:induction false} MergedNamesOfCodes(roster: Table, rows: seq<Row>, rows': seq<Row>)
    requires |rows| == |rows'|
    requires forall j :: 0 <= j < |rows| ==> Get(rows[j], "Code") == Get(rows'[j], "Code")
    ensures MergedNames(roster, rows) == MergedNames(roster, rows')
  {
    if rows != [] {
      MergedNamesOfCodes(roster, rows[1..], rows'[1..]);
    }
  }

  /** Row i of the filled frame takes merged row i's name, or keeps its own. */
  lemma FilledName(roster: Table, f: Frame, i: nat)
    requires i < |f.rows|
    requires forall c :: c in RosterColumns ==> c in roster.header
    ensures
      var g := FillEmployeeNames(Some(roster), f);
      var name := MergedNames(roster, f.rows)[i];
      var before := if "Emp Name" in f.columns then Get(f.rows[i], "Emp Name") else Str("");
      && Get(g.rows[i], "Emp Name") == (if name.Some? then Str(name.value) else before)
      && (forall c :: c != "Emp Name" ==> Get(g.rows[i], c) == Get(f.rows[i], c))
  {
    var named := if "Emp Name" in f.columns then f else SetColumn(f, "Emp Name", _ => Str(""));
    assert |named.rows| == |f.rows|;
    assert forall j :: 0 <= j < |f.rows| ==> Get(named.rows[j], "Code") == Get(f.rows[j], "Code");
    MergedNamesOfCodes(roster, named.rows, f.rows);
    assert Get(named.rows[i], "Emp Name") == (if "Emp Name" in f.columns then Get(f.rows[i], "Emp Name") else Str(""));
  }

  /** A roster holding E1 twice: the second frame row, whose code is E2,
      is named after E1's second roster row rather than after E2. */
  lemma DuplicateEmpIdShiftsNames()
    ensures
      var roster := Table(RosterColumns, [["E1", "A", "X"], ["E1", "B", "Y"], ["E2", "C", "Z"]]);
      var f := Frame(["Code", "Emp Name"], [map["Code" := Str("E1"), "Emp Name" := Str("")],
                                            map["Code" := Str("E2"), "Emp Name" := Str("")]]);
      && RosterName(roster, Str("E2")) == Some("C Z")
      && Get(FillEmployeeNames(Some(roster), f).rows[1], "Emp Name") == Str("B Y")
  {
    var roster := Table(RosterColumns, [["E1", "A", "X"], ["E1", "B", "Y"], ["E2", "C", "Z"]]);
    var f := Frame(["Code", "Emp Name"], [map["Code" := Str("E1"), "Emp Name" := Str("")],
                                          map["Code" := Str("E2"), "Emp Name" := Str("")]]);
    ExampleRoster(roster);
    assert Get(f.rows[0], "Code") == Str("E1");
    MergedNamesShift(roster, f.rows);
    FilledName(roster, f, 1);
  }

  /** The names the example roster gives E1 and E2. */
  lemma ExampleRoster(roster: Table)
    requires roster == Table(RosterColumns, [["E1", "A", "X"], ["E1", "B", "Y"], ["E2", "C", "Z"]])
    ensures |RosterMatches(roster, Str("E1"))| == 2
    ensures FullName(roster, RosterMatches(roster, Str("E1"))[1]) == "B Y"
    ensures RosterName(roster, Str("E2")) == Some("C Z")
  {
    ExampleHeader(roster.header);
    ExampleRosterE1(roster.rows);
    ExampleRosterE2(roster.rows);
    ExampleNames(roster);
    assert RosterMatches(roster, Str("E1")) == [roster.rows[0], roster.rows[1]];
    assert RosterMatches(roster, Str("E2")) == [roster.rows[2]];
  }

  lemma ExampleHeader(header: seq<string>)
    requires header == RosterColumns
    ensures IndexOf(header, "Emp ID") == Some(0)
    ensures IndexOf(header, "First Name") == Some(1)
    ensures IndexOf(header, "Last Name") == Some(2)
  {
    assert header[1..][1..] == ["Last Name"];
  }

  lemma ExampleNames(roster: Table)
    requires roster == Table(RosterColumns, [["E1", "A", "X"], ["E1", "B", "Y"], ["E2", "C", "Z"]])
    ensures FullName(roster, roster.rows[1]) == "B Y"
    ensures FullName(roster, roster.rows[2]) == "C Z"
  {
    ExampleHeader(roster.header);
    assert Cell(roster, roster.rows[1], "First Name") == "B";
    assert Cell(roster, roster.rows[1], "Last Name") == "Y";
    assert Cell(roster, roster.rows[2], "First Name") == "C";
    assert Cell(roster, roster.rows[2], "Last Name") == "Z";
  }

  lemma ExampleRosterE1(rows: seq<seq<string>>)
    requires rows == [["E1", "A", "X"], ["E1", "B", "Y"], ["E2", "C", "Z"]]
    ensures RowsWithCell(rows, 0, "E1") == [rows[0], rows[1]]
  {
    assert RowsWithCell(rows[2..], 0, "E1") == [];
    assert rows[1..][1..] == rows[2..];
    assert RowsWithCell(rows[1..], 0, "E1") == [rows[1]];
  }

  lemma ExampleRosterE2(rows: seq<seq<string>>)
    requires rows == [["E1", "A", "X"], ["E1", "B", "Y"], ["E2", "C", "Z"]]
    ensures RowsWithCell(rows, 0, "E2") == [rows[2]]
  {
    assert RowsWithCell(rows[2..], 0, "E2") == [rows[2]];
    assert rows[1..][1..] == rows[2..];
    assert RowsWithCell(rows[1..], 0, "E2") == [rows[2]];
  }

  // ---------------------------------------------------------------------
  // extract_day and extract_month_year
  // ---------------------------------------------------------------------

  /** Series.replace("0", None) on the date column. */
  function ZeroDatesRemoved(f: Frame): Frame
  {
    SetColumn(f, "Date", r => if Get(r, "Date") == Str("0") then Missing else Get(r, "Date"))
  }

  /** pd.to_datetime(format='mixed') of one cell: None when it cannot be parsed. */
  function DateCell(v: Value, parseStamp: string -> Option<Date>): Option<Value>
  {
    match v
    case Missing => Some(Missing)
    case Stamp(_) => Some(v)
    case Str(s) => (match parseStamp(s) case Some(d) => Some(Stamp(d)) case None => None)
    case Num(_) => None
  }

  /** pd.to_datetime of the whole date column: it fails when any cell does. */
  function ConvertDates(f: Frame, parseStamp: string -> Option<Date>): (g: Option<Frame>)
    ensures g.Some? ==> g.value.columns == AddColumnName(f.columns, "Date") && |g.value.rows| == |f.rows|
    ensures g.Some? ==> forall i :: 0 <= i < |f.rows| ==> Get(g.value.rows[i], "Date").Missing? || Get(g.value.rows[i], "Date").Stamp?
    ensures g.None? <==> exists i :: 0 <= i < |f.rows| && DateCell(Get(f.rows[i], "Date"), parseStamp).None?
  {
    if exists i :: 0 <= i < |f.rows| && DateCell(Get(f.rows[i], "Date"), parseStamp).None? then None
    else Some(SetColumn(f, "Date", r => if DateCell(Get(r, "Date"), parseStamp).Some? then DateCell(Get(r, "Date"), parseStamp).value else Missing))
  }

  /** `.dt.day`: the day of a timestamp, missing for NaT. */
  function DayOf(v: Value): Value
  {
    if v.Stamp? then Num(v.d.day as real) else Missing
  }

  /** extract_day. A failure to parse is caught after the "0" dates have
      already been replaced, and that frame is returned. */
  function ExtractDay(f: Frame, parseStamp: string -> Option<Date>): (g: Frame)
  {
    if "Date" !in f.columns then f
    else
      var cleared := ZeroDatesRemoved(f);
      match ConvertDates(cleared, parseStamp)
      case None => cleared
      case Some(h) => SetColumn(h, "day", r => DayOf(Get(r, "Date")))
  }

  /** extract_day on one row. Without a date column the frame is returned
      unchanged. Otherwise "0" dates are cleared first; when every date then
      parses, Date holds the parsed date and 'day' its day of the month
      (missing for a cleared date); when some date does not, the cleared
      frame comes back with no 'day' written. No other cell changes. */
  lemma ExtractDaySpec(f: Frame, parseStamp: string -> Option<Date>, i: nat)
    requires i < |f.rows|
    ensures
      var g := ExtractDay(f, parseStamp);
      var cell := if Get(f.rows[i], "Date") == Str("0") then Missing else Get(f.rows[i], "Date");
      && ("Date" !in f.columns ==> g == f)
      && |g.rows| == |f.rows|
      && (forall c :: c in f.columns ==> c in g.columns)
      && (forall c :: c != "Date" && c != "day" ==> Get(g.rows[i], c) == Get(f.rows[i], c))
      && ("Date" in f.columns &&
          (forall j :: 0 <= j < |f.rows| ==>
             Get(f.rows[j], "Date") == Str("0") || DateCell(Get(f.rows[j], "Date"), parseStamp).Some?) ==>
            && "day" in g.columns
            && Get(g.rows[i], "Date") == DateCell(cell, parseStamp).value
            && Get(g.rows[i], "day") == DayOf(DateCell(cell, parseStamp).value)
            && (Get(f.rows[i], "Date") == Str("0") ==> Get(g.rows[i], "day") == Missing))
      && ("Date" in f.columns &&
          (exists j :: 0 <= j < |f.rows| &&
             Get(f.rows[j], "Date") != Str("0") && DateCell(Get(f.rows[j], "Date"), parseStamp).None?) ==>
            && g == ZeroDatesRemoved(f)
            && g.columns == f.columns
            && Get(g.rows[i], "Date") == cell
            && Get(g.rows[i], "day") == Get(f.rows[i], "day"))
  {
    if "Date" in f.columns {
      if forall j :: 0 <= j < |f.rows| ==>
           Get(f.rows[j], "Date") == Str("0") || DateCell(Get(f.rows[j], "Date"), parseStamp).Some? {
        ExtractDayParsed(f, parseStamp, i);
      } else {
        ExtractDayUnparsed(f, parseStamp, i);
      }
    }
  }

  /** extract_day when every date is "0" or parses. */
  lemma ExtractDayParsed(f: Frame, parseStamp: string -> Option<Date>, i: nat)
    requires "Date" in f.columns
    requires forall j :: 0 <= j < |f.rows| ==>
      Get(f.rows[j], "Date") == Str("0") || DateCell(Get(f.rows[j], "Date"), parseStamp).Some?
    requires i < |f.rows|
    ensures
      var g := ExtractDay(f, parseStamp);
      var cell := if Get(f.rows[i], "Date") == Str("0") then Missing else Get(f.rows[i], "Date");
      && |g.rows| == |f.rows|
      && (forall c :: c in f.columns ==> c in g.columns)
      && (forall c :: c != "Date" && c != "day" ==> Get(g.rows[i], c) == Get(f.rows[i], c))
      && "day" in g.columns
      && Get(g.rows[i], "Date") == DateCell(cell, parseStamp).value
      && Get(g.rows[i], "day") == DayOf(DateCell(cell, parseStamp).value)
  {
    var h := ClearedDatesConverted(f, parseStamp);
  }

  /** extract_day when some date other than "0" does not parse. */
  lemma ExtractDayUnparsed(f: Frame, parseStamp: string -> Option<Date>, i: nat)
    requires "Date" in f.columns
    requires exists j ::
      0 <= j < |f.rows| && Get(f.rows[j], "Date") != Str("0") && DateCell(Get(f.rows[j], "Date"), parseStamp).None?
    requires i < |f.rows|
    ensures
      var g := ExtractDay(f, parseStamp);
      && g == ZeroDatesRemoved(f)
      && g.columns == f.columns
      && |g.rows| == |f.rows|
      && Get(g.rows[i], "Date") == (if Get(f.rows[i], "Date") == Str("0") then Missing else Get(f.rows[i], "Date"))
      && (forall c :: c != "Date" ==> Get(g.rows[i], c) == Get(f.rows[i], c))
  {
    var cleared := ZeroDatesRemoved(f);
    var j :| 0 <= j < |f.rows| &&
      Get(f.rows[j], "Date") != Str("0") && DateCell(Get(f.rows[j], "Date"), parseStamp).None?;
    assert Get(cleared.rows[j], "Date") == Get(f.rows[j], "Date");
    assert ConvertDates(cleared, parseStamp).None?;
  }

  /** The columns extract_month_year keeps, in their old order. */
  const ReportColumns: seq<string> :=
    ["Date", "Code", "Emp Name", EligibleColumn, AmountColumn, "Amount", "Meal", "Company", "Image_name", "day"]

  /** The same columns after 'Amount' and 'Meal' are renamed. */
  const RenamedColumns: seq<string> :=
    ["Date", "Code", "Emp Name", EligibleColumn, AmountColumn, "Amount Paid", "Meal type", "Company", "Image_name", "day"]

  /** The column a renamed column is read from. */
  function SourceColumn(c: string): string
  {
    if c == "Amount Paid" then "Amount" else if c == "Meal type" then "Meal" else c
  }

  /** strftime('%Y-%b') of a timestamp; NaT gives a missing value. */
  function MonthYearOf(v: Value): Value
  {
    if v.Stamp? then Str(NatToString(v.d.year) + "-" + MonthAbbreviation(v.d.month)) else Missing
  }

  /** A row of the reshaped frame. */
  function Reshaped(r: Row): Row
  {
    (map c | c in RenamedColumns :: Get(r, SourceColumn(c)))["Month Year" := MonthYearOf(Get(r, "Date"))]
  }

  /** extract_month_year. When the dates do not parse, or a column to keep
      is absent, the failure is caught and the frame is returned as it
      stands at that point. */
  function ExtractMonthYear(f: Frame, parseStamp: string -> Option<Date>): (g: Frame)
  {
    if "Date" !in f.columns then f
    else
      var cleared := ZeroDatesRemoved(f);
      match ConvertDates(cleared, parseStamp)
      case None => cleared
      case Some(h) =>
        if exists c :: c in ReportColumns && c !in h.columns then h
        else Frame(RenamedColumns + ["Month Year"], seq(|h.rows|, i requires 0 <= i < |h.rows| => Reshaped(h.rows[i])))
  }

  /** When the reshaping succeeds the frame has exactly the old-format
      columns, each read from its source column, and 'Month Year' is the
      year and month abbreviation of the parsed date. A "0" date is cleared
      first, so its Date and 'Month Year' are missing. */
  lemma MonthYearReshape(f: Frame, parseStamp: string -> Option<Date>, i: nat)
    requires "Date" in f.columns
    requires forall c :: c in ReportColumns ==> c in f.columns
    requires forall j :: 0 <= j < |f.rows| ==>
      Get(f.rows[j], "Date") == Str("0") || DateCell(Get(f.rows[j], "Date"), parseStamp).Some?
    requires i < |f.rows|
    ensures
      var g := ExtractMonthYear(f, parseStamp);
      var cell := if Get(f.rows[i], "Date") == Str("0") then Missing else Get(f.rows[i], "Date");
      var date := DateCell(cell, parseStamp).value;
      && g.columns == RenamedColumns + ["Month Year"]
      && |g.rows| == |f.rows|
      && Get(g.rows[i], "Amount Paid") == Get(f.rows[i], "Amount")
      && Get(g.rows[i], "Meal type") == Get(f.rows[i], "Meal")
      && Get(g.rows[i], "Date") == date
      && Get(g.rows[i], "Month Year") == MonthYearOf(date)
      && (Get(f.rows[i], "Date") == Str("0") ==>
            Get(g.rows[i], "Date") == Missing && Get(g.rows[i], "Month Year") == Missing)
  {
    var h := ClearedDatesConverted(f, parseStamp);
    assert "Amount Paid" in RenamedColumns && "Meal type" in RenamedColumns && "Date" in RenamedColumns;
    assert Get(h.rows[i], "Amount") == Get(f.rows[i], "Amount");
    assert Get(h.rows[i], "Meal") == Get(f.rows[i], "Meal");
  }

  /** The date conversion after the "0" dates are cleared: it succeeds,
      keeps the columns to report, and replaces only each row's Date. */
  lemma ClearedDatesConverted(f: Frame, parseStamp: string -> Option<Date>) returns (h: Frame)
    requires "Date" in f.columns
    requires forall j :: 0 <= j < |f.rows| ==>
      Get(f.rows[j], "Date") == Str("0") || DateCell(Get(f.rows[j], "Date"), parseStamp).Some?
    ensures ConvertDates(ZeroDatesRemoved(f), parseStamp) == Some(h)
    ensures forall c :: c in f.columns ==> c in h.columns
    ensures |h.rows| == |f.rows|
    ensures forall j :: 0 <= j < |f.rows| ==>
      h.rows[j] == f.rows[j]["Date" := DateCell(if Get(f.rows[j], "Date") == Str("0") then Missing else Get(f.rows[j], "Date"), parseStamp).value]
  {
    var cleared := ZeroDatesRemoved(f);
    assert forall j :: 0 <= j < |cleared.rows| ==> cleared.rows[j] == f.rows[j]["Date" := if Get(f.rows[j], "Date") == Str("0") then Missing else Get(f.rows[j], "Date")];
    assert forall j :: 0 <= j < |cleared.rows| ==> DateCell(Get(cleared.rows[j], "Date"), parseStamp).Some?;
    h := ConvertDates(cleared, parseStamp).value;
  }

  // ---------------------------------------------------------------------
  // process_employee_matching
  // ---------------------------------------------------------------------

  predicate IsSeparator(c: char) { c == '/' || c == '\\' }

  /** Number of leading characters that are not path separators. */
  function SegmentLength(s: string): (n: nat)
    ensures n <= |s|
    ensures forall i :: 0 <= i < n ==> !IsSeparator(s[i])
    ensures n < |s| ==> IsSeparator(s[n])
  {
    if s == [] || IsSeparator(s[0]) then 0 else 1 + SegmentLength(s[1..])
  }

  /** The pattern images[/\\]([^/\\]+)[/\\] matches at position i. The
      segment run is greedy and must be followed by a separator, so it is
      the whole segment after "images/". */
  predicate UserIdAt(path: string, i: nat)
  {
    ContainsAt(path, "images", i) && i + 6 < |path| && IsSeparator(path[i + 6]) &&
    var n := SegmentLength(path[i + 7..]);
    n > 0 && i + 7 + n < |path|
  }

  /** The segment captured at position i. */
  function UserIdSegment(path: string, i: nat): string
    requires i + 7 <= |path|
  {
    path[i + 7..i + 7 + SegmentLength(path[i + 7..])]
  }

  /** The search for the leftmost match, from position i on. */
  function UserIdFrom(path: string, i: nat): Option<string>
    decreases |path| - i
  {
    if i >= |path| then None
    else if UserIdAt(path, i) then Some(UserIdSegment(path, i))
    else UserIdFrom(path, i + 1)
  }

  /** str.extract(r'images[/\\]([^/\\]+)[/\\]') of an image path. */
  function ExtractUserId(path: string): Option<string>
  {
    UserIdFrom(path, 0)
  }

  lemma {:induction false} UserIdFromSpec(path: string, i: nat)
    ensures UserIdFrom(path, i).None? <==> forall j :: i <= j < |path| ==> !UserIdAt(path, j)
    ensures UserIdFrom(path, i).Some? ==>
      exists j :: i <= j < |path| && UserIdAt(path, j) && UserIdFrom(path, i) == Some(UserIdSegment(path, j)) &&
        forall l :: i <= l < j ==> !UserIdAt(path, l)
    decreases |path| - i
  {
    if i < |path| {
      if UserIdAt(path, i) {
        assert UserIdFrom(path, i) == Some(UserIdSegment(path, i));
      } else {
        assert UserIdFrom(path, i) == UserIdFrom(path, i + 1);
        UserIdFromSpec(path, i + 1);
        if UserIdFrom(path, i).Some? {
          var j :| i + 1 <= j < |path| && UserIdAt(path, j) && UserIdFrom(path, i + 1) == Some(UserIdSegment(path, j)) &&
            forall l :: i + 1 <= l < j ==> !UserIdAt(path, l);
          assert forall l :: i <= l < j ==> !UserIdAt(path, l);
        }
      }
    }
  }

  /** The user id is the segment after the leftmost "images" followed by a
      separator and then a non-empty segment closed by a separator, and it is
      missing exactly when there is no such place. */
  lemma UserIdIsLeftmostMatch(path: string)
    ensures ExtractUserId(path).None? <==> forall j :: 0 <= j < |path| ==> !UserIdAt(path, j)
    ensures ExtractUserId(path).Some? ==>
      exists j :: 0 <= j < |path| && UserIdAt(path, j) && ExtractUserId(path) == Some(UserIdSegment(path, j)) &&
        |ExtractUserId(path).value| > 0 &&
        (forall k :: 0 <= k < |ExtractUserId(path).value| ==> !IsSeparator(ExtractUserId(path).value[k])) &&
        forall l :: 0 <= l < j ==> !UserIdAt(path, l)
  {
    UserIdFromSpec(path, 0);
  }

  /** The user id of a row: missing when the image path has no match. */
  function UserIdCell(r: Row): Value
  {
    var p := Get(r, "Image_name");
    if p.Str? && ExtractUserId(p.s).Some? then Str(ExtractUserId(p.s).value) else Missing
  }

  /** The roster columns a left merge adds: all but the key, skipping names
      the frame already has. */
  function AddedColumns(columns: seq<string>, header: seq<string>): seq<string>
  {
    Filter(header, c => c != "UserID" && c !in columns)
  }

  /** One row of pd.merge(df, roster, on='UserID', how='left'): the roster
      row with the same user id contributes its cells; without one the added
      cells are missing. */
  function MergedRow(r: Row, roster: Table, added: seq<string>): Row
  {
    var u := Get(r, "UserID");
    var match_ := if u.Str? then Lookup(roster, "UserID", u.s) else None;
    r + map c | c in added :: if match_.Some? then Str(Cell(roster, match_.value, c)) else Missing
  }

  /** Series.replace("nan", None) */
  function NanCleared(v: Value): Value
  {
    if v == Str("nan") then Missing else v
  }

  /** The frame the matching loop runs over: the user id column, the merge,
      the "nan" texts of 'Emp ID' and 'Meal type' made missing, and empty
      'Comment' and 'Category' columns. A missing roster, or one without a
      'UserID' column, makes the merge raise. */
  function MatchingInput(f: Frame, roster: Option<Table>): Option<Frame>
  {
    if roster.None? || "UserID" !in roster.value.header then None
    else
      var withId := SetColumn(f, "UserID", UserIdCell);
      var added := AddedColumns(withId.columns, roster.value.header);
      var merged := Frame(withId.columns + added,
                          seq(|withId.rows|, i requires 0 <= i < |withId.rows| => MergedRow(withId.rows[i], roster.value, added)));
      var cleanId := if "Emp ID" in merged.columns then SetColumn(merged, "Emp ID", r => NanCleared(Get(r, "Emp ID"))) else merged;
      var cleanMeal := if "Meal type" in cleanId.columns then SetColumn(cleanId, "Meal type", r => NanCleared(Get(r, "Meal type"))) else cleanId;
      Some(SetColumn(SetColumn(cleanMeal, "Comment", _ => Missing), "Category", _ => Missing))
  }

  /** The five outcomes of the matching loop, and the sixth where a code
      similarity equal to the threshold takes none of the branches. */
  datatype Outcome = NotAMeal | Matched | Mismatched | Backfilled | EmpIdMissing | Undecided

  const MismatchComment := "Not Eligible (Employee code mismatched)"
  const BackfillComment := "Employee code not found from Slip (Code replaced from Employee Data sheet)"
  const EmpIdMissingComment := "Emp ID not Found Please update Employee Data."

  /** The branch the loop takes for a row. `similarity(target, word)` is the
      score find_similar_words gives the code against the roster's Emp ID. */
  function Classify(r: Row, hasMealType: bool, similarity: (string, string) -> real, threshold: real): Outcome
  {
    var meal := if hasMealType then Get(r, "Meal type") else Missing;
    var code := Get(r, "Code");
    var empId := Get(r, "Emp ID");
    if meal.Missing? then NotAMeal
    else if !code.Missing? && !empId.Missing? then
      var score := similarity(TextOf(empId), TextOf(code));
      if score > threshold then Matched else if score < threshold then Mismatched else Undecided
    else if code.Missing? then Backfilled
    else EmpIdMissing
  }

  /** The cells the loop writes for an outcome. */
  function Categorized(r: Row, o: Outcome): Row
  {
    match o
    case NotAMeal => r["Comment" := Str("Not a Meal")]["Category" := Num(2.0)]
    case Matched => r["Comment" := Str("")]["Category" := Num(1.0)]
    case Mismatched =>
      r["Comment" := Str(MismatchComment)][EligibleColumn := Str("No")][AmountColumn := Num(0.0)]["Category" := Num(4.0)]
    case Backfilled => r["Code" := Get(r, "Emp ID")]["Comment" := Str(BackfillComment)]["Category" := Num(3.0)]
    case EmpIdMissing => r["Comment" := Str(EmpIdMissingComment)]
    case Undecided => r
  }

  /** The columns a row's writes may add to the frame. */
  function WrittenColumns(o: Outcome): seq<string>
  {
    match o
    case Mismatched => [EligibleColumn, AmountColumn]
    case Backfilled => ["Code"]
    case _ => []
  }

  function AddColumns(columns: seq<string>, names: seq<string>): seq<string>
    decreases |names|
  {
    if names == [] then columns else AddColumns(AddColumnName(columns, names[0]), names[1..])
  }

  /** The column list after the writes of the first |os| rows. */
  function ColumnsAfter(columns: seq<string>, os: seq<Outcome>): seq<string>
  {
    if os == [] then columns else AddColumns(ColumnsAfter(columns, os[..|os| - 1]), WrittenColumns(os[|os| - 1]))
  }

  function Outcomes(rows: seq<Row>, hasMealType: bool, similarity: (string, string) -> real, threshold: real): (os: seq<Outcome>)
    ensures |os| == |rows|
  {
    seq(|rows|, i requires 0 <= i < |rows| => Classify(rows[i], hasMealType, similarity, threshold))
  }

  /** A backfill reads the row's Emp ID; without that column it raises. */
  predicate BackfillRaises(m: Frame, similarity: (string, string) -> real, threshold: real)
  {
    "Emp ID" !in m.columns &&
    exists i :: 0 <= i < |m.rows| && Classify(m.rows[i], "Meal type" in m.columns, similarity, threshold).Backfilled?
  }

  /** The frame after the matching loop over m; None when it raises. */
  function CategorizedFrame(m: Frame, similarity: (string, string) -> real, threshold: real): Option<Frame>
  {
    if BackfillRaises(m, similarity, threshold) then None
    else
      var os := Outcomes(m.rows, "Meal type" in m.columns, similarity, threshold);
      Some(Frame(ColumnsAfter(m.columns, os),
                 seq(|m.rows|, i requires 0 <= i < |m.rows| => Categorized(m.rows[i], os[i]))))
  }

  /** The frame process_employee_matching returns; None when it raises. */
  function Matching(f: Frame, roster: Option<Table>, similarity: (string, string) -> real, threshold: real): Option<Frame>
  {
    match MatchingInput(f, roster)
    case None => None
    case Some(m) => CategorizedFrame(m, similarity, threshold)
  }

  /** The state of the matching loop after its first i rows. */
  ghost predicate CategorizedUpTo(m: Frame, os: seq<Outcome>, rows: seq<Row>, columns: seq<string>, i: nat)
  {
    && |os| == |m.rows| && i <= |rows| == |m.rows|
    && (forall j :: 0 <= j < i ==> rows[j] == Categorized(m.rows[j], os[j]))
    && (forall j :: i <= j < |rows| ==> rows[j] == m.rows[j])
    && columns == ColumnsAfter(m.columns, os[..i])
    && ("Emp ID" !in m.columns ==> forall j :: 0 <= j < i ==> !os[j].Backfilled?)
  }

  /** One pass of the matching loop: row i gets its outcome, or the loop
      raises on a backfill without 'Emp ID'. */
  method CategorizeRow(m: Frame, similarity: (string, string) -> real, threshold: real, ghost os: seq<Outcome>,
                       rows: seq<Row>, columns: seq<string>, i: nat)
    returns (rows': seq<Row>, columns': seq<string>, raised: bool)
    requires os == Outcomes(m.rows, "Meal type" in m.columns, similarity, threshold)
    requires i < |m.rows| && CategorizedUpTo(m, os, rows, columns, i)
    ensures raised ==> BackfillRaises(m, similarity, threshold)
    ensures !raised ==> CategorizedUpTo(m, os, rows', columns', i + 1)
  {
    var o := Classify(rows[i], "Meal type" in m.columns, similarity, threshold);
    assert o == os[i];
    if o.Backfilled? && "Emp ID" !in m.columns {
      assert BackfillRaises(m, similarity, threshold);
      return rows, columns, true;
    }
    rows' := rows[i := Categorized(rows[i], o)];
    assert os[..i + 1][..i] == os[..i] && os[..i + 1][i] == o;
    columns' := AddColumns(columns, WrittenColumns(o));
    raised := false;
  }

  /** The loop of process_employee_matching: each row's cells are written
      in place. */
  method CategorizeRows(m: Frame, similarity: (string, string) -> real, threshold: real) returns (result: Option<Frame>)
    ensures result == CategorizedFrame(m, similarity, threshold)
  {
    ghost var os := Outcomes(m.rows, "Meal type" in m.columns, similarity, threshold);
    var columns := m.columns;
    var rows := m.rows;
    for i := 0 to |rows|
      invariant CategorizedUpTo(m, os, rows, columns, i)
    {
      var raised;
      rows, columns, raised := CategorizeRow(m, similarity, threshold, os, rows, columns, i);
      if raised {
        return None;
      }
    }
    assert os[..|rows|] == os;
    assert !BackfillRaises(m, similarity, threshold);
    assert rows == seq(|m.rows|, i requires 0 <= i < |m.rows| => Categorized(m.rows[i], os[i]));
    return Some(Frame(columns, rows));
  }

  /** process_employee_matching */
  method ProcessEmployeeMatching(f: Frame, roster: Option<Table>, similarity: (string, string) -> real,
                                 threshold: real) returns (result: Option<Frame>)
    ensures result == Matching(f, roster, similarity, threshold)
  {
    var input := MatchingInput(f, roster);
    if input.None? {
      return None;
    }
    result := CategorizeRows(input.value, similarity, threshold);
  }

  /** The categories of the matching loop in priority order: no meal type
      gives 2; a code and an Emp ID give 1 above the threshold, 4 below it
      (with eligibility 'No' and amount 0), and nothing at all when equal;
      a missing code gives 3 and takes the Emp ID, even a missing one; a
      missing Emp ID alone leaves only a comment. Eligibility and amount
      change in the mismatch branch only. */
  lemma CategoryAssignment(r: Row, hasMealType: bool, similarity: (string, string) -> real, threshold: real)
    ensures
      var meal := if hasMealType then Get(r, "Meal type") else Missing;
      var code := Get(r, "Code");
      var empId := Get(r, "Emp ID");
      var score := similarity(TextOf(empId), TextOf(code));
      var out := Categorized(r, Classify(r, hasMealType, similarity, threshold));
      && (meal.Missing? ==> Get(out, "Category") == Num(2.0) && Get(out, "Comment") == Str("Not a Meal"))
      && (!meal.Missing? && !code.Missing? && !empId.Missing? && score > threshold ==>
            Get(out, "Category") == Num(1.0) && Get(out, "Comment") == Str(""))
      && (!meal.Missing? && !code.Missing? && !empId.Missing? && score < threshold ==>
            Get(out, "Category") == Num(4.0) && Get(out, EligibleColumn) == Str("No") && Get(out, AmountColumn) == Num(0.0))
      && (!meal.Missing? && !code.Missing? && !empId.Missing? && score == threshold ==> out == r)
      && (!meal.Missing? && code.Missing? ==>
            Get(out, "Category") == Num(3.0) && Get(out, "Code") == empId && Get(out, "Comment") == Str(BackfillComment))
      && (!meal.Missing? && !code.Missing? && empId.Missing? ==>
            Get(out, "Category") == Get(r, "Category") && Get(out, "Comment") == Str(EmpIdMissingComment))
      && (!(!meal.Missing? && !code.Missing? && !empId.Missing? && score < threshold) ==>
            Get(out, EligibleColumn) == Get(r, EligibleColumn) && Get(out, AmountColumn) == Get(r, AmountColumn))
  {
  }

  // ---------------------------------------------------------------------
  // remove_duplicates
  // ---------------------------------------------------------------------

  /** Whether some row holds this key. */
  predicate HasKey<R, K(==)>(rows: seq<R>, key: R -> K, k: K)
  {
    exists i :: 0 <= i < |rows| && key(rows[i]) == k
  }

  /** drop_duplicates(keep='last'): a row is kept when no later row has its key. */
  function KeepLast<R, K(==)>(rows: seq<R>, key: R -> K): (kept: seq<R>)
    ensures |kept| <= |rows|
  {
    if rows == [] then []
    else (if HasKey(rows[1..], key, key(rows[0])) then [] else [rows[0]]) + KeepLast(rows[1..], key)
  }

  /** xs is xs' elements taken in order from ys. */
  ghost predicate IsSubsequence<R>(xs: seq<R>, ys: seq<R>)
    decreases |ys|
  {
    xs == [] || (ys != [] && ((xs[0] == ys[0] && IsSubsequence(xs[1..], ys[1..])) || IsSubsequence(xs, ys[1..])))
  }

  predicate DistinctKeys<R, K(==)>(rows: seq<R>, key: R -> K)
  {
    forall i, j :: 0 <= i < j < |rows| ==> key(rows[i]) != key(rows[j])
  }

  /** The kept rows keep their order, hold every key of the input once, and
      each is the last row of the input with its key. */
  lemma {:induction false} KeepLastSpec<R, K>(rows: seq<R>, key: R -> K)
    ensures IsSubsequence(KeepLast(rows, key), rows)
    ensures DistinctKeys(KeepLast(rows, key), key)
    ensures forall k :: HasKey(KeepLast(rows, key), key, k) <==> HasKey(rows, key, k)
    ensures forall i :: 0 <= i < |KeepLast(rows, key)| ==>
      exists j :: 0 <= j < |rows| && rows[j] == KeepLast(rows, key)[i] && !HasKey(rows[j + 1..], key, key(rows[j]))
  {
    if rows != [] {
      var rest := rows[1..];
      KeepLastSpec(rest, key);
      var kr := KeepLast(rest, key);
      var kept := KeepLast(rows, key);
      forall k ensures HasKey(rest, key, k) ==> HasKey(rows, key, k) {
        if HasKey(rest, key, k) {
          var i :| 0 <= i < |rest| && key(rest[i]) == k;
          assert key(rows[i + 1]) == k;
        }
      }
      forall k ensures HasKey(rows, key, k) ==> HasKey(rest, key, k) || key(rows[0]) == k {
        if HasKey(rows, key, k) {
          var i :| 0 <= i < |rows| && key(rows[i]) == k;
          if i > 0 { assert key(rest[i - 1]) == k; }
        }
      }
      if HasKey(rest, key, key(rows[0])) {
        assert kept == kr;
        assert IsSubsequence(kept, rows);
        forall i | 0 <= i < |kept| ensures exists j :: 0 <= j < |rows| && rows[j] == kept[i] && !HasKey(rows[j + 1..], key, key(rows[j])) {
          var j :| 0 <= j < |rest| && rest[j] == kr[i] && !HasKey(rest[j + 1..], key, key(rest[j]));
          assert rows[j + 1] == rest[j] && rows[j + 2..] == rest[j + 1..];
        }
      } else {
        assert kept == [rows[0]] + kr;
        assert kept[1..] == kr;
        assert IsSubsequence(kept, rows);
        forall i, j | 0 <= i < j < |kept| ensures key(kept[i]) != key(kept[j]) {
          if i == 0 {
            assert kept[j] == kr[j - 1];
            assert HasKey(kr, key, key(kr[j - 1]));
          } else {
            assert kept[i] == kr[i - 1] && kept[j] == kr[j - 1];
          }
        }
        forall k ensures HasKey(kept, key, k) <==> HasKey(rows, key, k) {
          if HasKey(kept, key, k) {
            var i :| 0 <= i < |kept| && key(kept[i]) == k;
            if i > 0 { assert key(kr[i - 1]) == k; }
          }
          if HasKey(rows, key, k) {
            if key(rows[0]) == k {
              assert key(kept[0]) == k;
            } else {
              assert HasKey(kr, key, k);
              var i :| 0 <= i < |kr| && key(kr[i]) == k;
              assert key(kept[i + 1]) == k;
            }
          }
        }
        forall i | 0 <= i < |kept| ensures exists j :: 0 <= j < |rows| && rows[j] == kept[i] && !HasKey(rows[j + 1..], key, key(rows[j])) {
          if i == 0 {
            assert rows[1..] == rest;
          } else {
            var j :| 0 <= j < |rest| && rest[j] == kr[i - 1] && !HasKey(rest[j + 1..], key, key(rest[j]));
            assert rows[j + 1] == rest[j] && rows[j + 2..] == rest[j + 1..];
          }
        }
      }
    }
  }

  /** Rows with distinct keys are kept as they are. */
  lemma {:induction false} KeepLastDistinct<R, K>(rows: seq<R>, key: R -> K)
    requires DistinctKeys(rows, key)
    ensures KeepLast(rows, key) == rows
  {
    if rows != [] {
      assert DistinctKeys(rows[1..], key) by {
        forall i, j | 0 <= i < j < |rows[1..]| ensures key(rows[1..][i]) != key(rows[1..][j]) {
          assert rows[1..][i] == rows[i + 1] && rows[1..][j] == rows[j + 1];
        }
      }
      KeepLastDistinct(rows[1..], key);
    }
  }

  /** Removing duplicates twice is removing them once. */
  lemma KeepLastIdempotent<R, K>(rows: seq<R>, key: R -> K)
    ensures KeepLast(KeepLast(rows, key), key) == KeepLast(rows, key)
  {
    KeepLastSpec(rows, key);
    KeepLastDistinct(KeepLast(rows, key), key);
  }

  /** The (Date, UserID) key of a worksheet row. */
  function DateUserKey(header: seq<string>): seq<string> -> (string, string)
  {
    row => (Cell(Table(header, []), row, "Date"), Cell(Table(header, []), row, "UserID"))
  }

  /** remove_duplicates on the archive read back as text; without a 'Date'
      or 'UserID' column it raises (None). */
  function RemoveDuplicates(t: Table): (r: Option<Table>)
    ensures r.None? <==> "Date" !in t.header || "UserID" !in t.header
    ensures r.Some? ==> r.value.header == t.header
  {
    if "Date" !in t.header || "UserID" !in t.header then None
    else Some(Table(t.header, KeepLast(t.rows, DateUserKey(t.header))))
  }
}
