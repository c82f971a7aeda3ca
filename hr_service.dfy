/** The monthly run and the dashboard queries
    (backend/services/hr_service.py). The run is modelled sequentially: the
    images of a batch are processed one after the other, in order. */
module HrService {
  import opened Common
  import opened Frames
  import opened OcrEngine
  import opened PostProcessing
  import opened ProgressStore
  import opened Utils

  // ---------------------------------------------------------------------
  // Batches and progress
  // ---------------------------------------------------------------------

  const BatchSize: nat := 20

  /** create_batches: consecutive slices of `size` items, the last one
      possibly shorter. */
  function Batches<T>(items: seq<T>, size: nat): (bs: seq<seq<T>>)
    requires size > 0
    ensures forall k :: 0 <= k < |bs| ==> 0 < |bs[k]| <= size
    decreases |items|
  {
    if items == [] then []
    else if |items| <= size then [items]
    else [items[..size]] + Batches(items[size..], size)
  }

  /** The batches put back together are the items; every batch but the
      last is full; and there are ceil(n / size) of them. */
  lemma BatchesSpec<T>(items: seq<T>, size: nat)
    requires size > 0
    ensures Flatten(Batches(items, size)) == items
    ensures forall k :: 0 <= k < |Batches(items, size)| - 1 ==> |Batches(items, size)[k]| == size
    ensures |Batches(items, size)| == 0 <==> items == []
    ensures items != [] ==> (|Batches(items, size)| - 1) * size < |items| <= |Batches(items, size)| * size
  {
    BatchesFlatten(items, size);
    BatchesFull(items, size);
    BatchesCount(items, size);
  }

  lemma {:induction false} BatchesFlatten<T>(items: seq<T>, size: nat)
    requires size > 0
    ensures Flatten(Batches(items, size)) == items
    decreases |items|
  {
    if |items| > size {
      BatchesFlatten(items[size..], size);
      assert items[..size] + items[size..] == items;
    } else if items != [] {
      assert Flatten([items]) == items + Flatten([]);
    }
  }

  lemma {:induction false} BatchesFull<T>(items: seq<T>, size: nat)
    requires size > 0
    ensures forall k :: 0 <= k < |Batches(items, size)| - 1 ==> |Batches(items, size)[k]| == size
    decreases |items|
  {
    if |items| > size {
      var rest := items[size..];
      BatchesFull(rest, size);
      var bs := Batches(items, size);
      forall k | 0 <= k < |bs| - 1 ensures |bs[k]| == size {
        if k > 0 { assert bs[k] == Batches(rest, size)[k - 1]; }
      }
    }
  }

  lemma {:induction false} BatchesCount<T>(items: seq<T>, size: nat)
    requires size > 0
    ensures |Batches(items, size)| == 0 <==> items == []
    ensures items != [] ==> (|Batches(items, size)| - 1) * size < |items| <= |Batches(items, size)| * size
    decreases |items|
  {
    if |items| > size {
      var rest := items[size..];
      BatchesCount(rest, size);
      var m := |Batches(rest, size)|;
      assert |Batches(items, size)| == m + 1;
      assert (m + 1) * size == m * size + size;
      assert m * size == (m - 1) * size + size;
    }
  }

  /** The progress reported for batch k (counted from 1). */
  function BatchProgress(k: nat): int
  {
    35 + (k - 1) * 10
  }

  function BatchStatus(k: nat, total: nat): string
  {
    "Processing OCR batch " + NatToString(k) + "/" + NatToString(total) + "..."
  }

  /** The updates of the first n batches of `total`. */
  function BatchLog(id: string, n: nat, total: nat): (log: seq<(string, int, string)>)
    ensures |log| == n
    ensures forall k :: 0 <= k < n ==> log[k] == (id, BatchProgress(k + 1), BatchStatus(k + 1, total))
  {
    if n == 0 then [] else BatchLog(id, n - 1, total) + [(id, BatchProgress(n), BatchStatus(n, total))]
  }

  const InitStatus := "Initializing components..."
  const DownloadStatus := "Downloading from Google Drive..."
  const ScanStatus := "Scanning employee folders..."
  const PostStatus := "Post-processing data..."
  const MatchStatus := "Matching employee data..."
  const PushStatus := "Pushing to archive sheet..."

  /** The k-th update before the batch loop: initialising, downloading,
      scanning. */
  function StartUpdate(id: string, k: nat): (string, int, string)
    requires k < 3
  {
    if k == 0 then (id, 5, InitStatus) else if k == 1 then (id, 15, DownloadStatus) else (id, 25, ScanStatus)
  }

  /** The first `reached` of the updates before the batch loop. */
  function StartLog(id: string, reached: nat): (log: seq<(string, int, string)>)
    requires reached <= 3
    ensures |log| == reached
    ensures forall k :: 0 <= k < reached ==> log[k] == StartUpdate(id, k)
  {
    if reached == 0 then [] else StartLog(id, reached - 1) + [StartUpdate(id, reached - 1)]
  }

  /** The k-th update after the batch loop: before reading the staging
      file, before the matching, before the push. */
  function PostUpdate(id: string, k: nat): (string, int, string)
    requires k < 3
  {
    if k == 0 then (id, 90, PostStatus) else if k == 1 then (id, 95, MatchStatus) else (id, 98, PushStatus)
  }

  /** The first `reached` of the updates after the batch loop. */
  function PostLog(id: string, reached: nat): (log: seq<(string, int, string)>)
    requires reached <= 3
    ensures |log| == reached
    ensures forall k :: 0 <= k < reached ==> log[k] == PostUpdate(id, k)
  {
    if reached == 0 then [] else PostLog(id, reached - 1) + [PostUpdate(id, reached - 1)]
  }

  /** The progress values of a run that completes with `total` batches. */
  function CompletedProgress(total: nat): (ps: seq<int>)
    ensures |ps| == total + 6
  {
    [5, 15, 25] + seq(total, k requires 0 <= k < total => BatchProgress(k + 1)) + [90, 95, 98]
  }

  /** The batch progress is not capped: a completed run reports strictly
      increasing progress exactly when it has at most six batches; with
      seven the last batch reports 95, above the 90 that follows, and from
      eight on a batch reports more than 100. */
  lemma ProgressOrder(total: nat)
    ensures (forall i, j :: 0 <= i < j < |CompletedProgress(total)| ==> CompletedProgress(total)[i] < CompletedProgress(total)[j])
            <==> total <= 6
    ensures total >= 8 ==> exists i :: 0 <= i < |CompletedProgress(total)| && CompletedProgress(total)[i] > 100
  {
    var ps := CompletedProgress(total);
    if total <= 6 {
      forall i, j | 0 <= i < j < |ps| ensures ps[i] < ps[j] {
        if 3 <= i < total + 3 { assert ps[i] == BatchProgress(i - 2); }
        if 3 <= j < total + 3 { assert ps[j] == BatchProgress(j - 2); }
      }
    } else {
      assert ps[total + 2] == BatchProgress(total) && ps[total + 3] == 90;
      assert BatchProgress(total) >= 95;
    }
    if total >= 8 {
      assert ps[10] == BatchProgress(8) == 105;
    }
  }

  // ---------------------------------------------------------------------
  // The inputs of a run
  // ---------------------------------------------------------------------

  /** The configuration values the run reads. */
  datatype Config = Config(mealTypes: seq<string>, rate: real, threshold: real,
                           supportedFormats: Option<seq<string>>)

  /** What the run reads from outside: the downloaded employee folders, the
      walks of their month folders, the OCR models, the pandas conversions
      and the two rosters. */
  datatype Sources = Sources(
    employeeNames: Option<seq<string>>,             // download_employee_data; None when it raises
    monthFolder: string -> Option<seq<Directory>>,  // the walk of an employee's month folder; None when absent
    join: (string, string) -> string,               // os.path.join
    models: Models,
    showAmount: real -> string,                     // str() of a float
    parseNumber: string -> Option<real>,            // pd.to_numeric of a text
    show: Value -> string,                          // astype(str) of a cell
    parseStamp: string -> Option<Date>,             // pd.to_datetime(format='mixed') of a text
    names: SheetRead,                               // 'Grazitti Data'
    employeeData: SheetRead)                        // 'Employee Data'

  /** Why a run ends with "Error during processing". */
  datatype Failure =
    | DownloadFailed          // the Drive download raised
    | StagingFileMissing      // no image was saved, so the staging CSV does not exist
    | NamesUnreadable         // the 'Grazitti Data' worksheet has no row
    | EmployeeDataUnreadable  // the 'Employee Data' worksheet has no row
    | MatchingFailed          // the merge or the matching loop raised
    | ArchiveColumnsMissing   // the archive read back has no 'Date' or 'UserID' column

  // ---------------------------------------------------------------------
  // Collecting the images
  // ---------------------------------------------------------------------

  /** The image files of the month folders of these employees, in order. */
  function ImageFiles(names: seq<string>, src: Sources, cfg: Config): seq<string>
  {
    if names == [] then []
    else
      var last := names[|names| - 1];
      ImageFiles(names[..|names| - 1], src, cfg) +
        match src.monthFolder(last)
        case None => []
        case Some(walk) => Listed(walk, EffectiveExtensions(cfg.supportedFormats), src.join)
  }

  /** Step 2: scan each employee's month folder that exists. */
  method CollectImages(names: seq<string>, src: Sources, cfg: Config) returns (images: seq<string>)
    ensures images == ImageFiles(names, src, cfg)
  {
    images := [];
    for k := 0 to |names|
      invariant images == ImageFiles(names[..k], src, cfg)
    {
      assert names[..k + 1][..k] == names[..k];
      var walk := src.monthFolder(names[k]);
      if walk.Some? {
        var files := ListFilesRecursive(walk.value, cfg.supportedFormats, src.join);
        images := images + files;
      }
    }
    assert names[..|names|] == names;
  }

  // ---------------------------------------------------------------------
  // The OCR loop
  // ---------------------------------------------------------------------

  /** process_single_image: process_image, with an exception counted as no
      record. */
  function ReadImage(m: Models): string -> Option<Extraction>
  {
    path => ImageRecord(path, m)
  }

  /** The records saved for these images, in order: one per image that
      `read` turns into a record. */
  function Saved(images: seq<string>, read: string -> Option<Extraction>): (records: seq<Extraction>)
    ensures |records| <= |images|
  {
    if images == [] then []
    else
      var last := images[|images| - 1];
      Saved(images[..|images| - 1], read) +
        match read(last)
        case None => []
        case Some(e) => [e]
  }

  /** The records of two runs of images one after the other. */
  lemma {:induction false} SavedAppend(xs: seq<string>, ys: seq<string>, read: string -> Option<Extraction>)
    ensures Saved(xs + ys, read) == Saved(xs, read) + Saved(ys, read)
    decreases |ys|
  {
    if ys != [] {
      var init := ys[..|ys| - 1];
      SavedAppend(xs, init, read);
      assert (xs + ys)[..|xs + ys| - 1] == xs + init;
      assert (xs + ys)[|xs + ys| - 1] == ys[|ys| - 1];
    } else {
      assert xs + ys == xs;
    }
  }

  /** One more image adds its record, if it yields one. */
  lemma SavedStep(images: seq<string>, i: nat, read: string -> Option<Extraction>)
    requires i < |images|
    ensures Saved(images[..i + 1], read) ==
      Saved(images[..i], read) + (if read(images[i]).Some? then [read(images[i]).value] else [])
  {
    assert images[..i + 1][..i] == images[..i];
    assert images[..i + 1][i] == images[i];
  }

  /** The records of the first b + 1 batches are those of the first b
      followed by those of batch b. */
  lemma SavedBatches(batches: seq<seq<string>>, b: nat, read: string -> Option<Extraction>)
    requires b < |batches|
    ensures Saved(Flatten(batches[..b + 1]), read) == Saved(Flatten(batches[..b]), read) + Saved(batches[b], read)
  {
    var single := [batches[b]];
    FlattenAppend(batches[..b], single);
    assert batches[..b + 1] == batches[..b] + single;
    assert Flatten(single) == batches[b] by {
      assert |single[1..]| == 0;
    }
    SavedAppend(Flatten(batches[..b]), batches[b], read);
  }

  /** One record appended to the staging file, which is created with its
      header by the first one. */
  method SaveRecord(staging: StagingFile, saved: seq<Extraction>, e: Extraction, showAmount: real -> string)
    returns (after: seq<Extraction>)
    requires staging.lines == StagingLines(saved, showAmount) && (staging.present <==> saved != [])
    modifies staging
    ensures after == saved + [e]
    ensures staging.lines == StagingLines(after, showAmount) && staging.present
  {
    StagingLinesSnoc(saved, e, showAmount);
    staging.SaveToCsv(e, showAmount);
    after := saved + [e];
  }

  /** The images of one batch, in order: each one that yields a record has
      it appended to the staging file and is counted. */
  method SaveBatch(staging: StagingFile, batch: seq<string>, read: string -> Option<Extraction>, showAmount: real -> string,
                   saved0: seq<Extraction>) returns (saved: seq<Extraction>, count: nat)
    requires staging.lines == StagingLines(saved0, showAmount) && (staging.present <==> saved0 != [])
    modifies staging
    ensures saved == saved0 + Saved(batch, read) && count == |Saved(batch, read)|
    ensures staging.lines == StagingLines(saved, showAmount) && (staging.present <==> saved != [])
  {
    saved := saved0;
    count := 0;
    for i := 0 to |batch|
      invariant saved == saved0 + Saved(batch[..i], read) && count == |saved| - |saved0|
      invariant staging.lines == StagingLines(saved, showAmount) && (staging.present <==> saved != [])
    {
      ghost var prefix := Saved(batch[..i], read);
      var record := read(batch[i]);
      SavedStep(batch, i, read);
      if record.Some? {
        saved := SaveRecord(staging, saved, record.value, showAmount);
        count := count + 1;
        AppendAssoc(saved0, prefix, [record.value]);
      } else {
        assert prefix + [] == prefix;
      }
    }
    assert batch[..|batch|] == batch;
  }

  /** One progress update of the job, seen as the next entry of the run's
      log since `log0` and `jobs0`. */
  method Advance(store: Store, id: string, progress: int, status: string, ghost log0: seq<(string, int, string)>,
                 ghost jobs0: map<string, Job>, ghost done: seq<(string, int, string)>)
    requires id in jobs0
    requires store.log == log0 + done && store.jobs == Replay(jobs0, done)
    modifies store
    ensures store.log == log0 + (done + [(id, progress, status)])
    ensures store.jobs == Replay(jobs0, done + [(id, progress, status)])
  {
    ReplaySnoc(jobs0, done, (id, progress, status));
    store.Update(id, progress, status);
    AppendAssoc(log0, done, [(id, progress, status)]);
  }

  /** The announcement of batch b + 1 of `total`. */
  method AnnounceBatch(store: Store, id: string, b: nat, total: nat,
                       ghost log0: seq<(string, int, string)>, ghost jobs0: map<string, Job>)
    requires id in jobs0
    requires store.log == log0 + BatchLog(id, b, total) && store.jobs == Replay(jobs0, BatchLog(id, b, total))
    modifies store
    ensures store.log == log0 + BatchLog(id, b + 1, total) && store.jobs == Replay(jobs0, BatchLog(id, b + 1, total))
  {
    Advance(store, id, BatchProgress(b + 1), BatchStatus(b + 1, total), log0, jobs0, BatchLog(id, b, total));
    assert BatchLog(id, b + 1, total) == BatchLog(id, b, total) + [(id, BatchProgress(b + 1), BatchStatus(b + 1, total))];
  }

  /** Batch b of step 3: announced with its progress, then its images
      saved in order. */
  method RunBatch(store: Store, id: string, staging: StagingFile, batches: seq<seq<string>>, b: nat,
                  read: string -> Option<Extraction>, showAmount: real -> string, saved0: seq<Extraction>,
                  ghost log0: seq<(string, int, string)>, ghost jobs0: map<string, Job>)
    returns (saved: seq<Extraction>, count: nat)
    requires b < |batches| && id in jobs0
    requires saved0 == Saved(Flatten(batches[..b]), read)
    requires staging.lines == StagingLines(saved0, showAmount) && (staging.present <==> saved0 != [])
    requires store.log == log0 + BatchLog(id, b, |batches|) && store.jobs == Replay(jobs0, BatchLog(id, b, |batches|))
    modifies store, staging
    ensures saved == Saved(Flatten(batches[..b + 1]), read) && count == |saved| - |saved0|
    ensures staging.lines == StagingLines(saved, showAmount) && (staging.present <==> saved != [])
    ensures store.log == log0 + BatchLog(id, b + 1, |batches|) && store.jobs == Replay(jobs0, BatchLog(id, b + 1, |batches|))
  {
    AnnounceBatch(store, id, b, |batches|, log0, jobs0);
    saved, count := SaveBatch(staging, batches[b], read, showAmount, saved0);
    SavedBatches(batches, b, read);
  }

  /** Step 3: the batches in order, each announced with its progress. `saved`
      is what the staging file then holds, record by record. */
  method RunOcr(store: Store, id: string, staging: StagingFile, images: seq<string>,
                read: string -> Option<Extraction>, showAmount: real -> string) returns (processed: nat, saved: seq<Extraction>)
    requires id in store.jobs
    requires !staging.present && staging.lines == []
    modifies store, staging
    ensures saved == Saved(images, read) && processed == |saved|
    ensures staging.lines == StagingLines(saved, showAmount)
    ensures staging.present <==> processed > 0
    ensures store.log == old(store.log) + BatchLog(id, |Batches(images, BatchSize)|, |Batches(images, BatchSize)|)
    ensures store.jobs == Replay(old(store.jobs), BatchLog(id, |Batches(images, BatchSize)|, |Batches(images, BatchSize)|))
  {
    var batches := Batches(images, BatchSize);
    var total := |batches|;
    ghost var log0, jobs0 := store.log, store.jobs;
    processed := 0;
    saved := [];
    assert store.log == log0 + BatchLog(id, 0, total);
    for b := 0 to total
      invariant saved == Saved(Flatten(batches[..b]), read) && processed == |saved|
      invariant staging.lines == StagingLines(saved, showAmount)
      invariant staging.present <==> processed > 0
      invariant store.log == log0 + BatchLog(id, b, total)
      invariant store.jobs == Replay(jobs0, BatchLog(id, b, total))
    {
      var count;
      saved, count := RunBatch(store, id, staging, batches, b, read, showAmount, saved, log0, jobs0);
      processed := processed + count;
    }
    assert batches[..total] == batches;
    BatchesSpec(images, BatchSize);
  }

  /** The saved records are exactly the records the images yield; with no
      image yielding one the staging file is never created. */
  lemma {:induction false} SavedSpec(images: seq<string>, read: string -> Option<Extraction>, e: Extraction)
    ensures e in Saved(images, read) <==> exists k :: 0 <= k < |images| && read(images[k]) == Some(e)
    ensures (forall k :: 0 <= k < |images| ==> read(images[k]).None?) ==> Saved(images, read) == []
  {
    if images != [] {
      var init := images[..|images| - 1];
      SavedSpec(init, read, e);
      if exists k :: 0 <= k < |init| && read(init[k]) == Some(e) {
        var k :| 0 <= k < |init| && read(init[k]) == Some(e);
        assert images[k] == init[k];
      }
      if exists k :: 0 <= k < |images| && read(images[k]) == Some(e) {
        var k :| 0 <= k < |images| && read(images[k]) == Some(e);
        if k < |init| {
          assert init[k] == images[k];
        }
      }
      if forall k :: 0 <= k < |images| ==> read(images[k]).None? {
        forall k | 0 <= k < |init| ensures read(init[k]).None? {
          assert init[k] == images[k];
        }
      }
    }
  }

  // ---------------------------------------------------------------------
  // Reconciliation
  // ---------------------------------------------------------------------

  /** An empty text cell reads back from the CSV as missing. */
  function TextCell(s: string): Value
  {
    if s == "" then Missing else Str(s)
  }

  /** One staged record as pd.read_csv gives it back. */
  function StagedRow(e: Extraction): (r: Row)
    ensures forall c :: c in StagingHeader ==> c in r
  {
    map["Date" := (if e.date.Some? then Str(e.date.value) else Missing),
        "Code" := TextCell(e.code),
        "Amount" := (if e.amount.Some? then Num(e.amount.value) else Missing),
        "Company" := TextCell(e.company),
        "Meal" := TextCell(e.meal),
        "Image_name" := TextCell(e.imageName)]
  }

  /** pd.read_csv of the staging file. */
  function StagedFrame(records: seq<Extraction>): (f: Frame)
    ensures f.columns == StagingHeader && |f.rows| == |records|
  {
    Frame(StagingHeader, seq(|records|, i requires 0 <= i < |records| => StagedRow(records[i])))
  }

  function RosterOf(read: SheetRead): Option<Table>
  {
    if read.Read? then Some(read.table) else None
  }

  /** Step 4, in its fixed order: mode fill, code repair, eligibility,
      amount, names, day, month and year. */
  function Prepared(df: Frame, cfg: Config, src: Sources): Frame
  {
    var filled := ModeFilled(df, src.parseNumber, src.show, src.showAmount);
    var repaired := ReplaceCharactersInCode(filled);
    var eligible := AddReimbursementColumn(repaired, cfg.mealTypes);
    var paid := AddReimbursementAmount(eligible, cfg.rate);
    var named := FillEmployeeNames(RosterOf(src.names), paid);
    var dated := ExtractDay(named, src.parseStamp);
    ExtractMonthYear(dated, src.parseStamp)
  }

  /** Steps 4 and 5 on the saved records: the frame to push or why the run
      fails, with the number of progress updates made after the OCR loop
      (90 before the staging file is read, 95 before the matching, 98 after). */
  datatype Reconciliation = Reconciliation(final: Option<Frame>, failure: Option<Failure>, updates: nat)

  function Reconcile(records: seq<Extraction>, cfg: Config, src: Sources): (r: Reconciliation)
    ensures r.final.Some? <==> r.failure.None?
    ensures 1 <= r.updates <= 3 && (r.final.Some? <==> r.updates == 3)
  {
    if records == [] then Reconciliation(None, Some(StagingFileMissing), 1)
    else if src.names.Unreadable? then Reconciliation(None, Some(NamesUnreadable), 1)
    else if src.employeeData.Unreadable? then Reconciliation(None, Some(EmployeeDataUnreadable), 2)
    else
      var prepared := Prepared(StagedFrame(records), cfg, src);
      match Matching(prepared, RosterOf(src.employeeData), src.models.similarity, cfg.threshold)
      case None => Reconciliation(None, Some(MatchingFailed), 2)
      case Some(final) => Reconciliation(Some(final), None, 3)
  }

  // ---------------------------------------------------------------------
  // The ledger
  // ---------------------------------------------------------------------

  /** The archive after step 6, and whether the deduplication raised. */
  datatype Ledger = Ledger(sheet: seq<seq<string>>, failure: Option<Failure>)

  /** Step 6 on the archive's cells: append the frame, read the sheet back,
      keep the last row of each (Date, UserID) and overwrite the sheet. */
  function LedgerAfter(before: seq<seq<string>>, final: Frame, show: Value -> string): Ledger
  {
    var pushed := PushedSheet(before, final.columns, Render(final, show), true);
    match SheetOf(pushed)
    case Read(t) =>
      (match RemoveDuplicates(t)
       case None => Ledger(pushed, Some(ArchiveColumnsMissing))
       case Some(kept) => Ledger(PushedSheet(pushed, kept.header, kept.rows, false), None))
    case _ => Ledger(pushed, None)
  }

  /** The deduplication raises exactly when the frame lacks a 'Date' or a
      'UserID' column; otherwise the archive ends with the frame's columns
      as its header and one row per (Date, UserID) key: the last one
      appended, so a new run replaces the rows it repeats. */
  lemma LedgerDistinctKeys(before: seq<seq<string>>, final: Frame, show: Value -> string)
    ensures LedgerAfter(before, final, show).failure.None? <==> "Date" in final.columns && "UserID" in final.columns
    ensures LedgerAfter(before, final, show).failure.None? ==>
      var sheet := LedgerAfter(before, final, show).sheet;
      var pushed := PushedSheet(before, final.columns, Render(final, show), true);
      && |sheet| >= 1 && sheet[0] == final.columns
      && DistinctKeys(sheet[1..], DateUserKey(final.columns))
      && sheet[1..] == KeepLast(pushed[1..], DateUserKey(final.columns))
  {
    var data := Render(final, show);
    var pushed := PushedSheet(before, final.columns, data, true);
    PushedSheetShape(before, final.columns, data, true);
    var t := Table(pushed[0], pushed[1..]);
    assert SheetOf(pushed) == Read(t);
    if "Date" in final.columns && "UserID" in final.columns {
      var kept := KeepLast(t.rows, DateUserKey(t.header));
      KeepLastSpec(t.rows, DateUserKey(t.header));
      PushedSheetShape(pushed, t.header, kept, false);
      assert ([t.header] + kept)[1..] == kept;
    }
  }

  /** With a header that differs from the frame's columns, the append
      becomes an overwrite: the earlier rows of the archive are lost. */
  lemma HeaderMismatchDropsHistory(before: seq<seq<string>>, final: Frame, show: Value -> string)
    requires before != [] && before[0] != final.columns
    ensures PushedSheet(before, final.columns, Render(final, show), true) == [final.columns] + Render(final, show)
  {
  }

  // ---------------------------------------------------------------------
  // process_month_data_with_progress
  // ---------------------------------------------------------------------

  const CompletedMessage := "Processing completed successfully"
  const NoImagesMessage := "No images found for processing"

  function FailedResult(failure: Failure, errorText: Failure -> string): RunResult
  {
    RunResult("Error during processing: " + errorText(failure), 0, None)
  }

  /** The failure texts start with "Error", so no failure reads as a
      completion or as the empty run. */
  lemma FailedIsNotCompleted(failure: Failure, errorText: Failure -> string)
    ensures FailedResult(failure, errorText).message != CompletedMessage
    ensures FailedResult(failure, errorText).message != NoImagesMessage
    ensures NoImagesMessage != CompletedMessage
  {
    assert FailedResult(failure, errorText).message[0] == 'E';
    assert CompletedMessage[0] == 'P' && NoImagesMessage[0] == 'N';
  }

  /** How a run ends: what it returns, the progress updates it makes, and
      the archive's cells afterwards (None when the spreadsheet is missing). */
  datatype RunEnd = RunEnd(result: RunResult, log: seq<(string, int, string)>, archive: Option<seq<seq<string>>>)

  /** Steps 4 to 6 once the OCR loop saved `records`. */
  function Finish(monthYear: string, id: string, records: seq<Extraction>, cfg: Config, src: Sources,
                  archive: Option<seq<seq<string>>>, errorText: Failure -> string): (e: RunEnd)
    ensures 1 <= |e.log| <= 3 && e.log == PostLog(id, |e.log|)
  {
    var rec := Reconcile(records, cfg, src);
    var log := PostLog(id, rec.updates);
    if rec.final.None? then RunEnd(FailedResult(rec.failure.value, errorText), log, archive)
    else
      var done := RunResult(CompletedMessage, |records|, Some(monthYear));
      if archive.None? then RunEnd(done, log, None)
      else
        var ledger := LedgerAfter(archive.value, rec.final.value, src.show);
        RunEnd(if ledger.failure.Some? then FailedResult(ledger.failure.value, errorText) else done,
               log, Some(ledger.sheet))
  }

  /** Steps 3 to 6 over the images found: the OCR loop's updates, then the
      end of the run over the records it saved. */
  function OcrEnd(monthYear: string, id: string, images: seq<string>, cfg: Config, src: Sources,
                  archive: Option<seq<seq<string>>>, errorText: Failure -> string): RunEnd
  {
    var f := Finish(monthYear, id, Saved(images, ReadImage(src.models)), cfg, src, archive, errorText);
    var total := |Batches(images, BatchSize)|;
    RunEnd(f.result, BatchLog(id, total, total) + f.log, f.archive)
  }

  /** The whole run, step by step. */
  function RunOf(monthYear: string, id: string, cfg: Config, src: Sources,
                 archive: Option<seq<seq<string>>>, errorText: Failure -> string): RunEnd
  {
    if src.employeeNames.None? then RunEnd(FailedResult(DownloadFailed, errorText), StartLog(id, 2), archive)
    else
      var images := ImageFiles(src.employeeNames.value, src, cfg);
      if images == [] then RunEnd(RunResult(NoImagesMessage, 0, None), StartLog(id, 3), archive)
      else
        var o := OcrEnd(monthYear, id, images, cfg, src, archive, errorText);
        RunEnd(o.result, StartLog(id, 3) + o.log, o.archive)
  }

  /** The stages of step 4 applied to the staged frame. */
  method PrepareFrame(df: Frame, cfg: Config, src: Sources) returns (g: Frame)
    ensures g == Prepared(df, cfg, src)
  {
    g := FillMissingAmountWithMode(df, src.parseNumber, src.show, src.showAmount);
    g := ReplaceCharactersInCode(g);
    g := AddReimbursementColumn(g, cfg.mealTypes);
    g := AddReimbursementAmount(g, cfg.rate);
    g := FillEmployeeNames(RosterOf(src.names), g);
    g := ExtractDay(g, src.parseStamp);
    g := ExtractMonthYear(g, src.parseStamp);
  }

  /** Step 6: the append push, the read back, the deduplication and the
      overwrite push; nothing happens without the spreadsheet. */
  method UpdateLedger(archive: Worksheet?, final: Frame, show: Value -> string) returns (failure: Option<Failure>)
    modifies archive
    ensures archive == null ==> failure.None?
    ensures archive != null ==>
      var ledger := LedgerAfter(old(archive.values), final, show);
      archive.values == ledger.sheet && failure == ledger.failure
  {
    PushToSheet(archive, final.columns, Render(final, show), true);
    failure := None;
    if archive != null {
      var values := archive.GetAllValues();
      var read := SheetOf(values);
      if read.Read? {
        var kept := RemoveDuplicates(read.table);
        if kept.None? {
          return Some(ArchiveColumnsMissing);
        }
        PushToSheet(archive, kept.value.header, kept.value.rows, false);
      }
    }
  }

  /** Steps 4 and 5, with their progress updates. */
  method ReconcileRecords(store: Store, id: string, stagingPresent: bool, records: seq<Extraction>,
                          cfg: Config, src: Sources) returns (final: Option<Frame>, failure: Option<Failure>)
    requires id in store.jobs
    requires stagingPresent <==> records != []
    modifies store
    ensures var rec := Reconcile(records, cfg, src);
      && final == rec.final && failure == rec.failure
      && store.log == old(store.log) + PostLog(id, rec.updates)
      && store.jobs == Replay(old(store.jobs), PostLog(id, rec.updates))
  {
    ghost var log0, jobs0 := store.log, store.jobs;
    assert store.log == log0 + PostLog(id, 0);
    Advance(store, id, 90, PostStatus, log0, jobs0, PostLog(id, 0));
    assert PostLog(id, 1) == PostLog(id, 0) + [PostUpdate(id, 0)];
    if !stagingPresent {
      return None, Some(StagingFileMissing);
    }
    if src.names.Unreadable? {
      return None, Some(NamesUnreadable);
    }
    var df := PrepareFrame(StagedFrame(records), cfg, src);
    Advance(store, id, 95, MatchStatus, log0, jobs0, PostLog(id, 1));
    assert PostLog(id, 2) == PostLog(id, 1) + [PostUpdate(id, 1)];
    if src.employeeData.Unreadable? {
      return None, Some(EmployeeDataUnreadable);
    }
    final := ProcessEmployeeMatching(df, RosterOf(src.employeeData), src.models.similarity, cfg.threshold);
    if final.None? {
      return None, Some(MatchingFailed);
    }
    Advance(store, id, 98, PushStatus, log0, jobs0, PostLog(id, 2));
    assert PostLog(id, 3) == PostLog(id, 2) + [PostUpdate(id, 2)];
    failure := None;
  }

  /** Steps 4 to 6. */
  method FinishRun(monthYear: string, id: string, store: Store, stagingPresent: bool, records: seq<Extraction>,
                   processed: nat, archive: Worksheet?, cfg: Config, src: Sources,
                   errorText: Failure -> string) returns (result: RunResult)
    requires id in store.jobs
    requires stagingPresent <==> records != []
    requires processed == |records|
    modifies store, archive
    ensures var f := Finish(monthYear, id, records, cfg, src, if archive == null then None else Some(old(archive.values)), errorText);
      && result == f.result
      && store.log == old(store.log) + f.log
      && store.jobs == Replay(old(store.jobs), f.log)
      && (archive != null ==> Some(archive.values) == f.archive)
  {
    var final, failure := ReconcileRecords(store, id, stagingPresent, records, cfg, src);
    if failure.Some? {
      return FailedResult(failure.value, errorText);
    }
    var ledgerFailure := UpdateLedger(archive, final.value, src.show);
    if ledgerFailure.Some? {
      return FailedResult(ledgerFailure.value, errorText);
    }
    return RunResult(CompletedMessage, processed, Some(monthYear));
  }

  /** Steps 3 to 6 once images were found: the staging file is deleted, the
      OCR loop fills it, and the records it saved are reconciled. */
  method ScanAndFinish(monthYear: string, id: string, store: Store, staging: StagingFile, archive: Worksheet?,
                       images: seq<string>, cfg: Config, src: Sources, errorText: Failure -> string)
    returns (result: RunResult)
    requires id in store.jobs
    requires staging.present || staging.lines == []
    modifies store, staging, archive
    ensures var o := OcrEnd(monthYear, id, images, cfg, src, if archive == null then None else Some(old(archive.values)), errorText);
      && result == o.result
      && store.log == old(store.log) + o.log
      && store.jobs == Replay(old(store.jobs), o.log)
      && (archive != null ==> Some(archive.values) == o.archive)
    ensures staging.lines == StagingLines(Saved(images, ReadImage(src.models)), src.showAmount)
  {
    ghost var before := if archive == null then None else Some(archive.values);
    ghost var o := OcrEnd(monthYear, id, images, cfg, src, before, errorText);
    if staging.present {
      staging.Remove();
    }
    ghost var total := |Batches(images, BatchSize)|;
    var processed, saved := RunOcr(store, id, staging, images, ReadImage(src.models), src.showAmount);
    assert before == (if archive == null then None else Some(archive.values));
    assert id in store.jobs;
    assert staging.present <==> saved != [];
    ghost var f := Finish(monthYear, id, saved, cfg, src, before, errorText);
    assert o == RunEnd(f.result, BatchLog(id, total, total) + f.log, f.archive);
    ghost var log1 := store.log;
    result := FinishRun(monthYear, id, store, staging.present, saved, processed, archive, cfg, src, errorText);
    ReplayAppend(old(store.jobs), BatchLog(id, total, total), f.log);
    assert result == o.result;
    assert log1 == old(store.log) + BatchLog(id, total, total);
    assert store.log == log1 + f.log;
    AppendAssoc(old(store.log), BatchLog(id, total, total), f.log);
    assert store.log == old(store.log) + o.log;
    assert store.jobs == Replay(old(store.jobs), o.log);
    assert archive != null ==> Some(archive.values) == o.archive;
    assert staging.lines == StagingLines(Saved(images, ReadImage(src.models)), src.showAmount);
  }

  /** process_month_data_with_progress. `staging` is the month's staging
      CSV, `archive` the archive worksheet (null when the spreadsheet does
      not exist), and `errorText` the text of each failure's exception. */
  method ProcessMonthDataWithProgress(monthYear: string, id: string, store: Store, staging: StagingFile,
                                      archive: Worksheet?, cfg: Config, src: Sources,
                                      errorText: Failure -> string) returns (result: RunResult)
    requires id in store.jobs
    requires staging.present || staging.lines == []
    modifies store, staging, archive
    ensures var e := RunOf(monthYear, id, cfg, src, if archive == null then None else Some(old(archive.values)), errorText);
      && result == e.result
      && store.log == old(store.log) + e.log
      && store.jobs == Replay(old(store.jobs), e.log)
      && (archive != null ==> Some(archive.values) == e.archive)
    ensures src.employeeNames.Some? && ImageFiles(src.employeeNames.value, src, cfg) != [] ==>
      staging.lines == StagingLines(Saved(ImageFiles(src.employeeNames.value, src, cfg), ReadImage(src.models)), src.showAmount)
    ensures src.employeeNames.None? || ImageFiles(src.employeeNames.value, src, cfg) == [] ==>
      staging.present == old(staging.present) && staging.lines == old(staging.lines)
  {
    ghost var before := if archive == null then None else Some(archive.values);
    ghost var e := RunOf(monthYear, id, cfg, src, before, errorText);
    ghost var log0, jobs0 := store.log, store.jobs;
    assert store.log == log0 + StartLog(id, 0);
    Advance(store, id, 5, InitStatus, log0, jobs0, StartLog(id, 0));
    assert StartLog(id, 1) == StartLog(id, 0) + [StartUpdate(id, 0)];
    Advance(store, id, 15, DownloadStatus, log0, jobs0, StartLog(id, 1));
    assert StartLog(id, 2) == StartLog(id, 1) + [StartUpdate(id, 1)];
    if src.employeeNames.None? {
      assert e == RunEnd(FailedResult(DownloadFailed, errorText), StartLog(id, 2), before);
      return FailedResult(DownloadFailed, errorText);
    }
    Advance(store, id, 25, ScanStatus, log0, jobs0, StartLog(id, 2));
    assert StartLog(id, 3) == StartLog(id, 2) + [StartUpdate(id, 2)];
    var images := CollectImages(src.employeeNames.value, src, cfg);
    if images == [] {
      assert e == RunEnd(RunResult(NoImagesMessage, 0, None), StartLog(id, 3), before);
      return RunResult(NoImagesMessage, 0, None);
    }
    ghost var scanned := StartLog(id, 3);
    ghost var o := OcrEnd(monthYear, id, images, cfg, src, before, errorText);
    assert e == RunEnd(o.result, scanned + o.log, o.archive);
    result := ScanAndFinish(monthYear, id, store, staging, archive, images, cfg, src, errorText);
    ReplayAppend(jobs0, scanned, o.log);
    AppendAssoc(log0, scanned, o.log);
    assert result == e.result;
    assert store.log == log0 + e.log;
    assert store.jobs == Replay(jobs0, e.log);
    assert archive != null ==> Some(archive.values) == e.archive;
  }

  /** The progress log of a run that reached the OCR loop: the three start
      updates, one per batch, then the first `post` updates after the loop.
      Every entry names the job and follows the completed run's progress. */
  lemma {:induction false} LogFollowsProgress(id: string, total: nat, post: nat)
    requires post <= 3
    ensures var log := StartLog(id, 3) + BatchLog(id, total, total) + PostLog(id, post);
      && |log| == total + 3 + post
      && (forall k :: 0 <= k < |log| ==> log[k].0 == id && log[k].1 == CompletedProgress(total)[k])
  {
    var start := StartLog(id, 3);
    var batches := BatchLog(id, total, total);
    var after := PostLog(id, post);
    var log := start + batches + after;
    var ps := CompletedProgress(total);
    forall k | 0 <= k < |log| ensures log[k].0 == id && log[k].1 == ps[k] {
      if k < 3 {
        assert log[k] == StartUpdate(id, k);
      } else if k < total + 3 {
        assert log[k] == batches[k - 3];
        assert ps[k] == BatchProgress(k - 2);
      } else {
        assert log[k] == PostUpdate(id, k - total - 3);
      }
    }
  }

  /** How steps 4 to 6 end: a completion counts every saved record (there is
      at least one), reports all three updates and names the month; any
      other end counts nothing. With an archive, a completion leaves it with
      the final frame's columns as header and distinct (Date, UserID) keys. */
  lemma FinishOutcome(monthYear: string, id: string, records: seq<Extraction>, cfg: Config, src: Sources,
                      archive: Option<seq<seq<string>>>, errorText: Failure -> string)
    ensures var f := Finish(monthYear, id, records, cfg, src, archive, errorText);
      f.result.message == CompletedMessage ==>
        && records != [] && f.result.processedCount == |records| && f.result.monthYear == Some(monthYear)
        && |f.log| == 3
        && (archive.Some? ==> f.archive.Some? && |f.archive.value| >= 1 &&
                               DistinctKeys(f.archive.value[1..], DateUserKey(f.archive.value[0])))
    ensures var f := Finish(monthYear, id, records, cfg, src, archive, errorText);
      f.result.message != CompletedMessage ==> f.result.processedCount == 0 && f.result.monthYear.None?
  {
    var f := Finish(monthYear, id, records, cfg, src, archive, errorText);
    var rec := Reconcile(records, cfg, src);
    if rec.final.None? {
      FailedIsNotCompleted(rec.failure.value, errorText);
    } else if archive.Some? {
      var ledger := LedgerAfter(archive.value, rec.final.value, src.show);
      LedgerDistinctKeys(archive.value, rec.final.value, src.show);
      if ledger.failure.Some? {
        FailedIsNotCompleted(ledger.failure.value, errorText);
      }
    }
  }

  /** The log of a run that reaches the OCR loop: the three start updates,
      one per batch, then between one and three post-loop updates, all
      three on completion. */
  lemma RunLogShape(monthYear: string, id: string, cfg: Config, src: Sources,
                    archive: Option<seq<seq<string>>>, errorText: Failure -> string) returns (total: nat, post: nat)
    requires src.employeeNames.Some? && ImageFiles(src.employeeNames.value, src, cfg) != []
    ensures total == |Batches(ImageFiles(src.employeeNames.value, src, cfg), BatchSize)| && total > 0
    ensures 1 <= post <= 3
    ensures RunOf(monthYear, id, cfg, src, archive, errorText).log ==
      StartLog(id, 3) + BatchLog(id, total, total) + PostLog(id, post)
    ensures RunOf(monthYear, id, cfg, src, archive, errorText).result.message == CompletedMessage ==> post == 3
  {
    var images := ImageFiles(src.employeeNames.value, src, cfg);
    BatchesSpec(images, BatchSize);
    total := |Batches(images, BatchSize)|;
    var records := Saved(images, ReadImage(src.models));
    var f := Finish(monthYear, id, records, cfg, src, archive, errorText);
    FinishOutcome(monthYear, id, records, cfg, src, archive, errorText);
    post := |f.log|;
    AppendAssoc(StartLog(id, 3), BatchLog(id, total, total), f.log);
  }

  /** Every run that gets as far as the OCR loop reports 5, 15 and 25, then
      one progress per batch, then a prefix of 90, 95, 98; a completed run
      reports all three. */
  lemma RunProgress(monthYear: string, id: string, cfg: Config, src: Sources,
                    archive: Option<seq<seq<string>>>, errorText: Failure -> string)
    requires src.employeeNames.Some? && ImageFiles(src.employeeNames.value, src, cfg) != []
    ensures var e := RunOf(monthYear, id, cfg, src, archive, errorText);
      var total := |Batches(ImageFiles(src.employeeNames.value, src, cfg), BatchSize)|;
      && total > 0
      && total + 4 <= |e.log| <= total + 6
      && (forall k :: 0 <= k < |e.log| ==> e.log[k].0 == id)
      && (forall k :: 0 <= k < |e.log| && k < |CompletedProgress(total)| ==> e.log[k].1 == CompletedProgress(total)[k])
      && (e.result.message == CompletedMessage ==> |e.log| == total + 6)
  {
    var total, post := RunLogShape(monthYear, id, cfg, src, archive, errorText);
    LogFollowsProgress(id, total, post);
  }

  /** Every progress update of a run is about its own job. */
  lemma RunIds(monthYear: string, id: string, cfg: Config, src: Sources,
               archive: Option<seq<seq<string>>>, errorText: Failure -> string)
    ensures var e := RunOf(monthYear, id, cfg, src, archive, errorText);
      forall k :: 0 <= k < |e.log| ==> e.log[k].0 == id
  {
    if src.employeeNames.Some? && ImageFiles(src.employeeNames.value, src, cfg) != [] {
      RunProgress(monthYear, id, cfg, src, archive, errorText);
    }
  }

  /** A completed run counted exactly the saved records: at least one, at
      most one per image; a run that fails or finds no image counts none. */
  lemma RunCount(monthYear: string, id: string, cfg: Config, src: Sources,
                 archive: Option<seq<seq<string>>>, errorText: Failure -> string)
    ensures var e := RunOf(monthYear, id, cfg, src, archive, errorText);
      e.result.message == CompletedMessage ==>
        && src.employeeNames.Some?
        && var images := ImageFiles(src.employeeNames.value, src, cfg);
        && e.result.processedCount == |Saved(images, ReadImage(src.models))|
        && 0 < e.result.processedCount <= |images|
        && e.result.monthYear == Some(monthYear)
    ensures var e := RunOf(monthYear, id, cfg, src, archive, errorText);
      e.result.message != CompletedMessage ==> e.result.processedCount == 0 && e.result.monthYear.None?
  {
    if src.employeeNames.None? {
      FailedIsNotCompleted(DownloadFailed, errorText);
    } else {
      var images := ImageFiles(src.employeeNames.value, src, cfg);
      if images == [] {
        FailedIsNotCompleted(DownloadFailed, errorText);
      } else {
        FinishOutcome(monthYear, id, Saved(images, ReadImage(src.models)), cfg, src, archive, errorText);
      }
    }
  }

  /** A completed run with an archive leaves it with the final frame's
      columns as its header and distinct (Date, UserID) keys. */
  lemma RunLedger(monthYear: string, id: string, cfg: Config, src: Sources,
                  before: seq<seq<string>>, errorText: Failure -> string)
    ensures var e := RunOf(monthYear, id, cfg, src, Some(before), errorText);
      e.result.message == CompletedMessage ==>
        && e.archive.Some? && |e.archive.value| >= 1
        && DistinctKeys(e.archive.value[1..], DateUserKey(e.archive.value[0]))
  {
    if src.employeeNames.None? {
      FailedIsNotCompleted(DownloadFailed, errorText);
    } else {
      var images := ImageFiles(src.employeeNames.value, src, cfg);
      if images == [] {
        FailedIsNotCompleted(DownloadFailed, errorText);
      } else {
        FinishOutcome(monthYear, id, Saved(images, ReadImage(src.models)), cfg, src, Some(before), errorText);
      }
    }
  }
}
