/** The spreadsheet import screen: validation of the decoded rows, the
    five-row preview, the file-type gate, the decode-failure path, the upload
    gate and the simulated progress bar. Decoding itself (FileReader and the
    xlsx reader) is outside the model: a selected file carries its decoded rows,
    or `None` when the decoder threw. */
module DataUpload {
  import opened Js
  import opened Ui
  import Seqs
  import UserSlice

  /** One decoded row: column name to cell value, absent cells absent. */
  type Row = Record

  /** Column names the first row must carry, in the order they are checked. */
  const RequiredColumns: seq<string> := ["date", "device", "consumption"]

  const PreviewSize: nat := 5

  datatype ValidationError =
    | FileEmpty
    | MissingColumn(column: string)
    | InvalidConsumption(row: nat)
    | InvalidDate(row: nat)
  {
    /** The text shown in the error list. */
    function Message(): string {
      match this
      case FileEmpty => "File is empty"
      case MissingColumn(c) => "Missing required column: " + c
      case InvalidConsumption(n) => "Row " + NatToString(n) + ": Invalid consumption value"
      case InvalidDate(n) => "Row " + NatToString(n) + ": Invalid date format"
    }
  }

  // ---------------------------------------------------------------------------
  // validateData

  /** A consumption cell is flagged only when it is truthy and parseFloat
      finds no numeric prefix in it. */
  predicate ConsumptionInvalid(row: Row) {
    var v := Get(row, "consumption");
    Truthy(v) && ParseFloatIsNaN(v)
  }

  /** A date cell is flagged only when it is truthy and `Date.parse` gives
      NaN; `dateParses` stands for `!isNaN(Date.parse(v))`. */
  predicate DateInvalid(row: Row, dateParses: JsVal -> bool) {
    var v := Get(row, "date");
    Truthy(v) && !dateParses(v)
  }

  /** One `MissingColumn` per column of `columns` that is not a key of `first`. */
  function MissingColumns(columns: seq<string>, first: Row): seq<ValidationError> {
    if columns == [] then []
    else (if columns[0] in first then [] else [MissingColumn(columns[0])])
         + MissingColumns(columns[1..], first)
  }

  /** The errors of the row at zero-based `index`: consumption first, then date. */
  function RowErrors(row: Row, index: nat, dateParses: JsVal -> bool): seq<ValidationError> {
    (if ConsumptionInvalid(row) then [InvalidConsumption(index + 2)] else [])
    + (if DateInvalid(row, dateParses) then [InvalidDate(index + 2)] else [])
  }

  /** The row errors of `data[i..]`, in row order. */
  function RowErrorsFrom(data: seq<Row>, i: nat, dateParses: JsVal -> bool): seq<ValidationError>
    requires i <= |data|
    decreases |data| - i
  {
    if i == |data| then []
    else RowErrors(data[i], i, dateParses) + RowErrorsFrom(data, i + 1, dateParses)
  }

  /** `validateData`: an empty file stops at one error; otherwise the column
      check on the first row, then the per-row checks. */
  function ValidateData(data: seq<Row>, dateParses: JsVal -> bool): (errors: seq<ValidationError>)
    ensures data == [] ==> errors == [FileEmpty]
    ensures data != [] ==> FileEmpty !in errors
  {
    if |data| == 0 then [FileEmpty]
    else
      MissingColumnsAreColumnErrors(RequiredColumns, data[0]);
      RowErrorsFromAreRowErrors(data, 0, dateParses);
      MissingColumns(RequiredColumns, data[0]) + RowErrorsFrom(data, 0, dateParses)
  }

  /** The column check reports only missing columns. */
  lemma {:induction false} MissingColumnsAreColumnErrors(columns: seq<string>, first: Row)
    ensures forall e :: e in MissingColumns(columns, first) ==> e.MissingColumn?
    decreases |columns|
  {
    if columns != [] {
      MissingColumnsAreColumnErrors(columns[1..], first);
    }
  }

  /** The row checks report only consumption and date errors. */
  lemma {:induction false} RowErrorsFromAreRowErrors(data: seq<Row>, i: nat, dateParses: JsVal -> bool)
    requires i <= |data|
    ensures forall e :: e in RowErrorsFrom(data, i, dateParses) ==> e.InvalidConsumption? || e.InvalidDate?
    decreases |data| - i
  {
    if i < |data| {
      RowErrorsFromAreRowErrors(data, i + 1, dateParses);
    }
  }

  // ---------------------------------------------------------------------------
  // An independent description of the error list

  /** Where an error sits in the list: column errors (in required-column
      order) before row errors, rows in order, consumption before date. */
  function Rank(e: ValidationError): int {
    match e
    case FileEmpty => -1
    case MissingColumn(c) => if c == "date" then 0 else if c == "device" then 1 else 2
    case InvalidConsumption(n) => 2 * n
    case InvalidDate(n) => 2 * n + 1
  }

  /** Which errors a non-empty file must report. Row numbers are the
      zero-based index plus two (one for the header, one for counting from 1). */
  ghost predicate Expected(data: seq<Row>, dateParses: JsVal -> bool, e: ValidationError)
    requires data != []
  {
    match e
    case FileEmpty => false
    case MissingColumn(c) => c in RequiredColumns && c !in data[0]
    case InvalidConsumption(n) => 2 <= n < |data| + 2 && ConsumptionInvalid(data[n - 2])
    case InvalidDate(n) => 2 <= n < |data| + 2 && DateInvalid(data[n - 2], dateParses)
  }

  /** `errors` lists exactly the expected errors, each once, in rank order. */
  ghost predicate ReportsExactly(data: seq<Row>, dateParses: JsVal -> bool, errors: seq<ValidationError>)
    requires data != []
  {
    && (forall e :: e in errors <==> Expected(data, dateParses, e))
    && Seqs.StrictlyRanked(errors, Rank)
  }

  /** The column check, unrolled over the three required columns. */
  lemma MissingColumnsUnrolled(first: Row)
    ensures MissingColumns(RequiredColumns, first) ==
      (if "date" in first then [] else [MissingColumn("date")])
      + (if "device" in first then [] else [MissingColumn("device")])
      + (if "consumption" in first then [] else [MissingColumn("consumption")])
  {
    var r1 := RequiredColumns[1..];
    var r2 := r1[1..];
    assert r1 == ["device", "consumption"] && r2 == ["consumption"] && r2[1..] == [];
    var c: seq<ValidationError> := if "consumption" in first then [] else [MissingColumn("consumption")];
    var v: seq<ValidationError> := if "device" in first then [] else [MissingColumn("device")];
    assert MissingColumns(r2[1..], first) == [];
    assert MissingColumns(r2, first) == c + [];
    assert c + [] == c;
    assert MissingColumns(r1, first) == v + c;
  }

  /** The column check reports, in required-column order, each required
      column the first row lacks. */
  lemma MissingColumnsSpec(first: Row)
    ensures forall e :: e in MissingColumns(RequiredColumns, first) <==>
      e.MissingColumn? && e.column in RequiredColumns && e.column !in first
    ensures Seqs.StrictlyRanked(MissingColumns(RequiredColumns, first), Rank)
    ensures forall e :: e in MissingColumns(RequiredColumns, first) ==> 0 <= Rank(e) <= 2
  {
    var d: seq<ValidationError> := if "date" in first then [] else [MissingColumn("date")];
    var v: seq<ValidationError> := if "device" in first then [] else [MissingColumn("device")];
    var c: seq<ValidationError> := if "consumption" in first then [] else [MissingColumn("consumption")];
    MissingColumnsUnrolled(first);
    assert MissingColumns(RequiredColumns, first) == d + v + c;
    forall e: ValidationError
      ensures e in d + v + c <==> e.MissingColumn? && e.column in RequiredColumns && e.column !in first
    {
      assert e in d + v + c <==> e in d || e in v || e in c;
      if e.MissingColumn? {
        RequiredColumnsAre(e.column);
      }
    }
    assert Seqs.StrictlyRanked(d + v + c, Rank) by {
      RankedThree(d, v, c);
    }
  }

  lemma RequiredColumnsAre(c: string)
    ensures c in RequiredColumns <==> c == "date" || c == "device" || c == "consumption"
  {
  }

  /** At most one error per required column, in column order. */
  lemma RankedThree(d: seq<ValidationError>, v: seq<ValidationError>, c: seq<ValidationError>)
    requires d == [] || d == [MissingColumn("date")]
    requires v == [] || v == [MissingColumn("device")]
    requires c == [] || c == [MissingColumn("consumption")]
    ensures Seqs.StrictlyRanked(d + v + c, Rank)
  {
    assert Rank(MissingColumn("date")) == 0;
    assert Rank(MissingColumn("device")) == 1;
    assert Rank(MissingColumn("consumption")) == 2;
    Seqs.RankedAppend(d, v, Rank);
    Seqs.RankedAppend(d + v, c, Rank);
  }

  /** One row contributes at most its consumption error then its date error,
      both ranked by its row number. */
  lemma RowErrorsSpec(row: Row, i: nat, dateParses: JsVal -> bool)
    ensures forall e :: e in RowErrors(row, i, dateParses) <==>
      (e == InvalidConsumption(i + 2) && ConsumptionInvalid(row))
      || (e == InvalidDate(i + 2) && DateInvalid(row, dateParses))
    ensures forall e :: e in RowErrors(row, i, dateParses) ==> 2 * (i + 2) <= Rank(e) <= 2 * (i + 2) + 1
    ensures Seqs.StrictlyRanked(RowErrors(row, i, dateParses), Rank)
  {
  }

  lemma {:induction false} RowErrorsFromRanks(data: seq<Row>, i: nat, dateParses: JsVal -> bool)
    requires i <= |data|
    ensures forall e :: e in RowErrorsFrom(data, i, dateParses) ==>
      (e.InvalidConsumption? || e.InvalidDate?) && Rank(e) >= 2 * (i + 2)
    ensures Seqs.StrictlyRanked(RowErrorsFrom(data, i, dateParses), Rank)
    decreases |data| - i
  {
    if i < |data| {
      var head := RowErrors(data[i], i, dateParses);
      var rest := RowErrorsFrom(data, i + 1, dateParses);
      RowErrorsSpec(data[i], i, dateParses);
      RowErrorsFromRanks(data, i + 1, dateParses);
      Seqs.RankedAppend(head, rest, Rank);
    }
  }

  lemma {:induction false} RowErrorsFromConsumption(data: seq<Row>, i: nat, dateParses: JsVal -> bool)
    requires i <= |data|
    ensures forall n: nat :: InvalidConsumption(n) in RowErrorsFrom(data, i, dateParses) <==>
      i + 2 <= n < |data| + 2 && ConsumptionInvalid(data[n - 2])
    decreases |data| - i
  {
    if i < |data| {
      RowErrorsSpec(data[i], i, dateParses);
      RowErrorsFromConsumption(data, i + 1, dateParses);
      var head := RowErrors(data[i], i, dateParses);
      var rest := RowErrorsFrom(data, i + 1, dateParses);
      assert RowErrorsFrom(data, i, dateParses) == head + rest;
      forall n: nat
        ensures InvalidConsumption(n) in head + rest <==>
          i + 2 <= n < |data| + 2 && ConsumptionInvalid(data[n - 2])
      {
        assert InvalidConsumption(n) in head + rest <==> InvalidConsumption(n) in head || InvalidConsumption(n) in rest;
        if InvalidConsumption(n) in head {
          assert n == i + 2 && ConsumptionInvalid(data[i]);
        }
        if i + 2 <= n < |data| + 2 && ConsumptionInvalid(data[n - 2]) && n == i + 2 {
          assert InvalidConsumption(n) in head;
        }
      }
    }
  }

  lemma {:induction false} RowErrorsFromDate(data: seq<Row>, i: nat, dateParses: JsVal -> bool)
    requires i <= |data|
    ensures forall n: nat :: InvalidDate(n) in RowErrorsFrom(data, i, dateParses) <==>
      i + 2 <= n < |data| + 2 && DateInvalid(data[n - 2], dateParses)
    decreases |data| - i
  {
    if i < |data| {
      RowErrorsSpec(data[i], i, dateParses);
      RowErrorsFromDate(data, i + 1, dateParses);
      var head := RowErrors(data[i], i, dateParses);
      var rest := RowErrorsFrom(data, i + 1, dateParses);
      assert RowErrorsFrom(data, i, dateParses) == head + rest;
      forall n: nat
        ensures InvalidDate(n) in head + rest <==>
          i + 2 <= n < |data| + 2 && DateInvalid(data[n - 2], dateParses)
      {
        assert InvalidDate(n) in head + rest <==> InvalidDate(n) in head || InvalidDate(n) in rest;
        if InvalidDate(n) in head {
          assert n == i + 2 && DateInvalid(data[i], dateParses);
        }
        if i + 2 <= n < |data| + 2 && DateInvalid(data[n - 2], dateParses) && n == i + 2 {
          assert InvalidDate(n) in head;
        }
      }
    }
  }

  /** `validateData` on a non-empty file reports exactly the expected errors,
      in order: missing columns as `date`, `device`, `consumption`, judged on
      the first row's keys; then for each row in turn its consumption error
      and its date error, numbered index + 2. */
  lemma ValidateDataReportsExactly(data: seq<Row>, dateParses: JsVal -> bool)
    requires data != []
    ensures ReportsExactly(data, dateParses, ValidateData(data, dateParses))
  {
    var cols := MissingColumns(RequiredColumns, data[0]);
    var rows := RowErrorsFrom(data, 0, dateParses);
    MissingColumnsSpec(data[0]);
    RowErrorsFromRanks(data, 0, dateParses);
    RowErrorsFromConsumption(data, 0, dateParses);
    RowErrorsFromDate(data, 0, dateParses);
    Seqs.RankedAppend(cols, rows, Rank);
    forall e
      ensures e in cols + rows <==> Expected(data, dateParses, e)
    {
      match e
      case FileEmpty =>
      case MissingColumn(c) =>
      case InvalidConsumption(n) =>
      case InvalidDate(n) =>
    }
  }

  /** The list is the only one with that property: any ordered list of
      exactly the expected errors is the one `validateData` returns. */
  lemma ValidateDataIsTheOrderedListing(data: seq<Row>, dateParses: JsVal -> bool, errors: seq<ValidationError>)
    requires data != []
    requires ReportsExactly(data, dateParses, errors)
    ensures errors == ValidateData(data, dateParses)
  {
    ValidateDataReportsExactly(data, dateParses);
    Seqs.RankedUnique(errors, ValidateData(data, dateParses), Rank);
  }

  /** Only the first row's keys and each row's `consumption` and `date`
      values are consulted: rows that agree on those validate alike. */
  lemma ValidateDataDependsOnlyOnCheckedCells(data: seq<Row>, other: seq<Row>, dateParses: JsVal -> bool)
    requires |data| == |other|
    requires data != [] ==> forall c :: c in RequiredColumns ==> (c in data[0] <==> c in other[0])
    requires forall i :: 0 <= i < |data| ==>
      Get(data[i], "consumption") == Get(other[i], "consumption") && Get(data[i], "date") == Get(other[i], "date")
    ensures ValidateData(data, dateParses) == ValidateData(other, dateParses)
  {
    if data != [] {
      ValidateDataReportsExactly(data, dateParses);
      ValidateDataReportsExactly(other, dateParses);
      forall e
        ensures Expected(data, dateParses, e) <==> Expected(other, dateParses, e)
      {
        match e
        case FileEmpty =>
        case MissingColumn(c) =>
        case InvalidConsumption(n) =>
          if 2 <= n < |data| + 2 {
            assert Get(data[n - 2], "consumption") == Get(other[n - 2], "consumption");
          }
        case InvalidDate(n) =>
          if 2 <= n < |data| + 2 {
            assert Get(data[n - 2], "date") == Get(other[n - 2], "date");
          }
      }
      Seqs.RankedUnique(ValidateData(data, dateParses), ValidateData(other, dateParses), Rank);
    }
  }

  /** A missing or falsy cell is never flagged, and a consumption value with a
      numeric prefix such as "12abc" passes. */
  lemma FalsyCellsPass(row: Row, index: nat, dateParses: JsVal -> bool)
    requires !Truthy(Get(row, "consumption")) && !Truthy(Get(row, "date"))
    ensures RowErrors(row, index, dateParses) == []
  {
  }

  lemma NumericPrefixPasses(row: Row, d: char, rest: string)
    requires IsDigit(d)
    requires Get(row, "consumption") == Str([d] + rest)
    ensures !ConsumptionInvalid(row)
  {
    NumericPrefixAccepted("", d, rest);
    assert "" + [d] + rest == [d] + rest;
  }

  // ---------------------------------------------------------------------------
  // The screen's state

  /** A chosen file: its declared MIME type and what decoding produced. */
  datatype File = File(mimeType: string, decoded: Option<seq<Row>>)

  datatype Screen = Screen(
    selectedFile: Option<File>,
    uploading: bool,
    progress: int,
    validationErrors: seq<ValidationError>,
    previewData: Option<seq<Row>>,
    notice: Notice)

  const Initial: Screen := Screen(None, false, 0, [], None, Closed)

  const XlsxMime: string := "application/vnd.openxmlformats-officedocument.spreadsheetml.sheet"
  const XlsMime: string := "application/vnd.ms-excel"

  /** The first rows shown under the file name: `jsonData.slice(0, 5)`. */
  function Preview(data: seq<Row>): (p: seq<Row>)
    ensures |p| == Seqs.Min(PreviewSize, |data|)
    ensures p == data[..|p|]
  {
    Seqs.SlicePrefix(data, PreviewSize);
    Seqs.Slice(data, 0, PreviewSize)
  }

  /** `handleFileSelect` followed by the reader's `onload`. */
  function SelectFile(s: Screen, file: Option<File>, dateParses: JsVal -> bool): Screen {
    if file.None? then s
    else if file.value.mimeType != XlsxMime && file.value.mimeType != XlsMime then
      s.(notice := Show("Please select a valid Excel file (.xlsx or .xls)", Error))
    else
      var s1 := s.(selectedFile := file);
      match file.value.decoded
      case None => s1.(notice := Show("Error reading file. Please check the format.", Error))
      case Some(rows) =>
        var errors := ValidateData(rows, dateParses);
        var s2 := s1.(validationErrors := errors, previewData := Some(Preview(rows)));
        if errors == [] then s2.(notice := Show("File validated successfully! Ready to upload.", Success))
        else s2
  }

  /** Choosing nothing changes nothing; a file of another type only raises the
      notice; a file that fails to decode becomes the selected file while the
      previous errors and preview stay on screen. */
  lemma SelectFileGates(s: Screen, file: Option<File>, dateParses: JsVal -> bool)
    ensures file.None? ==> SelectFile(s, file, dateParses) == s
    ensures file.Some? && file.value.mimeType !in [XlsxMime, XlsMime] ==>
      SelectFile(s, file, dateParses).(notice := s.notice) == s
    ensures file.Some? && file.value.mimeType in [XlsxMime, XlsMime] && file.value.decoded.None? ==>
      var t := SelectFile(s, file, dateParses);
      && t.selectedFile == file
      && t.validationErrors == s.validationErrors
      && t.previewData == s.previewData
      && t.notice.severity == Error
  {
  }

  /** A decoded file replaces the error list and the preview, whatever the
      errors are; the success notice appears exactly when there are none. */
  lemma SelectFileDecoded(s: Screen, f: File, dateParses: JsVal -> bool)
    requires f.mimeType in [XlsxMime, XlsMime] && f.decoded.Some?
    ensures var t := SelectFile(s, Some(f), dateParses);
      && t.selectedFile == Some(f)
      && t.validationErrors == ValidateData(f.decoded.value, dateParses)
      && t.previewData == Some(f.decoded.value[..Seqs.Min(PreviewSize, |f.decoded.value|)])
      && (t.validationErrors == [] ==> t.notice == Show("File validated successfully! Ready to upload.", Success))
      && (t.validationErrors != [] ==> t.notice == s.notice)
      && t.uploading == s.uploading && t.progress == s.progress
  {
  }

  /** `handleUpload` proceeds only with a selected file and no errors. */
  predicate UploadAllowed(s: Screen) {
    s.selectedFile.Some? && |s.validationErrors| == 0
  }

  /** The Upload button is disabled while uploading or while errors are shown. */
  predicate UploadButtonDisabled(s: Screen) {
    s.uploading || |s.validationErrors| > 0
  }

  /** The synchronous start of `handleUpload`. */
  function StartUpload(s: Screen, store: UserSlice.State): (r: (Screen, UserSlice.State))
    ensures !UploadAllowed(s) ==> r == (s, store)
    ensures UploadAllowed(s) ==> r.0.uploading && r.1.loading && r.1.error == Null
    ensures r.0.progress == s.progress
  {
    if !UploadAllowed(s) then (s, store)
    else (s.(uploading := true), UserSlice.Reduce(store, UserSlice.UploadDataStart))
  }

  /** One tick of the simulated progress interval. */
  function ProgressStep(p: int): (q: int)
    ensures p < 90 ==> q == p + 10
    ensures p >= 90 ==> q == 90
  {
    if p >= 90 then 90 else p + 10
  }

  function Ticks(p: int, n: nat): int
    decreases n
  {
    if n == 0 then p else Ticks(ProgressStep(p), n - 1)
  }

  /** From an empty bar, `n` ticks show `min(10 n, 90)`: the bar climbs in
      steps of ten and never passes 90 before the upload completes. */
  lemma {:induction false} TicksFromZero(n: nat)
    ensures Ticks(0, n) == Seqs.Min(10 * n, 90)
  {
    TicksFrom(0, n);
  }

  lemma {:induction false} TicksFrom(p: int, n: nat)
    requires 0 <= p <= 90 && p % 10 == 0
    ensures Ticks(p, n) == Seqs.Min(p + 10 * n, 90)
    decreases n
  {
    if n > 0 {
      TicksFrom(ProgressStep(p), n - 1);
    }
  }

  /** How the awaited upload call ended: the response, or the failure's
      `error.response?.data?.message`. */
  datatype UploadOutcome = Uploaded(response: Record) | UploadFailed(message: JsVal)

  /** The rest of `handleUpload` once the API call settles. */
  function FinishUpload(s: Screen, store: UserSlice.State, outcome: UploadOutcome): (Screen, UserSlice.State) {
    match outcome
    case Uploaded(resp) =>
      (s.(progress := 100, notice := Show("Data uploaded successfully!", Success)),
       UserSlice.Reduce(store, UserSlice.UploadDataSuccess(resp)))
    case UploadFailed(m) =>
      (s.(uploading := false, progress := 0, notice := Notice(true, OrText(m, "Failed to upload data"), Error)),
       UserSlice.Reduce(store, UserSlice.UploadDataFailure(OrText(m, "Upload failed"))))
  }

  /** Success records the response in the store and fills the bar; failure
      stores the server's message, or "Upload failed" when it has none. */
  lemma FinishUploadEffects(s: Screen, store: UserSlice.State, outcome: UploadOutcome)
    ensures outcome.Uploaded? ==>
      && FinishUpload(s, store, outcome).0.progress == 100
      && FinishUpload(s, store, outcome).1.uploadedFiles == store.uploadedFiles + [outcome.response]
      && FinishUpload(s, store, outcome).1.error == store.error
    ensures outcome.UploadFailed? ==>
      && !FinishUpload(s, store, outcome).0.uploading
      && FinishUpload(s, store, outcome).0.progress == 0
      && FinishUpload(s, store, outcome).1.uploadedFiles == store.uploadedFiles
      && FinishUpload(s, store, outcome).1.error ==
           (if Truthy(outcome.message) then outcome.message else Str("Upload failed"))
  {
  }

  /** The progress interval is cleared only on success or at 90, and the
      failure branch cannot reach it: after a failed upload the hidden bar
      keeps climbing from 0 back to 90. Starting again does not reset it, so
      a retry after nine or more ticks opens at 90. */
  lemma {:induction false} FailedUploadKeepsClimbing(s: Screen, store: UserSlice.State, m: JsVal, n: nat, store': UserSlice.State)
    ensures Ticks(FinishUpload(s, store, UploadFailed(m)).0.progress, n) == Seqs.Min(10 * n, 90)
    ensures var t := FinishUpload(s, store, UploadFailed(m)).0.(progress := Ticks(0, n));
      n >= 9 && UploadAllowed(t) ==> StartUpload(t, store').0.uploading && StartUpload(t, store').0.progress == 90
  {
    TicksFromZero(n);
  }

  /** The reset scheduled 1.5 s after a successful upload. The error list is
      not cleared (it was already empty for the upload to start). */
  function ResetAfterUpload(s: Screen): Screen {
    s.(selectedFile := None, previewData := None, progress := 0, uploading := false)
  }

  /** `handleRemoveFile` */
  function RemoveFile(s: Screen): (t: Screen)
    ensures !UploadAllowed(t) && !UploadButtonDisabled(t) == !s.uploading
  {
    s.(selectedFile := None, previewData := None, validationErrors := [], progress := 0)
  }
}
