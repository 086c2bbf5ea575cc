/** The server's spreadsheet upload endpoint: reject a request without a
    file or a sheet without the required columns, otherwise convert every
    row into a consumption record and insert them all at once. */
module BackendUpload {
  import opened Js

  /** A spreadsheet cell as pandas hands it over. */
  datatype Cell = Text(s: string) | Number(x: real) | Missing

  /** A decoded sheet: its column labels and its rows. */
  datatype Frame = Frame(columns: seq<string>, rows: seq<map<string, Cell>>)

  /** Every row has a cell for each column and nothing else. */
  ghost predicate WellFormed(f: Frame) {
    forall i :: 0 <= i < |f.rows| ==> f.rows[i].Keys == set c | c in f.columns
  }

  datatype Date = Date(year: int, month: nat, day: nat)

  /** What a conversion does: a value, or an exception with its text. */
  datatype Conversion<T> = Converted(value: T) | Raised(error: string)

  /** `pd.read_excel(file)`'s outcome. */
  datatype ReadResult = Read(frame: Frame) | ReadFailed(error: string)

  /** A row of the `ConsumptionData` table. */
  datatype ConsumptionRecord = ConsumptionRecord(user: nat, deviceName: Cell, category: Cell, date: Date, consumption: real)

  datatype Response = Response(status: nat, message: string, saved: seq<ConsumptionRecord>)

  const BadRequest: nat := 400
  const Created: nat := 201
  const ServerError: nat := 500

  const RequiredColumns: seq<string> := ["date", "device", "consumption"]
  const NoFileMessage := "No file uploaded"
  const MissingColumnsMessage := "Missing columns. Required: ['date', 'device', 'consumption']"

  function SuccessMessage(n: nat): string {
    "Successfully uploaded " + NatToString(n) + " records"
  }

  predicate HasRequiredColumns(columns: seq<string>) {
    forall k :: 0 <= k < |RequiredColumns| ==> RequiredColumns[k] in columns
  }

  /** `row.get('category', 'General')`: the default applies only when the
      sheet has no category column; a blank cell stays blank. */
  function Category(row: map<string, Cell>): (c: Cell)
    ensures "category" in row ==> c == row["category"]
    ensures "category" !in row ==> c == Text("General")
  {
    if "category" in row then row["category"] else Text("General")
  }

  /** The row has a cell for each required column. */
  predicate RowComplete(row: map<string, Cell>) {
    "date" in row && "device" in row && "consumption" in row
  }

  /** One record from one row. The keyword arguments are evaluated in order,
      so a bad date is reported before a bad consumption. */
  function RecordOf(row: map<string, Cell>, user: nat, toDate: Cell -> Conversion<Date>, toFloat: Cell -> Conversion<real>): Conversion<ConsumptionRecord>
    requires RowComplete(row)
  {
    var device := row["device"];
    var category := Category(row);
    match toDate(row["date"])
    case Raised(e) => Raised(e)
    case Converted(date) =>
      match toFloat(row["consumption"])
      case Raised(e) => Raised(e)
      case Converted(x) => Converted(ConsumptionRecord(user, device, category, date, x))
  }

  ghost predicate RowsHaveRequired(rows: seq<map<string, Cell>>) {
    forall i :: 0 <= i < |rows| ==> RowComplete(rows[i])
  }

  /** In a well-formed sheet holding the required columns, every row has
      the required cells. */
  lemma CompleteRows(frame: Frame)
    requires WellFormed(frame) && HasRequiredColumns(frame.columns)
    ensures RowsHaveRequired(frame.rows)
  {
    assert RequiredColumns[0] in frame.columns;
    assert RequiredColumns[1] in frame.columns;
    assert RequiredColumns[2] in frame.columns;
  }

  /** The loop over `df.iterrows()`: stops at the first row that raises. */
  function BuildAll(rows: seq<map<string, Cell>>, user: nat, toDate: Cell -> Conversion<Date>, toFloat: Cell -> Conversion<real>): Conversion<seq<ConsumptionRecord>>
    requires RowsHaveRequired(rows)
    decreases |rows|
  {
    if rows == [] then Converted([])
    else
      match RecordOf(rows[0], user, toDate, toFloat)
      case Raised(e) => Raised(e)
      case Converted(r) =>
        match BuildAll(rows[1..], user, toDate, toFloat)
        case Raised(e) => Raised(e)
        case Converted(rs) => Converted([r] + rs)
  }

  /** `UploadConsumptionView.post`. `file` is the outcome of reading the
      uploaded file (`None` when there is none); `dbError` is the exception
      `bulk_create` raises, if any. */
  function Post(file: Option<ReadResult>, user: nat, toDate: Cell -> Conversion<Date>, toFloat: Cell -> Conversion<real>, dbError: Option<string>): Response
    requires file.Some? && file.value.Read? ==> WellFormed(file.value.frame)
  {
    if file.None? then Response(BadRequest, NoFileMessage, [])
    else match file.value
      case ReadFailed(e) => Response(ServerError, e, [])
      case Read(frame) =>
        if !HasRequiredColumns(frame.columns) then Response(BadRequest, MissingColumnsMessage, [])
        else
          assert RowsHaveRequired(frame.rows) by { CompleteRows(frame); }
          match BuildAll(frame.rows, user, toDate, toFloat)
          case Raised(e) => Response(ServerError, e, [])
          case Converted(records) =>
            if dbError.Some? then Response(ServerError, dbError.value, [])
            else Response(Created, SuccessMessage(|records|), records)
  }

  // ---------------------------------------------------------------------------
  // Properties

  /** Converting the rows succeeds exactly when every row converts, and then
      gives one record per row, in row order. */
  lemma {:induction false} BuildAllSpec(rows: seq<map<string, Cell>>, user: nat, toDate: Cell -> Conversion<Date>, toFloat: Cell -> Conversion<real>)
    requires RowsHaveRequired(rows)
    ensures BuildAll(rows, user, toDate, toFloat).Converted? <==>
      forall i :: 0 <= i < |rows| ==> RecordOf(rows[i], user, toDate, toFloat).Converted?
    ensures BuildAll(rows, user, toDate, toFloat).Converted? ==>
      var rs := BuildAll(rows, user, toDate, toFloat).value;
      |rs| == |rows| && forall i :: 0 <= i < |rows| ==> rs[i] == RecordOf(rows[i], user, toDate, toFloat).value
    decreases |rows|
  {
    if rows != [] {
      BuildAllSpec(rows[1..], user, toDate, toFloat);
      forall i | 1 <= i < |rows|
        ensures RecordOf(rows[i], user, toDate, toFloat) == RecordOf(rows[1..][i - 1], user, toDate, toFloat)
      {
        assert rows[i] == rows[1..][i - 1];
      }
    }
  }

  /** A failure names the first row that raised: every earlier row converted. */
  lemma {:induction false} BuildAllFirstFailure(rows: seq<map<string, Cell>>, user: nat, toDate: Cell -> Conversion<Date>, toFloat: Cell -> Conversion<real>)
    requires RowsHaveRequired(rows)
    ensures BuildAll(rows, user, toDate, toFloat).Raised? ==>
      exists i :: 0 <= i < |rows|
        && RecordOf(rows[i], user, toDate, toFloat) == Raised(BuildAll(rows, user, toDate, toFloat).error)
        && forall j :: 0 <= j < i ==> RecordOf(rows[j], user, toDate, toFloat).Converted?
    decreases |rows|
  {
    if rows != [] && BuildAll(rows, user, toDate, toFloat).Raised? {
      var e := BuildAll(rows, user, toDate, toFloat).error;
      if RecordOf(rows[0], user, toDate, toFloat).Raised? {
        assert RecordOf(rows[0], user, toDate, toFloat) == Raised(e);
      } else {
        BuildAllFirstFailure(rows[1..], user, toDate, toFloat);
        var i :| 0 <= i < |rows[1..]|
          && RecordOf(rows[1..][i], user, toDate, toFloat) == Raised(e)
          && forall j :: 0 <= j < i ==> RecordOf(rows[1..][j], user, toDate, toFloat).Converted?;
        assert rows[i + 1] == rows[1..][i];
        forall j | 0 <= j < i + 1
          ensures RecordOf(rows[j], user, toDate, toFloat).Converted?
        {
          if j > 0 {
            assert rows[j] == rows[1..][j - 1];
          }
        }
      }
    }
  }

  /** No file: 400 "No file uploaded", nothing saved. A sheet missing any
      required column: one 400 naming all three, nothing saved. */
  lemma RejectedRequests(frame: Frame, user: nat, toDate: Cell -> Conversion<Date>, toFloat: Cell -> Conversion<real>, dbError: Option<string>)
    requires WellFormed(frame)
    ensures Post(None, user, toDate, toFloat, dbError) == Response(BadRequest, NoFileMessage, [])
    ensures !HasRequiredColumns(frame.columns) ==>
      Post(Some(Read(frame)), user, toDate, toFloat, dbError) == Response(BadRequest, MissingColumnsMessage, [])
  {
  }

  /** All or nothing: a 201 saved exactly one record per row, in row order,
      and reports that count; every other response saved nothing. */
  lemma AllOrNothing(frame: Frame, user: nat, toDate: Cell -> Conversion<Date>, toFloat: Cell -> Conversion<real>, dbError: Option<string>)
    requires WellFormed(frame)
    ensures var r := Post(Some(Read(frame)), user, toDate, toFloat, dbError);
      && (r.status != Created ==> r.saved == [])
      && (r.status == Created ==>
           && HasRequiredColumns(frame.columns)
           && |r.saved| == |frame.rows|
           && r.message == SuccessMessage(|frame.rows|)
           && forall i :: 0 <= i < |frame.rows| ==>
                && RowComplete(frame.rows[i])
                && r.saved[i].deviceName == frame.rows[i]["device"]
                && r.saved[i].category == Category(frame.rows[i])
                && r.saved[i].user == user)
  {
    if HasRequiredColumns(frame.columns) {
      var rows := frame.rows;
      CompleteRows(frame);
      BuildAllSpec(rows, user, toDate, toFloat);
    }
  }

  /** One bad row anywhere aborts the whole upload with a 500 carrying the
      exception text; the rows before it are not saved either. */
  lemma BadRowAbortsAll(frame: Frame, user: nat, toDate: Cell -> Conversion<Date>, toFloat: Cell -> Conversion<real>, dbError: Option<string>, i: nat)
    requires WellFormed(frame) && HasRequiredColumns(frame.columns)
    requires i < |frame.rows|
    requires RowComplete(frame.rows[i])
    requires RecordOf(frame.rows[i], user, toDate, toFloat).Raised?
    ensures Post(Some(Read(frame)), user, toDate, toFloat, dbError).status == ServerError
    ensures Post(Some(Read(frame)), user, toDate, toFloat, dbError).saved == []
  {
    var rows := frame.rows;
    CompleteRows(frame);
    BuildAllSpec(rows, user, toDate, toFloat);
  }

  /** The count in the success message reads back as the number of rows. */
  lemma SuccessMessageCount(n: nat, m: nat)
    ensures SuccessMessage(n) == SuccessMessage(m) ==> n == m
  {
    if SuccessMessage(n) == SuccessMessage(m) {
      var p := "Successfully uploaded ";
      var sn := NatToString(n);
      var sm := NatToString(m);
      assert SuccessMessage(n)[|p|..|SuccessMessage(n)| - |" records"|] == sn;
      assert SuccessMessage(m)[|p|..|SuccessMessage(m)| - |" records"|] == sm;
      NatToStringInjective(n, m);
    }
  }
}
