/** The reports page: the PDF summary table with its defaults and 20-row cap,
    the Excel workbook's sheets, the choice between them, and when
    generation and fetching happen. */
module Reports {
  import opened Js
  import opened Ui
  import Seqs
  import UserSlice

  /** A PDF cell: a value as it is, or the text `${amount} kWh`. */
  datatype Cell = Text(value: JsVal) | Kwh(amount: JsVal)

  const PdfRowCap := 20

  /** One row of the PDF table: date, device and category default to "N/A",
      "N/A" and "General" when falsy, the consumption to 0. */
  function PdfRow(row: Record): (cells: seq<Cell>)
    ensures |cells| == 4
    ensures cells[0] == Text(OrText(Get(row, "date"), "N/A"))
    ensures cells[1] == Text(OrText(Get(row, "device"), "N/A"))
    ensures cells[2] == Text(OrText(Get(row, "category"), "General"))
    ensures cells[3] == Kwh(Or(Get(row, "consumption"), Num(0.0)))
  {
    [Text(OrText(Get(row, "date"), "N/A")),
     Text(OrText(Get(row, "device"), "N/A")),
     Text(OrText(Get(row, "category"), "General")),
     Kwh(Or(Get(row, "consumption"), Num(0.0)))]
  }

  /** `tableData.slice(0, 20)` */
  function PdfBody(data: seq<Record>): seq<seq<Cell>> {
    Seqs.Slice(Seqs.Map(PdfRow, data), 0, PdfRowCap)
  }

  /** The body holds the first min(20, n) rows, each mapped, in order. No
      cell is ever blank: every text cell is truthy. */
  lemma PdfBodySpec(data: seq<Record>)
    ensures |PdfBody(data)| == Seqs.Min(PdfRowCap, |data|)
    ensures forall i :: 0 <= i < |PdfBody(data)| ==> PdfBody(data)[i] == PdfRow(data[i])
    ensures forall i, j :: 0 <= i < |PdfBody(data)| && 0 <= j < 3 ==> Truthy(PdfBody(data)[i][j].value)
  {
    Seqs.SlicePrefix(Seqs.Map(PdfRow, data), PdfRowCap);
  }

  /** Rows past the twentieth never reach the PDF: changing them changes
      nothing. */
  lemma PdfBodyIgnoresTail(data: seq<Record>, tail: seq<Record>)
    requires |data| >= PdfRowCap
    ensures PdfBody(data + tail) == PdfBody(data)
  {
    PdfBodySpec(data + tail);
    PdfBodySpec(data);
  }

  /** `Generated for: ${user?.firstName || user?.name || "User"}` */
  function GeneratedFor(user: Option<Record>): (v: JsVal)
    ensures Truthy(v)
    ensures Truthy(GetOpt(user, "firstName")) ==> v == GetOpt(user, "firstName")
    ensures !Truthy(GetOpt(user, "firstName")) && Truthy(GetOpt(user, "name")) ==> v == GetOpt(user, "name")
    ensures !Truthy(GetOpt(user, "firstName")) && !Truthy(GetOpt(user, "name")) ==> v == Str("User")
  {
    Or(Or(GetOpt(user, "firstName"), GetOpt(user, "name")), Str("User"))
  }

  datatype Sheet = Sheet(name: string, rows: seq<Record>)

  datatype Document =
    | Pdf(author: JsVal, body: seq<seq<Cell>>, dailyAvg: JsVal, monthlyTotal: JsVal)
    | Excel(sheets: seq<Sheet>)

  /** `predictions.daily`, when it is a list. */
  function Daily(p: UserSlice.Predictions): Option<seq<Record>> {
    if "daily" in p.periods then p.periods["daily"] else None
  }

  function SummaryField(p: UserSlice.Predictions, daily: bool): JsVal {
    if p.summary.None? then Undefined
    else if daily then p.summary.value.dailyAvg
    else p.summary.value.monthlyTotal
  }

  function GeneratePdf(data: seq<Record>, p: UserSlice.Predictions, user: Option<Record>): Document {
    Pdf(GeneratedFor(user), PdfBody(data), OrText(SummaryField(p, true), "0.00"), OrText(SummaryField(p, false), "0.00"))
  }

  /** The workbook: the consumption sheet, then the predictions sheet when
      there are daily predictions. */
  function GenerateExcel(data: seq<Record>, p: UserSlice.Predictions): (d: Document)
    ensures d.Excel? && |d.sheets| >= 1 && d.sheets[0] == Sheet("Consumption", data)
    ensures |d.sheets| == 2 <==> Daily(p).Some?
    ensures |d.sheets| <= 2
    ensures Daily(p).Some? ==> d.sheets[1] == Sheet("Predictions", Daily(p).value)
  {
    var consumption := [Sheet("Consumption", data)];
    var daily := Daily(p);
    Excel(if daily.Some? then consumption + [Sheet("Predictions", daily.value)] else consumption)
  }

  /** `handleGenerate`: "pdf" makes the PDF, any other format the workbook;
      either way the success notice follows unless the writer throws. */
  function Generate(format: string, data: seq<Record>, p: UserSlice.Predictions, user: Option<Record>, writerOk: bool): (r: (Document, Notice))
    ensures r.0.Pdf? <==> format == "pdf"
    ensures r.0.Pdf? ==> r.0 == GeneratePdf(data, p, user)
    ensures r.0.Excel? ==> r.0 == GenerateExcel(data, p)
    ensures r.1 == if writerOk then Show("Report generated and downloading...", Success) else Show("Failed to generate report", Error)
  {
    var doc := if format == "pdf" then GeneratePdf(data, p, user) else GenerateExcel(data, p);
    (doc, if writerOk then Show("Report generated and downloading...", Success) else Show("Failed to generate report", Error))
  }

  /** The generate button is disabled exactly when there is no consumption
      data; data is fetched exactly then too. */
  function GenerateDisabled(data: seq<Record>): (b: bool)
    ensures b <==> data == []
  {
    |data| == 0
  }

  function ShouldFetch(data: seq<Record>): (b: bool)
    ensures b <==> data == []
  {
    |data| == 0
  }

  /** The fetched rows are stored as `response.data || []`. */
  function FetchedRows(responseData: Option<seq<Record>>): (a: UserSlice.Action)
    ensures a.SetConsumptionData?
    ensures a.rows == if responseData.Some? then responseData.value else []
  {
    UserSlice.SetConsumptionData(if responseData.Some? then responseData.value else [])
  }

  /** Once data has been fetched and stored, the fetch does not repeat and the
      button is enabled, unless the response held no rows. */
  lemma FetchSettles(s: UserSlice.State, responseData: seq<Record>)
    requires ShouldFetch(s.consumptionData)
    ensures var t := UserSlice.Reduce(s, FetchedRows(Some(responseData)));
      ShouldFetch(t.consumptionData) <==> responseData == []
    ensures var t := UserSlice.Reduce(s, FetchedRows(Some(responseData)));
      GenerateDisabled(t.consumptionData) == ShouldFetch(t.consumptionData)
  {
  }
}
