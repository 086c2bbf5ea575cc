/** The shared paginated table: which body it shows (spinner, empty message
    or one page of rows), what each cell holds, and whether the pagination
    footer is present. */
module Table {
  import opened Js
  import Seqs

  /** A column: its key into the row, and an optional renderer. */
  datatype Column = Column(id: string, render: Option<Record -> JsVal>)

  /** The props as passed; an absent prop is `None` and takes its default. */
  datatype RawProps = RawProps(
    columns: Option<seq<Column>>,
    rows: Option<seq<Record>>,
    loading: Option<bool>,
    page: Option<int>,
    rowsPerPage: Option<int>,
    emptyMessage: Option<string>)

  datatype Props = Props(
    columns: seq<Column>,
    rows: seq<Record>,
    loading: bool,
    page: int,
    rowsPerPage: int,
    emptyMessage: string)

  const DefaultRowsPerPage := 10
  const DefaultEmptyMessage := "No data available"

  function OrDefault<T>(o: Option<T>, d: T): T {
    if o.Some? then o.value else d
  }

  /** Destructuring with defaults: no columns, no rows, not loading, page 0,
      10 rows per page, "No data available". */
  function WithDefaults(raw: RawProps): (p: Props)
    ensures raw.columns.None? ==> p.columns == []
    ensures raw.rows.None? ==> p.rows == []
    ensures raw.loading.None? ==> !p.loading
    ensures raw.page.None? ==> p.page == 0
    ensures raw.rowsPerPage.None? ==> p.rowsPerPage == DefaultRowsPerPage
    ensures raw.emptyMessage.None? ==> p.emptyMessage == DefaultEmptyMessage
    ensures raw.rows.Some? ==> p.rows == raw.rows.value
    ensures raw.page.Some? ==> p.page == raw.page.value
    ensures raw.rowsPerPage.Some? ==> p.rowsPerPage == raw.rowsPerPage.value
    ensures raw.columns.Some? ==> p.columns == raw.columns.value
    ensures raw.loading.Some? ==> p.loading == raw.loading.value
    ensures raw.emptyMessage.Some? ==> p.emptyMessage == raw.emptyMessage.value
  {
    Props(
      OrDefault(raw.columns, []),
      OrDefault(raw.rows, []),
      OrDefault(raw.loading, false),
      OrDefault(raw.page, 0),
      OrDefault(raw.rowsPerPage, DefaultRowsPerPage),
      OrDefault(raw.emptyMessage, DefaultEmptyMessage))
  }

  /** The rows of page `page`: the `rowsPerPage` rows starting at
      `page * rowsPerPage`, fewer at the end, none past it (the `rows.slice`
      of the body). */
  function Page<T>(rows: seq<T>, page: int, rowsPerPage: int): seq<T> {
    Seqs.Slice(rows, page * rowsPerPage, page * rowsPerPage + rowsPerPage)
  }

  /** What a cell shows: the column's renderer applied to the row when it has
      one, otherwise the row's value under the column's key. */
  function Cell(column: Column, row: Record): JsVal {
    if column.render.Some? then column.render.value(row) else Get(row, column.id)
  }

  datatype Body =
    | Spinner
    | EmptyMessage(message: string)
    | Rows(cells: seq<seq<JsVal>>)

  datatype View = View(body: Body, footer: bool)

  function Render(p: Props): View {
    var body :=
      if p.loading then Spinner
      else if |p.rows| == 0 then EmptyMessage(p.emptyMessage)
      else
        var visible := Page(p.rows, p.page, p.rowsPerPage);
        Rows(seq(|visible|, i requires 0 <= i < |visible| =>
          seq(|p.columns|, j requires 0 <= j < |p.columns| => Cell(p.columns[j], visible[i]))));
    View(body, !p.loading && |p.rows| > 0)
  }

  /** Loading wins over everything; the empty message needs not loading and
      no rows; the footer is there exactly when rows are shown; row `i`,
      column `j` of the body is the cell of the `i`-th visible row. */
  lemma RenderBranches(p: Props)
    ensures Render(p).body.Spinner? <==> p.loading
    ensures Render(p).body.EmptyMessage? <==> !p.loading && p.rows == []
    ensures Render(p).body.EmptyMessage? ==> Render(p).body.message == p.emptyMessage
    ensures Render(p).footer <==> Render(p).body.Rows?
    ensures Render(p).footer <==> !p.loading && p.rows != []
    ensures Render(p).body.Rows? ==>
      var visible := Page(p.rows, p.page, p.rowsPerPage);
      && |Render(p).body.cells| == |visible|
      && forall i, j :: 0 <= i < |visible| && 0 <= j < |p.columns| ==>
           |Render(p).body.cells[i]| == |p.columns| && Render(p).body.cells[i][j] == Cell(p.columns[j], visible[i])
  {
  }

  // ---------------------------------------------------------------------------
  // Pagination

  /** A page holds at most `rowsPerPage` rows, and they are the contiguous rows
      starting at `page * rowsPerPage`, in order. */
  lemma PageWindow<T>(rows: seq<T>, page: nat, rowsPerPage: nat)
    ensures |Page(rows, page, rowsPerPage)| <= rowsPerPage
    ensures page * rowsPerPage <= |rows| ==>
      Page(rows, page, rowsPerPage) == rows[page * rowsPerPage..Seqs.Min(|rows|, page * rowsPerPage + rowsPerPage)]
    ensures page * rowsPerPage >= |rows| ==> Page(rows, page, rowsPerPage) == []
  {
  }

  /** Pages `0 .. k - 1` laid end to end. */
  function PagesUpTo<T>(rows: seq<T>, rowsPerPage: int, k: nat): seq<T>
    decreases k
  {
    if k == 0 then [] else PagesUpTo(rows, rowsPerPage, k - 1) + Page(rows, k - 1, rowsPerPage)
  }

  lemma {:induction false} PagesUpToIsPrefix<T>(rows: seq<T>, rowsPerPage: nat, k: nat)
    ensures PagesUpTo(rows, rowsPerPage, k) == rows[..Seqs.Min(k * rowsPerPage, |rows|)]
    decreases k
  {
    if k > 0 {
      PagesUpToIsPrefix(rows, rowsPerPage, k - 1);
      var lo := (k - 1) * rowsPerPage;
      assert k * rowsPerPage == lo + rowsPerPage by { MulSucc(k - 1, rowsPerPage); }
      SliceFrom(rows, lo, rowsPerPage);
      var a := Seqs.Min(lo, |rows|);
      var b := Seqs.Min(lo + rowsPerPage, |rows|);
      assert rows[..a] + rows[a..b] == rows[..b];
    }
  }

  /** The window of `rowsPerPage` rows starting at `lo`, clamped to the rows. */
  lemma SliceFrom<T>(rows: seq<T>, lo: nat, rowsPerPage: nat)
    ensures Seqs.Slice(rows, lo, lo + rowsPerPage) == rows[Seqs.Min(lo, |rows|)..Seqs.Min(lo + rowsPerPage, |rows|)]
  {
  }

  lemma MulSucc(a: nat, d: nat)
    ensures (a + 1) * d == a * d + d
  {
  }

  /** `PageCount` pages are enough to hold all `n` rows. */
  lemma PageCountCovers(n: nat, rowsPerPage: nat)
    requires rowsPerPage > 0
    ensures PageCount(n, rowsPerPage) * rowsPerPage >= n
  {
    var m := n + rowsPerPage - 1;
    assert m == (m / rowsPerPage) * rowsPerPage + m % rowsPerPage;
  }

  /** The number of pages the footer offers. */
  function PageCount(n: nat, rowsPerPage: nat): nat
    requires rowsPerPage > 0
  {
    (n + rowsPerPage - 1) / rowsPerPage
  }

  /** With a positive page size, the pages laid end to end are exactly the
      rows: nothing is lost, repeated or reordered. */
  lemma PagesCoverRows<T>(rows: seq<T>, rowsPerPage: nat)
    requires rowsPerPage > 0
    ensures PagesUpTo(rows, rowsPerPage, PageCount(|rows|, rowsPerPage)) == rows
  {
    var k := PageCount(|rows|, rowsPerPage);
    PagesUpToIsPrefix(rows, rowsPerPage, k);
    PageCountCovers(|rows|, rowsPerPage);
  }

  /** Each row appears on exactly one page: page `q`'s window of indices
      `[q * rowsPerPage, q * rowsPerPage + rowsPerPage)` contains row `i` exactly
      when `q == i / rowsPerPage`, at offset `i % rowsPerPage`. */
  lemma RowOnOnePage<T>(rows: seq<T>, rowsPerPage: nat, i: nat, q: nat)
    requires rowsPerPage > 0 && i < |rows|
    ensures q * rowsPerPage <= i < q * rowsPerPage + rowsPerPage <==> q == i / rowsPerPage
    ensures q == i / rowsPerPage ==>
      i % rowsPerPage < |Page(rows, q, rowsPerPage)| && Page(rows, q, rowsPerPage)[i % rowsPerPage] == rows[i]
  {
    WindowOf(i, rowsPerPage, q);
    if q == i / rowsPerPage {
      Seqs.SliceWindow(rows, q * rowsPerPage, q * rowsPerPage + rowsPerPage);
      assert i - q * rowsPerPage == i % rowsPerPage;
    }
  }

  lemma WindowOf(i: nat, d: nat, q: nat)
    requires d > 0
    ensures q * d <= i < q * d + d <==> q == i / d
  {
    var r := i / d;
    assert i == r * d + i % d;
    if q < r {
      MulMono(q + 1, r, d);
      assert (q + 1) * d == q * d + d;
    } else if q > r {
      MulMono(r + 1, q, d);
      assert (r + 1) * d == r * d + d;
    }
  }

  lemma MulMono(a: nat, b: nat, d: nat)
    requires a <= b
    ensures a * d <= b * d
  {
  }
}
