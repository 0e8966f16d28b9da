/** The vertical layout of the PDF report: header heights, page breaks, row boxes and footers. */
module PdfLayout {
  import opened Reports

  const MARGIN: int := 50

  const ROW_HEIGHT: int := 18

  const HEADER_HEIGHT: int := 34

  /** The page height of PDFKit's default format, Letter, in points. */
  const LETTER_HEIGHT: int := 792

  const LETTER_WIDTH: real := 612.0

  datatype Cell = Cell(x: real, width: int)

  /** A drawn table row: which row, on which page, where, and its cells. */
  datatype Box = Box(row: nat, page: nat, top: int, cells: seq<Cell>)

  /** A footer drawn on a page, with the number it shows. */
  datatype Footer = Footer(page: nat, number: nat)

  // ---------------------------------------------------------------- columns

  function Width(column: Column): int {
    match column
    case Date => 55
    case Time => 45
    case Pm25 => 38
    case Temperature => 68
    case Humidity => 52
    case Pm10 => 38
    case Co2 => 40
    case Noise => 40
    case Aqi => 38
    case Tvoc => 38
    case DeviceId => 45
  }

  function TotalWidth(columns: seq<Column>): int {
    if columns == [] then 0 else TotalWidth(columns[..|columns| - 1]) + Width(columns[|columns| - 1])
  }

  function CellsFrom(startX: real, columns: seq<Column>): (r: seq<Cell>)
    ensures |r| == |columns|
  {
    if columns == [] then []
    else
      var most, last := columns[..|columns| - 1], columns[|columns| - 1];
      CellsFrom(startX, most) + [Cell(startX + TotalWidth(most) as real, Width(last))]
  }

  function StartX(columns: seq<Column>): real {
    (LETTER_WIDTH - TotalWidth(columns) as real) / 2.0
  }

  /** The cells touch, start at the left edge of the table and end at its right edge; the table has
      equal space on both sides of the page. */
  lemma {:induction false} CellsTile(startX: real, columns: seq<Column>)
    requires columns != []
    ensures var cells := CellsFrom(startX, columns);
            && cells[0].x == startX
            && (forall j :: 0 < j < |cells| ==> cells[j].x == cells[j - 1].x + cells[j - 1].width as real)
            && cells[|cells| - 1].x + cells[|cells| - 1].width as real == startX + TotalWidth(columns) as real
    ensures LETTER_WIDTH - (StartX(columns) + TotalWidth(columns) as real) == StartX(columns)
  {
    if |columns| <= 1 {
    } else {
      CellsTile(startX, columns[..|columns| - 1]);
    }
  }

  // ---------------------------------------------------------------- where rows go

  /** Height of the page, and whether the device has a name line. */
  datatype Page = Page(height: int, named: bool) {
    function Threshold(): int { height - MARGIN }

    /** From the title line to the first row. */
    function HeadHeight(): int { 16 + (if named then 14 else 9) + HEADER_HEIGHT }

    /** The document header ends at 110; a title that does not fit there opens a second page. */
    predicate EarlyBreak() { 110 + 25 + 18 > Threshold() }

    function FirstPage(): nat { if EarlyBreak() then 2 else 1 }

    function FirstTop(): int { (if EarlyBreak() then MARGIN else 110) + HeadHeight() }

    function NextTop(): int { MARGIN + HeadHeight() }

    function Fitting(top: int): int {
      if Threshold() - top < 0 then 0 else (Threshold() - top) / ROW_HEIGHT
    }

    /** Rows on the first table page. */
    function C1(): nat { Fitting(FirstTop()) }

    /** Rows on each further page; a page always takes one row, even if it does not fit. */
    function C2(): (c: nat)
      ensures c >= 1
    {
      if Fitting(NextTop()) >= 1 then Fitting(NextTop()) else 1
    }

    function RowPage(i: nat): nat {
      if i < C1() then FirstPage() else FirstPage() + 1 + (i - C1()) / C2()
    }

    function RowTop(i: nat): int {
      if i < C1() then FirstTop() + ROW_HEIGHT * i else NextTop() + ROW_HEIGHT * ((i - C1()) % C2())
    }

    /** 1 (or 2 after an early break) if n rows fit on the first table page, else ceil((n - c1) / c2) more. */
    function PageCount(n: nat): nat {
      if n <= C1() then FirstPage() else FirstPage() + (n - C1() + C2() - 1) / C2()
    }

    /** Where the next row would start after i rows, before looking for a page break. */
    function NextY(i: nat): int {
      if i == 0 then FirstTop() else RowTop(i - 1) + ROW_HEIGHT
    }

    function LastPage(i: nat): nat {
      if i == 0 then FirstPage() else RowPage(i - 1)
    }
  }

  function Boxes(p: Page, columns: seq<Column>, n: nat): (r: seq<Box>)
    ensures |r| == n
  {
    if n == 0 then []
    else Boxes(p, columns, n - 1) + [Box(n - 1, p.RowPage(n - 1), p.RowTop(n - 1), CellsFrom(StartX(columns), columns))]
  }

  function Footers(n: nat): (r: seq<Footer>)
    ensures |r| == n
  {
    if n == 0 then [] else Footers(n - 1) + [Footer(n, n)]
  }

  /** Row i is the i-th box, at its place, with its cells; page k has the k-th footer, which says k. */
  lemma {:induction false} BoxAt(p: Page, columns: seq<Column>, n: nat, i: nat)
    requires i < n
    ensures var box := Boxes(p, columns, n)[i];
            box.row == i && box.page == p.RowPage(i) && box.top == p.RowTop(i) && box.cells == CellsFrom(StartX(columns), columns)
  {
    if i < n - 1 {
      BoxAt(p, columns, n - 1, i);
    }
  }

  lemma {:induction false} FooterAt(n: nat, k: nat)
    requires k < n
    ensures Footers(n)[k] == Footer(k + 1, k + 1)
  {
    if k < n - 1 {
      FooterAt(n - 1, k);
    }
  }

  // ---------------------------------------------------------------- arithmetic of full pages

  lemma MulStep(q: int, c: int)
    ensures (q + 1) * c == q * c + c
  {
  }

  lemma DivModUnique(k: int, c: int, q: int, r: int)
    requires c > 0 && k == q * c + r && 0 <= r < c
    ensures k / c == q && k % c == r
  {
    var q', r' := k / c, k % c;
    assert k == q' * c + r' && 0 <= r' < c;
    if q' < q {
      MulOrder(q' + 1, q, c);
      MulStep(q', c);
      assert false;
    } else if q < q' {
      MulOrder(q + 1, q', c);
      MulStep(q, c);
      assert false;
    }
  }

  lemma MulOrder(a: int, b: int, c: int)
    requires c > 0 && a <= b
    ensures a * c <= b * c
  {
  }

  lemma DivModStep(k: nat, c: nat)
    requires c >= 1
    ensures k % c + 1 < c ==> (k + 1) / c == k / c && (k + 1) % c == k % c + 1
    ensures k % c + 1 == c ==> (k + 1) / c == k / c + 1 && (k + 1) % c == 0
  {
    assert k == k / c * c + k % c;
    if k % c + 1 < c {
      DivModUnique(k + 1, c, k / c, k % c + 1);
    } else {
      MulStep(k / c, c);
      DivModUnique(k + 1, c, k / c + 1, 0);
    }
  }

  lemma CeilStep(k: nat, c: nat)
    requires c >= 1 && k >= 1
    ensures (k + c - 1) / c == (k - 1) / c + 1
  {
    MulStep((k - 1) / c, c);
    assert k - 1 == (k - 1) / c * c + (k - 1) % c;
    DivModUnique(k + c - 1, c, (k - 1) / c + 1, (k - 1) % c);
  }

  lemma FittingRows(p: Page, top: int, j: nat)
    ensures top + ROW_HEIGHT * j + ROW_HEIGHT <= p.Threshold() <==> j < p.Fitting(top)
  {
  }

  /** The loop's test: a page break comes before row i exactly when its place is on a new page, and
      otherwise the row goes where the previous one ended. */
  lemma BreakBefore(p: Page, i: nat)
    ensures p.NextY(i) + ROW_HEIGHT > p.Threshold() <==> p.RowPage(i) == p.LastPage(i) + 1
    ensures p.NextY(i) + ROW_HEIGHT <= p.Threshold() ==> p.RowPage(i) == p.LastPage(i) && p.RowTop(i) == p.NextY(i)
    ensures p.NextY(i) + ROW_HEIGHT > p.Threshold() ==> p.RowTop(i) == p.NextTop()
  {
    if i <= p.C1() {
      FittingRows(p, p.FirstTop(), i);
    } else {
      var k := i - 1 - p.C1();
      DivModStep(k, p.C2());
      FittingRows(p, p.NextTop(), k % p.C2() + 1);
    }
  }

  // ---------------------------------------------------------------- properties of the places

  /** A row stays above the break threshold exactly when it is on the first table page or a further
      page has room for a row at all. */
  lemma RowFits(p: Page, i: nat)
    ensures p.RowTop(i) + ROW_HEIGHT <= p.Threshold() <==> i < p.C1() || p.Fitting(p.NextTop()) >= 1
  {
    if i < p.C1() {
      FittingRows(p, p.FirstTop(), i);
    } else {
      FittingRows(p, p.NextTop(), (i - p.C1()) % p.C2());
    }
  }

  /** On Letter paper all rows fit: 31 on the first page and 34 or 35 on each further page. */
  lemma LetterRowsFit(named: bool, i: nat)
    ensures var p := Page(LETTER_HEIGHT, named);
            p.RowTop(i) + ROW_HEIGHT <= p.Threshold() && p.FirstPage() == 1 &&
            p.C1() == 31 && p.C2() == (if named then 34 else 35)
  {
    RowFits(Page(LETTER_HEIGHT, named), i);
  }

  /** Later rows are further on: on a later page, or on the same page and below, without overlap. */
  lemma {:induction false} RowsInOrder(p: Page, i: nat, j: nat)
    requires i < j
    ensures p.RowPage(i) < p.RowPage(j) || (p.RowPage(i) == p.RowPage(j) && p.RowTop(i) + ROW_HEIGHT <= p.RowTop(j))
    decreases j
  {
    BreakBefore(p, j);
    if i < j - 1 {
      RowsInOrder(p, i, j - 1);
    }
  }

  /** The document ends on the page of its last row, and from row to row the page number grows by
      at most one: no page is left without rows. */
  lemma PagesFilled(p: Page, n: nat)
    requires n >= 1
    ensures p.PageCount(n) == p.RowPage(n - 1)
    ensures n >= 2 ==> p.RowPage(n - 1) <= p.RowPage(n - 2) + 1
  {
    if n > p.C1() {
      CeilStep(n - p.C1(), p.C2());
    }
    if n >= 2 {
      BreakBefore(p, n - 1);
    }
  }

  // ---------------------------------------------------------------- Letter paper in points

  /** Where every row of a report on Letter paper stands, and how many pages it has. */
  lemma LetterPlaces(named: bool, i: nat)
    ensures var p, first, next, rows := Page(792, named), if named then 174 else 169, if named then 114 else 109,
                                        if named then 34 else 35;
            p.RowPage(i) == (if i < 31 then 1 else 2 + (i - 31) / rows) &&
            p.RowTop(i) == (if i < 31 then first + 18 * i else next + 18 * ((i - 31) % rows)) &&
            p.PageCount(i) == (if i <= 31 then 1 else 1 + (i - 31 + rows - 1) / rows)
  {
    LetterRowsFit(named, i);
  }

  lemma CellsSnoc(startX: real, most: seq<Column>, last: Column)
    ensures CellsFrom(startX, most + [last]) == CellsFrom(startX, most) + [Cell(startX + TotalWidth(most) as real, Width(last))]
    ensures TotalWidth(most + [last]) == TotalWidth(most) + Width(last)
  {
    assert (most + [last])[..|most|] == most;
  }

  lemma FirstCells(startX: real)
    ensures var columns := [] + [Date] + [Time] + [Aqi] + [Pm25] + [Pm10];
            TotalWidth(columns) == 214 &&
            CellsFrom(startX, columns) == [Cell(startX, 55), Cell(startX + 55.0, 45), Cell(startX + 100.0, 38),
                                           Cell(startX + 138.0, 38), Cell(startX + 176.0, 38)]
  {
    CellsSnoc(startX, [], Date);
    CellsSnoc(startX, [] + [Date], Time);
    CellsSnoc(startX, [] + [Date] + [Time], Aqi);
    CellsSnoc(startX, [] + [Date] + [Time] + [Aqi], Pm25);
    CellsSnoc(startX, [] + [Date] + [Time] + [Aqi] + [Pm25], Pm10);
  }

  lemma LastCells(startX: real, first: seq<Column>)
    requires TotalWidth(first) == 214
    ensures var columns := first + [Tvoc] + [Co2] + [Temperature] + [Humidity] + [Noise];
            TotalWidth(columns) == 452 &&
            CellsFrom(startX, columns) == CellsFrom(startX, first) +
              [Cell(startX + 214.0, 38), Cell(startX + 252.0, 40), Cell(startX + 292.0, 68), Cell(startX + 360.0, 52),
               Cell(startX + 412.0, 40)]
  {
    CellsSnoc(startX, first, Tvoc);
    CellsSnoc(startX, first + [Tvoc], Co2);
    CellsSnoc(startX, first + [Tvoc] + [Co2], Temperature);
    CellsSnoc(startX, first + [Tvoc] + [Co2] + [Temperature], Humidity);
    CellsSnoc(startX, first + [Tvoc] + [Co2] + [Temperature] + [Humidity], Noise);
  }

  /** The cells of a report with all parameters: ten columns, 80 points from either edge of the paper. */
  lemma FullTable()
    ensures var columns := [Date, Time, Aqi, Pm25, Pm10, Tvoc, Co2, Temperature, Humidity, Noise];
            CellsFrom(StartX(columns), columns) ==
            [Cell(80.0, 55), Cell(135.0, 45), Cell(180.0, 38), Cell(218.0, 38), Cell(256.0, 38), Cell(294.0, 38),
             Cell(332.0, 40), Cell(372.0, 68), Cell(440.0, 52), Cell(492.0, 40)]
  {
    var first := [] + [Date] + [Time] + [Aqi] + [Pm25] + [Pm10];
    FirstCells(80.0);
    LastCells(80.0, first);
    assert first + [Tvoc] + [Co2] + [Temperature] + [Humidity] + [Noise] ==
           [Date, Time, Aqi, Pm25, Pm10, Tvoc, Co2, Temperature, Humidity, Noise];
  }

  // ---------------------------------------------------------------- the writer

  /** What has been drawn; pages counts the pages of the document. */
  class Document {
    var pages: nat
    var boxes: seq<Box>
    var footers: seq<Footer>

    constructor ()
      ensures pages == 1 && boxes == [] && footers == []
    {
      pages, boxes, footers := 1, [], [];
    }

    method AddPage()
      modifies this`pages
      ensures pages == old(pages) + 1
    {
      pages := pages + 1;
    }

    method RenderFooter(pageNumber: nat)
      modifies this`footers
      ensures footers == old(footers) + [Footer(pages, pageNumber)]
    {
      footers := footers + [Footer(pages, pageNumber)];
    }

    method DrawRow(i: nat, columns: seq<Column>, tableStartX: real, y: int)
      modifies this`boxes
      ensures boxes == old(boxes) + [Box(i, pages, y, CellsFrom(tableStartX, columns))]
    {
      var currentX := tableStartX;
      var cells: seq<Cell> := [];
      for j := 0 to |columns|
        invariant cells == CellsFrom(tableStartX, columns[..j])
        invariant currentX == tableStartX + TotalWidth(columns[..j]) as real
      {
        assert columns[..j + 1][..j] == columns[..j];
        cells := cells + [Cell(currentX, Width(columns[j]))];
        currentX := currentX + Width(columns[j]) as real;
      }
      assert columns[..|columns|] == columns;
      boxes := boxes + [Box(i, pages, y, cells)];
    }
  }

  /** Title line, name line and table header, from y on. */
  method DrawTableHead(p: Page, y: int) returns (currentY: int)
    ensures currentY == y + p.HeadHeight()
  {
    currentY := y + 16;
    currentY := currentY + if p.named then 14 else 9;
    currentY := currentY + HEADER_HEIGHT;
  }

  method GenerateReport(p: Page, columns: seq<Column>, n: nat) returns (doc: Document)
    ensures fresh(doc)
    ensures doc.boxes == Boxes(p, columns, n)
    ensures doc.pages == p.PageCount(n) && doc.footers == Footers(doc.pages)
    ensures |doc.boxes| == n && |doc.footers| == doc.pages
    ensures forall i :: 0 <= i < n ==>
              doc.boxes[i].row == i && doc.boxes[i].page == p.RowPage(i) && doc.boxes[i].top == p.RowTop(i) &&
              doc.boxes[i].cells == CellsFrom(StartX(columns), columns)
    ensures forall k :: 0 <= k < doc.pages ==> doc.footers[k] == Footer(k + 1, k + 1)
  {
    doc := new Document();
    var pageNumber := 1;
    var currentY := 40 + 70;
    var pageBreakThreshold := p.height - MARGIN;
    var tableStartX := StartX(columns);
    if currentY + 25 + 18 > pageBreakThreshold {
      doc.RenderFooter(pageNumber);
      doc.AddPage();
      pageNumber := pageNumber + 1;
      currentY := MARGIN;
    }
    currentY := DrawTableHead(p, currentY);
    if n == 0 {
      currentY := currentY + 30;
    } else {
      for i := 0 to n
        invariant fresh(doc)
        invariant currentY == p.NextY(i) && doc.pages == pageNumber == p.LastPage(i)
        invariant doc.boxes == Boxes(p, columns, i) && pageNumber >= 1
        invariant doc.footers == Footers(pageNumber - 1)
      {
        BreakBefore(p, i);
        if currentY + ROW_HEIGHT > pageBreakThreshold {
          doc.RenderFooter(pageNumber);
          doc.AddPage();
          pageNumber := pageNumber + 1;
          currentY := DrawTableHead(p, MARGIN);
        }
        doc.DrawRow(i, columns, tableStartX, currentY);
        currentY := currentY + ROW_HEIGHT;
      }
      PagesFilled(p, n);
    }
    doc.RenderFooter(pageNumber);
    forall i | 0 <= i < n
      ensures doc.boxes[i].row == i && doc.boxes[i].page == p.RowPage(i) && doc.boxes[i].top == p.RowTop(i)
      ensures doc.boxes[i].cells == CellsFrom(StartX(columns), columns)
    {
      BoxAt(p, columns, n, i);
    }
    forall k | 0 <= k < doc.pages ensures doc.footers[k] == Footer(k + 1, k + 1) {
      FooterAt(doc.pages, k);
    }
  }
}
