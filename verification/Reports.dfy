/** The CSV report: column selection, header slots and data rows, and the theorem that says
    when a reader gets every field back. */
module Reports {
  import opened Common
  import opened CsvFormat

  datatype Column =
    | Date | Time | DeviceId
    | Aqi | Pm25 | Pm10 | Tvoc | Co2 | Temperature | Humidity | Noise
  {
    /** The key under which a request names the column. */
    function Name(): string {
      match this
      case Date => "Date"
      case Time => "Time"
      case DeviceId => "deviceId"
      case Aqi => "aqi"
      case Pm25 => "pm25"
      case Pm10 => "pm10"
      case Tvoc => "tvoc"
      case Co2 => "co2"
      case Temperature => "temperature"
      case Humidity => "humidity"
      case Noise => "noise"
    }

    function Label(): string {
      match this
      case Date => "Date"
      case Time => "Time"
      case DeviceId => "deviceId"
      case Aqi => "AQI"
      case Pm25 => "PM2.5 (\U{00B5}g/m\U{00B3})"
      case Pm10 => "PM10 (\U{00B5}g/m\U{00B3})"
      case Tvoc => "TVOC (ppb)"
      case Co2 => "CO2 (ppm)"
      case Temperature => "Temperature (\U{00B0}C)"
      case Humidity => "Humidity (%)"
      case Noise => "Noise (dB)"
    }
  }

  const CANONICAL_ORDER: seq<Column> := [Aqi, Pm25, Pm10, Tvoc, Co2, Temperature, Humidity, Noise]

  const TITLE: string := "GBI Air Quality Monitor - Report"

  const BOM: char := '\U{FEFF}'

  /** A row of the formatted query result; a null cell is a key that is absent from values. */
  datatype FormattedRow =
    FormattedRow(deviceId: string, date: PlainText, time: PlainText, values: map<Column, PlainText>)

  /** name and location are empty when the user has not set them. */
  datatype Request =
    Request(deviceId: string, parameters: seq<string>, range: PlainText, name: string, location: string)

  // ---------------------------------------------------------------- columns

  function Requested(parameters: seq<string>): Column -> bool {
    (p: Column) => p.Name() in parameters
  }

  function Columns(parameters: seq<string>): seq<Column> {
    [Date, Time, DeviceId] + Filter(Requested(parameters), CANONICAL_ORDER)
  }

  function Cell(row: FormattedRow, column: Column): string {
    match column
    case Date => row.date
    case Time => row.time
    case DeviceId => row.deviceId
    case _ => if column in row.values then row.values[column] else ""
  }

  function OfDevice(deviceId: string): FormattedRow -> bool {
    (r: FormattedRow) => r.deviceId == deviceId
  }

  // ---------------------------------------------------------------- the table a reader should see

  function Blank(n: nat): (r: seq<string>)
    ensures |r| == n && forall i :: 0 <= i < n ==> r[i] == ""
  {
    if n == 0 then [] else [""] + Blank(n - 1)
  }

  function CenterFields(text: string, totalCols: nat): (r: seq<string>)
    requires totalCols >= 1
    ensures |r| == totalCols
  {
    Blank((totalCols - 1) / 2) + [text] + Blank(totalCols - 1 - (totalCols - 1) / 2)
  }

  /** The device header with the slot assignments in the order in which they are made. */
  function HeaderFields(totalCols: nat, deviceId: string, name: string, location: string): (r: seq<string>)
    requires totalCols >= 1
    ensures |r| == totalCols
  {
    var nameText, locationText := "Device Name: " + name, "Location: " + location;
    var row := Blank(totalCols)[0 := "Device ID: " + deviceId];
    if totalCols >= 11 then
      var row := if name != "" then row[5 := nameText] else row;
      if location != "" then row[10 := locationText] else row
    else if totalCols >= 3 then
      var row := if name != "" then row[(totalCols - 1) / 2 := nameText] else row;
      if location != "" then row[totalCols - 1 := locationText] else row
    else if totalCols == 2 then
      var parts := (if name != "" then [nameText] else []) + if location != "" then [locationText] else [];
      if |parts| == 2 then row[1 := parts[0] + " - " + parts[1]]
      else if |parts| == 1 then row[1 := parts[0]]
      else row
    else row
  }

  function Labels(columns: seq<Column>): (r: seq<string>)
    ensures |r| == |columns|
  {
    seq(|columns|, i requires 0 <= i < |columns| => columns[i].Label())
  }

  function DataFields(row: FormattedRow, columns: seq<Column>): (r: seq<string>)
    ensures |r| == |columns|
  {
    seq(|columns|, j requires 0 <= j < |columns| => Cell(row, columns[j]))
  }

  function DataTable(rows: seq<FormattedRow>, columns: seq<Column>): (r: seq<seq<string>>)
    ensures |r| == |rows|
  {
    seq(|rows|, i requires 0 <= i < |rows| => DataFields(rows[i], columns))
  }

  function BodyTable(rows: seq<FormattedRow>, columns: seq<Column>): seq<seq<string>> {
    if rows == [] then [Blank(|columns|)] else DataTable(rows, columns)
  }

  function HeadTable(req: Request): (r: seq<seq<string>>)
    ensures |r| == 7
    ensures forall i :: 0 <= i < 7 ==> |r[i]| == |Columns(req.parameters)|
  {
    var columns := Columns(req.parameters);
    var c := |columns|;
    [CenterFields(TITLE, c), Blank(c), CenterFields(req.range, c), Blank(c),
     HeaderFields(c, req.deviceId, req.name, req.location), Blank(c), Labels(columns)]
  }

  /** Seven header records, then one record per row of the device, or one blank record. */
  function Table(req: Request, rows: seq<FormattedRow>): seq<seq<string>> {
    var columns, mine := Columns(req.parameters), Filter(OfDevice(req.deviceId), rows);
    HeadTable(req) + BodyTable(mine, columns)
  }

  // ---------------------------------------------------------------- the text that is written

  function CenterText(text: string, totalCols: nat): string
    requires totalCols >= 1
  {
    var left := (totalCols - 1) / 2;
    Repeat(',', left) + text + Repeat(',', totalCols - 1 - left)
  }

  function DataLines(rows: seq<FormattedRow>, columns: seq<Column>): (r: seq<string>)
    ensures |r| == |rows|
  {
    seq(|rows|, i requires 0 <= i < |rows| => Join(DataFields(rows[i], columns), ','))
  }

  function BodyLinesOf(rows: seq<FormattedRow>, columns: seq<Column>): seq<string>
    requires columns != []
  {
    if rows == [] then [Repeat(',', |columns| - 1)] else DataLines(rows, columns)
  }

  function HeadLines(req: Request): (r: seq<string>)
    ensures |r| == 7
  {
    var columns := Columns(req.parameters);
    var c := |columns|;
    [CenterText(TITLE, c), Repeat(',', c - 1), CenterText(req.range, c), Repeat(',', c - 1),
     Join(EscapeAll(HeaderFields(c, req.deviceId, req.name, req.location)), ','),
     Repeat(',', c - 1), Join(Labels(columns), ',')]
  }

  /** Data cells are joined as they are; only the device header is escaped. */
  function Lines(req: Request, rows: seq<FormattedRow>): seq<string> {
    var columns, mine := Columns(req.parameters), Filter(OfDevice(req.deviceId), rows);
    HeadLines(req) + BodyLinesOf(mine, columns)
  }

  // ---------------------------------------------------------------- the writer

  lemma EscapeAllUpdate(fields: seq<string>, i: nat, text: string)
    requires i < |fields|
    ensures EscapeAll(fields[i := text]) == EscapeAll(fields)[i := Escape(text)]
  {
  }

  /** One slot assignment; fields is what the row says before escaping. */
  method Put(row: array<string>, i: nat, text: string, ghost fields: seq<string>)
    requires i < |fields| && row[..] == EscapeAll(fields)
    modifies row
    ensures row[..] == EscapeAll(fields[i := text])
  {
    EscapeAllUpdate(fields, i, text);
    row[i] := Escape(text);
  }

  method DeviceHeaderRow(totalCols: nat, deviceId: string, name: string, location: string)
    returns (row: array<string>)
    requires totalCols >= 1
    ensures fresh(row) && row[..] == EscapeAll(HeaderFields(totalCols, deviceId, name, location))
  {
    row := new string[totalCols](_ => "");
    ghost var fields := Blank(totalCols);
    assert row[..] == EscapeAll(fields);
    var nameText, locationText := "Device Name: " + name, "Location: " + location;
    Put(row, 0, "Device ID: " + deviceId, fields);
    fields := fields[0 := "Device ID: " + deviceId];
    if totalCols >= 11 {
      if name != "" { Put(row, 5, nameText, fields); fields := fields[5 := nameText]; }
      if location != "" { Put(row, 10, locationText, fields); }
    } else if totalCols >= 3 {
      var mid := (totalCols - 1) / 2;
      if name != "" { Put(row, mid, nameText, fields); fields := fields[mid := nameText]; }
      if location != "" { Put(row, totalCols - 1, locationText, fields); }
    } else if totalCols == 2 {
      var parts := [];
      if name != "" { parts := parts + [nameText]; }
      if location != "" { parts := parts + [locationText]; }
      if |parts| == 2 {
        Put(row, 1, parts[0] + " - " + parts[1], fields);
      } else if |parts| == 1 {
        Put(row, 1, parts[0], fields);
      }
    }
  }

  function Group(m: map<string, seq<FormattedRow>>, d: string): seq<FormattedRow> {
    if d in m then m[d] else []
  }

  /** The groups are exactly the rows of each device, in their order. */
  ghost predicate Grouped(m: map<string, seq<FormattedRow>>, rows: seq<FormattedRow>) {
    forall d :: Group(m, d) == Filter(OfDevice(d), rows)
  }

  lemma GroupOneMore(m: map<string, seq<FormattedRow>>, rows: seq<FormattedRow>, row: FormattedRow)
    requires Grouped(m, rows)
    ensures Grouped(m[row.deviceId := Group(m, row.deviceId) + [row]], rows + [row])
  {
    var m' := m[row.deviceId := Group(m, row.deviceId) + [row]];
    forall d ensures Group(m', d) == Filter(OfDevice(d), rows + [row]) {
      FilterSnoc(OfDevice(d), rows, row);
      assert Group(m, d) == Filter(OfDevice(d), rows);
    }
  }

  method GroupByDevice(rows: seq<FormattedRow>) returns (rowsByDevice: map<string, seq<FormattedRow>>)
    ensures Grouped(rowsByDevice, rows)
  {
    rowsByDevice := map[];
    for i := 0 to |rows|
      invariant Grouped(rowsByDevice, rows[..i])
    {
      var d := rows[i].deviceId;
      GroupOneMore(rowsByDevice, rows[..i], rows[i]);
      assert rows[..i + 1] == rows[..i] + [rows[i]];
      rowsByDevice := rowsByDevice[d := Group(rowsByDevice, d) + [rows[i]]];
    }
    assert rows[..|rows|] == rows;
  }

  method HeaderRow(columns: seq<Column>) returns (headerRow: array<string>)
    ensures fresh(headerRow) && headerRow[..] == Labels(columns)
  {
    headerRow := new string[|columns|](_ => "");
    for i := 0 to |columns|
      invariant forall k :: 0 <= k < i ==> headerRow[k] == columns[k].Label()
    {
      headerRow[i] := columns[i].Label();
    }
  }

  method DataRow(row: FormattedRow, columns: seq<Column>) returns (rowData: array<string>)
    ensures fresh(rowData) && rowData[..] == DataFields(row, columns)
  {
    rowData := new string[|columns|](_ => "");
    for j := 0 to |columns|
      invariant forall k :: 0 <= k < j ==> rowData[k] == Cell(row, columns[k])
    {
      rowData[j] := Cell(row, columns[j]);
    }
  }

  method WriteHead(req: Request) returns (lines: seq<string>)
    ensures lines == HeadLines(req)
  {
    var columns := Columns(req.parameters);
    var totalCols := |columns|;
    var header := DeviceHeaderRow(totalCols, req.deviceId, req.name, req.location);
    var headerRow := HeaderRow(columns);
    var deviceLine, labelLine := Join(header[..], ','), Join(headerRow[..], ',');
    var blank := Repeat(',', totalCols - 1);
    lines := [CenterText(TITLE, totalCols), blank, CenterText(req.range, totalCols), blank];
    lines := lines + [deviceLine, blank, labelLine];
  }

  method WriteBody(deviceRows: seq<FormattedRow>, columns: seq<Column>) returns (lines: seq<string>)
    requires columns != []
    ensures lines == BodyLinesOf(deviceRows, columns)
  {
    lines := [];
    if |deviceRows| == 0 {
      lines := lines + [Repeat(',', |columns| - 1)];
    } else {
      for i := 0 to |deviceRows|
        invariant lines == DataLines(deviceRows, columns)[..i]
      {
        var rowData := DataRow(deviceRows[i], columns);
        lines := lines + [Join(rowData[..], ',')];
      }
    }
  }

  method GenerateCsv(req: Request, rows: seq<FormattedRow>) returns (text: string)
    ensures text == ['\U{FEFF}'] + Join(Lines(req, rows), '\n')
  {
    var head := WriteHead(req);
    var rowsByDevice := GroupByDevice(rows);
    var body := WriteBody(Group(rowsByDevice, req.deviceId), Columns(req.parameters));
    text := [BOM] + Join(head + body, '\n');
  }

  // ---------------------------------------------------------------- every header line is an escaped record

  lemma {:induction false} JoinCentered(text: string, left: nat, right: nat)
    ensures Join(Blank(left) + [text] + Blank(right), ',') == Repeat(',', left) + text + Repeat(',', right)
    decreases left + right
  {
    var parts := Blank(left) + [text] + Blank(right);
    if left > 0 {
      JoinCentered(text, left - 1, right);
      assert parts[1..] == Blank(left - 1) + [text] + Blank(right);
    } else if right > 0 {
      JoinCentered("", 0, right - 1);
      assert parts[1..] == Blank(0) + [""] + Blank(right - 1);
    }
  }

  lemma CenteredLine(text: string, totalCols: nat)
    requires totalCols >= 1 && Plain(text)
    ensures WriteRecord(CenterFields(text, totalCols)) == CenterText(text, totalCols)
  {
    var left := (totalCols - 1) / 2;
    JoinCentered(text, left, totalCols - 1 - left);
    EscapeLonger(text);
    assert EscapeAll(CenterFields(text, totalCols)) == CenterFields(text, totalCols);
  }

  lemma BlankLine(totalCols: nat)
    requires totalCols >= 1
    ensures WriteRecord(Blank(totalCols)) == Repeat(',', totalCols - 1)
  {
    JoinCentered("", 0, totalCols - 1);
    assert EscapeAll(Blank(totalCols)) == Blank(0) + [""] + Blank(totalCols - 1);
  }

  lemma LabelIsPlain(column: Column)
    ensures Plain(column.Label())
  {
    match column
    case Date =>
    case Time =>
    case DeviceId =>
    case Aqi =>
    case Pm25 =>
    case Pm10 =>
    case Tvoc =>
    case Co2 =>
    case Temperature =>
    case Humidity =>
    case Noise =>
  }

  lemma LabelsLine(columns: seq<Column>)
    ensures WriteRecord(Labels(columns)) == Join(Labels(columns), ',')
  {
    forall i | 0 <= i < |columns| ensures Escape(columns[i].Label()) == columns[i].Label() {
      LabelIsPlain(columns[i]);
      EscapeLonger(columns[i].Label());
    }
    assert EscapeAll(Labels(columns)) == Labels(columns);
  }

  lemma TitleLine(totalCols: nat)
    requires totalCols >= 1
    ensures WriteRecord(CenterFields(TITLE, totalCols)) == CenterText(TITLE, totalCols)
  {
    assert Plain(TITLE);
    CenteredLine(TITLE, totalCols);
  }

  lemma HeadRecords(range: string, header: seq<string>, columns: seq<Column>)
    requires columns != [] && Plain(range)
    ensures var c := |columns|; var blank := Repeat(',', c - 1);
            [blank, CenterText(range, c), blank, WriteRecord(header), blank, Join(Labels(columns), ',')] ==
            WriteRecords([Blank(c), CenterFields(range, c), Blank(c), header, Blank(c), Labels(columns)])
  {
    CenteredLine(range, |columns|);
    BlankLine(|columns|);
    LabelsLine(columns);
  }

  lemma HeadLinesAreRecords(req: Request)
    ensures HeadLines(req) == WriteRecords(HeadTable(req))
  {
    var columns := Columns(req.parameters);
    var header := HeaderFields(|columns|, req.deviceId, req.name, req.location);
    TitleLine(|columns|);
    HeadRecords(req.range, header, columns);
    assert HeadLines(req)[1..] == WriteRecords(HeadTable(req)[1..]);
  }

  lemma DataLine(row: FormattedRow, columns: seq<Column>)
    ensures Plain(row.deviceId) ==> Join(DataFields(row, columns), ',') == WriteRecord(DataFields(row, columns))
    ensures !Plain(row.deviceId) && DeviceId in columns ==>
              |Join(DataFields(row, columns), ',')| < |WriteRecord(DataFields(row, columns))|
  {
    var fields := DataFields(row, columns);
    forall i | 0 <= i < |fields| {
      EscapeLonger(fields[i]);
    }
    if Plain(row.deviceId) {
      assert EscapeAll(fields) == fields;
    } else if DeviceId in columns {
      var i :| 0 <= i < |columns| && columns[i] == DeviceId;
      assert |fields[i]| < |EscapeAll(fields)[i]|;
      JoinLonger(fields, EscapeAll(fields), ',');
    }
  }

  /** The data part of the text, line by line, against its escaped form. */
  lemma BodyLines(rows: seq<FormattedRow>, columns: seq<Column>, deviceId: string)
    requires forall i :: 0 <= i < |rows| ==> rows[i].deviceId == deviceId
    requires DeviceId in columns
    ensures Plain(deviceId) ==> DataLines(rows, columns) == WriteRecords(DataTable(rows, columns))
    ensures !Plain(deviceId) ==> forall i :: 0 <= i < |rows| ==>
              |DataLines(rows, columns)[i]| < |WriteRecords(DataTable(rows, columns))[i]|
  {
    forall i | 0 <= i < |rows|
      ensures var line, record := DataLines(rows, columns)[i], WriteRecords(DataTable(rows, columns))[i];
              if Plain(deviceId) then line == record else |line| < |record|
    {
      assert rows[i].deviceId == deviceId;
      DataLine(rows[i], columns);
    }
  }

  lemma ConcatJoinLonger(head: seq<string>, a: seq<string>, b: seq<string>)
    requires |a| == |b| > 0 && forall i :: 0 <= i < |a| ==> |a[i]| < |b[i]|
    ensures |Join(head + a, '\n')| < |Join(head + b, '\n')|
  {
    var k := |head|;
    assert (head + a)[k] == a[0] && (head + b)[k] == b[0];
    JoinLonger(head + a, head + b, '\n');
  }

  lemma WriteRecordsConcat(a: seq<seq<string>>, b: seq<seq<string>>)
    ensures WriteRecords(a + b) == WriteRecords(a) + WriteRecords(b)
  {
  }

  /** A data row whose device ID needs quoting makes the text too short to be the table. */
  lemma UnescapedIsNotTheTable(head: seq<seq<string>>, rows: seq<FormattedRow>, columns: seq<Column>, deviceId: string)
    requires forall i :: 0 <= i < |rows| ==> rows[i].deviceId == deviceId
    requires DeviceId in columns && rows != [] && !Plain(deviceId)
    ensures Read(Join(WriteRecords(head) + BodyLinesOf(rows, columns), '\n')) != Some(head + BodyTable(rows, columns))
  {
    BodyLines(rows, columns, deviceId);
    WriteRecordsConcat(head, DataTable(rows, columns));
    ConcatJoinLonger(WriteRecords(head), DataLines(rows, columns), WriteRecords(DataTable(rows, columns)));
    var text := Join(WriteRecords(head) + DataLines(rows, columns), '\n');
    if Read(text).Some? {
      EscapedFormIsShortest(text);
    }
  }

  lemma EscapedIsTheTable(head: seq<seq<string>>, rows: seq<FormattedRow>, columns: seq<Column>, deviceId: string)
    requires forall i :: 0 <= i < |rows| ==> rows[i].deviceId == deviceId
    requires DeviceId in columns && |columns| >= 2 && (rows == [] || Plain(deviceId))
    requires forall i :: 0 <= i < |head| ==> |head[i]| >= 2
    ensures Read(Join(WriteRecords(head) + BodyLinesOf(rows, columns), '\n')) == Some(head + BodyTable(rows, columns))
  {
    BodyLines(rows, columns, deviceId);
    BlankLine(|columns|);
    WriteRecordsConcat(head, BodyTable(rows, columns));
    assert BodyLinesOf(rows, columns) == WriteRecords(BodyTable(rows, columns));
    TableRoundTrip(head + BodyTable(rows, columns));
  }

  // ---------------------------------------------------------------- main results

  /** Between 3 and 11 columns, so the two-column branch of the header is never taken. */
  lemma ColumnCount(parameters: seq<string>)
    ensures 3 <= |Columns(parameters)| <= 11
    ensures forall p <- CANONICAL_ORDER :: p.Name() in parameters <==> p in Columns(parameters)
  {
    forall p | p in CANONICAL_ORDER && p.Name() in parameters ensures p in Columns(parameters) {
      var i :| 0 <= i < |CANONICAL_ORDER| && CANONICAL_ORDER[i] == p;
      FilterKeeps(Requested(parameters), CANONICAL_ORDER, i);
    }
    forall p | p in CANONICAL_ORDER && p in Columns(parameters) ensures p.Name() in parameters {
      var i :| 0 <= i < |Columns(parameters)| && Columns(parameters)[i] == p;
      FilterSound(Requested(parameters), CANONICAL_ORDER, i - 3);
    }
  }

  /** The three header slots are different cells, the remaining cells are blank, and for eleven
      columns the fixed slots 5 and 10 are the middle and the last one. */
  lemma HeaderSlots(totalCols: nat, deviceId: string, name: string, location: string)
    requires 3 <= totalCols <= 11
    ensures 0 < (totalCols - 1) / 2 < totalCols - 1
    ensures forall i :: 0 <= i < totalCols ==>
              HeaderFields(totalCols, deviceId, name, location)[i] ==
              if i == 0 then "Device ID: " + deviceId
              else if i == (totalCols - 1) / 2 && name != "" then "Device Name: " + name
              else if i == totalCols - 1 && location != "" then "Location: " + location
              else ""
  {
    assert totalCols == 11 ==> (totalCols - 1) / 2 == 5;
  }

  /** In tables of other widths, which no report has: from eleven columns on the slots are fixed, with two
      columns name and location share a cell, and a single one has neither. */
  lemma OtherHeaderSlots(totalCols: nat, deviceId: string, name: string, location: string)
    requires totalCols >= 1
    ensures var fields := HeaderFields(totalCols, deviceId, name, location);
            fields[0] == "Device ID: " + deviceId &&
            (totalCols == 2 ==>
               fields[1] == if name != "" && location != "" then "Device Name: " + name + " - Location: " + location
                            else if name != "" then "Device Name: " + name
                            else if location != "" then "Location: " + location
                            else "") &&
            (totalCols >= 11 ==>
               forall i :: 1 <= i < totalCols ==>
                 fields[i] == if i == 5 && name != "" then "Device Name: " + name
                              else if i == 10 && location != "" then "Location: " + location
                              else "")
  {
    if totalCols == 2 && name != "" && location != "" {
      assert "Device Name: " + name + " - " + ("Location: " + location) == "Device Name: " + name + " - Location: " + location;
    }
  }

  /** Reading the report, after dropping the byte order mark, gives back exactly the table, if
      and only if the report has no data rows or the device ID needs no quoting. The table has one record
      for each row of the requested device, and all its records are equally long. */
  lemma CsvRoundTrip(req: Request, rows: seq<FormattedRow>)
    ensures Read(Join(Lines(req, rows), '\n')) == Some(Table(req, rows)) <==>
            Filter(OfDevice(req.deviceId), rows) == [] || Plain(req.deviceId)
    ensures var n := |Filter(OfDevice(req.deviceId), rows)|;
            |Table(req, rows)| == 7 + (if n == 0 then 1 else n) &&
            forall i :: 0 <= i < |Table(req, rows)| ==> |Table(req, rows)[i]| == |Columns(req.parameters)|
  {
    var columns, mine := Columns(req.parameters), Filter(OfDevice(req.deviceId), rows);
    HeadLinesAreRecords(req);
    assert columns[2] == DeviceId;
    var head := HeadTable(req);
    forall i | 0 <= i < |mine| ensures mine[i].deviceId == req.deviceId {
      FilterSound(OfDevice(req.deviceId), rows, i);
    }
    if mine == [] || Plain(req.deviceId) {
      EscapedIsTheTable(head, mine, columns, req.deviceId);
    } else {
      UnescapedIsNotTheTable(head, mine, columns, req.deviceId);
    }
  }

  /** A device may be registered under any ID: a report with one row of a device "A,1" does not read back
      as its table. */
  lemma CommaInDeviceId(date: PlainText, time: PlainText)
    ensures var req, rows := Request("A,1", ["co2"], "", "", ""), [FormattedRow("A,1", date, time, map[])];
            Read(Join(Lines(req, rows), '\n')) != Some(Table(req, rows))
  {
    var req, row := Request("A,1", ["co2"], "", "", ""), FormattedRow("A,1", date, time, map[]);
    assert "A,1"[1] == ',' && ',' in "A,1";
    assert !Plain(req.deviceId);
    FilterOne(OfDevice("A,1"), row);
    CsvRoundTrip(req, [row]);
  }
}
