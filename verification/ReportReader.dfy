/** What somebody sees who reads a CSV report: title, range, header slots, labels, and under each label the
    values of the device's rows. */
module ReportReader {
  import opened Common
  import opened CsvFormat
  import opened Reports

  datatype Parameter = Parameter(name: string, title: string, column: Column)

  /** The parameters a report can have, in their order. */
  const PARAMETERS: seq<Parameter> :=
    [Parameter("aqi", "AQI", Aqi),
     Parameter("pm25", "PM2.5 (\U{00B5}g/m\U{00B3})", Pm25),
     Parameter("pm10", "PM10 (\U{00B5}g/m\U{00B3})", Pm10),
     Parameter("tvoc", "TVOC (ppb)", Tvoc),
     Parameter("co2", "CO2 (ppm)", Co2),
     Parameter("temperature", "Temperature (\U{00B0}C)", Temperature),
     Parameter("humidity", "Humidity (%)", Humidity),
     Parameter("noise", "Noise (dB)", Noise)]

  /** Those that are requested. */
  function Wanted(parameters: seq<Parameter>, names: seq<string>): (r: seq<Parameter>)
    ensures |r| <= |parameters|
  {
    if parameters == [] then []
    else
      var last := parameters[|parameters| - 1];
      Wanted(parameters[..|parameters| - 1], names) + if last.name in names then [last] else []
  }

  function OwnRows(rows: seq<FormattedRow>, deviceId: string): seq<FormattedRow> {
    if rows == [] then []
    else
      var last := rows[|rows| - 1];
      OwnRows(rows[..|rows| - 1], deviceId) + if last.deviceId == deviceId then [last] else []
  }

  ghost predicate AllBlank(record: seq<string>) {
    forall j :: 0 <= j < |record| ==> record[j] == ""
  }

  ghost predicate OnlyInTheMiddle(record: seq<string>, text: string) {
    forall j :: 0 <= j < |record| ==> record[j] == if j == (|record| - 1) / 2 then text else ""
  }

  ghost predicate Slots(record: seq<string>, req: Request) {
    forall j :: 0 <= j < |record| ==>
      record[j] == if j == 0 then "Device ID: " + req.deviceId
                   else if j == (|record| - 1) / 2 && req.name != "" then "Device Name: " + req.name
                   else if j == |record| - 1 && req.location != "" then "Location: " + req.location
                   else ""
  }

  ghost predicate LabelsShown(record: seq<string>, wanted: seq<Parameter>)
    requires |record| == 3 + |wanted|
  {
    record[0] == "Date" && record[1] == "Time" && record[2] == "deviceId" &&
    forall j :: 0 <= j < |wanted| ==> record[3 + j] == wanted[j].title
  }

  ghost predicate RowShown(record: seq<string>, row: FormattedRow, wanted: seq<Parameter>)
    requires |record| == 3 + |wanted|
  {
    record[0] == row.date && record[1] == row.time && record[2] == row.deviceId &&
    forall j :: 0 <= j < |wanted| ==>
      record[3 + j] == if wanted[j].column in row.values then row.values[wanted[j].column] else ""
  }

  ghost predicate Rectangular(table: seq<seq<string>>, width: nat) {
    forall i :: 0 <= i < |table| ==> |table[i]| == width
  }

  /** The table shows what was asked for, and one record for each row of the device, or a blank one. */
  ghost predicate Shows(table: seq<seq<string>>, req: Request, rows: seq<FormattedRow>) {
    var wanted, own := Wanted(PARAMETERS, req.parameters), OwnRows(rows, req.deviceId);
    |table| == 7 + (if own == [] then 1 else |own|) && Rectangular(table, 3 + |wanted|) &&
    OnlyInTheMiddle(table[0], "GBI Air Quality Monitor - Report") && AllBlank(table[1]) &&
    OnlyInTheMiddle(table[2], req.range) && AllBlank(table[3]) && Slots(table[4], req) && AllBlank(table[5]) &&
    LabelsShown(table[6], wanted) && (own == [] ==> AllBlank(table[7])) &&
    forall i :: 0 <= i < |own| ==> RowShown(table[7 + i], own[i], wanted)
  }

  // ---------------------------------------------------------------- the columns are the parameters

  function ColumnsOf(parameters: seq<Parameter>): (r: seq<Column>)
    ensures |r| == |parameters|
  {
    seq(|parameters|, i requires 0 <= i < |parameters| => parameters[i].column)
  }

  ghost predicate Named(p: Parameter) {
    p.column.Name() == p.name && p.column.Label() == p.title && p.column in CANONICAL_ORDER
  }

  lemma ParametersAreNamed()
    ensures forall p <- PARAMETERS :: Named(p)
    ensures ColumnsOf(PARAMETERS) == CANONICAL_ORDER
  {
  }

  lemma {:induction false} WantedColumns(parameters: seq<Parameter>, names: seq<string>)
    requires forall p <- parameters :: Named(p)
    ensures Filter(Requested(names), ColumnsOf(parameters)) == ColumnsOf(Wanted(parameters, names))
    ensures forall p <- Wanted(parameters, names) :: Named(p)
  {
    if parameters == [] {
    } else {
      var most, last := parameters[..|parameters| - 1], parameters[|parameters| - 1];
      assert last in parameters && forall p <- most :: p in parameters;
      WantedColumns(most, names);
      assert ColumnsOf(parameters) == ColumnsOf(most) + [last.column];
      FilterSnoc(Requested(names), ColumnsOf(most), last.column);
    }
  }

  lemma {:induction false} OwnRowsAreFiltered(rows: seq<FormattedRow>, deviceId: string)
    ensures OwnRows(rows, deviceId) == Filter(OfDevice(deviceId), rows)
  {
    if rows == [] {
    } else {
      OwnRowsAreFiltered(rows[..|rows| - 1], deviceId);
    }
  }

  lemma ColumnsAreWanted(names: seq<string>)
    ensures ColumnsFor(Columns(names), Wanted(PARAMETERS, names))
  {
    ParametersAreNamed();
    WantedColumns(PARAMETERS, names);
  }

  // ---------------------------------------------------------------- the table shows the report

  lemma CenteredShown(text: string, totalCols: nat)
    requires totalCols >= 1
    ensures OnlyInTheMiddle(CenterFields(text, totalCols), text)
  {
  }

  lemma ValueShown(row: FormattedRow, p: Parameter)
    requires Named(p)
    ensures Cell(row, p.column) == if p.column in row.values then row.values[p.column] else ""
  {
  }

  ghost predicate ColumnsFor(columns: seq<Column>, wanted: seq<Parameter>) {
    columns == [Date, Time, DeviceId] + ColumnsOf(wanted) && forall p <- wanted :: Named(p)
  }

  lemma ColumnFor(columns: seq<Column>, wanted: seq<Parameter>, j: nat)
    requires ColumnsFor(columns, wanted) && j < |wanted|
    ensures |columns| == 3 + |wanted| && columns[3 + j] == wanted[j].column && Named(wanted[j])
  {
    assert wanted[j] in wanted;
  }

  lemma DataShown(row: FormattedRow, columns: seq<Column>, wanted: seq<Parameter>)
    requires ColumnsFor(columns, wanted)
    ensures |columns| == 3 + |wanted| && RowShown(DataFields(row, columns), row, wanted)
  {
    forall j | 0 <= j < |wanted|
      ensures DataFields(row, columns)[3 + j] ==
              if wanted[j].column in row.values then row.values[wanted[j].column] else ""
    {
      ColumnFor(columns, wanted, j);
      ValueShown(row, wanted[j]);
    }
  }

  lemma LabelsAreShown(columns: seq<Column>, wanted: seq<Parameter>)
    requires ColumnsFor(columns, wanted)
    ensures |columns| == 3 + |wanted| && LabelsShown(Labels(columns), wanted)
  {
    forall j | 0 <= j < |wanted| ensures Labels(columns)[3 + j] == wanted[j].title {
      ColumnFor(columns, wanted, j);
    }
  }

  lemma SlotsShown(req: Request, totalCols: nat)
    requires 3 <= totalCols <= 11
    ensures Slots(HeaderFields(totalCols, req.deviceId, req.name, req.location), req)
  {
    HeaderSlots(totalCols, req.deviceId, req.name, req.location);
  }

  lemma HeadShown(req: Request)
    ensures var head, wanted := HeadTable(req), Wanted(PARAMETERS, req.parameters);
            Rectangular(head, 3 + |wanted|) &&
            OnlyInTheMiddle(head[0], "GBI Air Quality Monitor - Report") && AllBlank(head[1]) &&
            OnlyInTheMiddle(head[2], req.range) && AllBlank(head[3]) && Slots(head[4], req) && AllBlank(head[5]) &&
            LabelsShown(head[6], wanted)
  {
    var columns, wanted := Columns(req.parameters), Wanted(PARAMETERS, req.parameters);
    ColumnsAreWanted(req.parameters);
    LabelsAreShown(columns, wanted);
    ColumnCount(req.parameters);
    CenteredShown(TITLE, |columns|);
    CenteredShown(req.range, |columns|);
    SlotsShown(req, |columns|);
  }

  lemma BodyShown(own: seq<FormattedRow>, columns: seq<Column>, wanted: seq<Parameter>)
    requires ColumnsFor(columns, wanted)
    ensures var body := BodyTable(own, columns);
            |body| == (if own == [] then 1 else |own|) && Rectangular(body, 3 + |wanted|) &&
            (own == [] ==> AllBlank(body[0])) && forall i :: 0 <= i < |own| ==> RowShown(body[i], own[i], wanted)
  {
    assert |columns| == 3 + |wanted|;
    forall i | 0 <= i < |own| ensures RowShown(BodyTable(own, columns)[i], own[i], wanted) {
      DataShown(own[i], columns, wanted);
    }
  }

  lemma TableShows(req: Request, rows: seq<FormattedRow>)
    ensures Shows(Table(req, rows), req, rows)
  {
    var wanted, own, table := Wanted(PARAMETERS, req.parameters), OwnRows(rows, req.deviceId), Table(req, rows);
    HeadShown(req);
    ColumnsAreWanted(req.parameters);
    OwnRowsAreFiltered(rows, req.deviceId);
    BodyShown(own, Columns(req.parameters), wanted);
    var head, body := HeadTable(req), BodyTable(own, Columns(req.parameters));
    assert table[..7] == head && table[7..] == body;
    assert forall i :: 0 <= i < |own| ==> table[7 + i] == body[i];
  }

  /** Of a device whose ID has no comma, quote or line feed, or without rows, a reader sees just that. */
  lemma ReportShows(req: Request, rows: seq<FormattedRow>) returns (table: seq<seq<string>>)
    requires OwnRows(rows, req.deviceId) == [] || forall c <- req.deviceId :: c != ',' && c != '"' && c != '\n'
    ensures Read(Join(Lines(req, rows), '\n')) == Some(table) && Shows(table, req, rows)
  {
    OwnRowsAreFiltered(rows, req.deviceId);
    CsvRoundTrip(req, rows);
    TableShows(req, rows);
    table := Table(req, rows);
  }
}
