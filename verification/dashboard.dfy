/**
 * The dashboard page's logic: the LED form turns two checkboxes into the JSON
 * command text for the actuator, and the page load turns the telemetry rows,
 * oldest first, into table rows, chart points and the "latest telemetry" panel,
 * normalising the LED columns for the chart (1, 0 or null) and for the cells
 * ("On", "Off" or blank).
 */
module Dashboard {
  import opened Wrappers
  import opened Strings

  /** A column as `pg_fetch_assoc` hands it over: SQL NULL, a text, or an integer. */
  datatype DbValue = Null | Text(s: string) | Int(n: int)

  /**
   * A row of `messages_temp_humidity_led`; `time` stands for the timestamp, in
   * the order the query sorts by.
   */
  datatype Row = Row(
    time: nat,
    sender: DbValue,
    recipient: DbValue,
    portnum: DbValue,
    temperature: DbValue,
    humidity: DbValue,
    led1: DbValue,
    led2: DbValue)

  /**
   * A chart point.  `Some(v)` for a reading stands for `(float) v`; `None` is
   * `null`.
   */
  datatype ChartPoint = ChartPoint(
    time: nat,
    temperature: Option<DbValue>,
    humidity: Option<DbValue>,
    led1: Option<int>,
    led2: Option<int>)

  /** The form submission: the request method (`REQUEST_METHOD`) and the names of the POST fields present. */
  datatype Request = Request(verb: string, post: set<string>)

  // ----- The LED form -----

  /** `json_encode(["led1" => b1, "led2" => b2])`. */
  function LedPacket(led1: bool, led2: bool): string
  {
    "{\"led1\":" + BoolText(led1) + ",\"led2\":" + BoolText(led2) + "}"
  }

  /**
   * The POST handler: a `send_leds` submission yields the command text, each LED
   * on exactly when its checkbox field was submitted; any other request sends
   * nothing.
   */
  function HandleLedForm(req: Request): (packet: Option<string>)
    ensures packet.Some? <==> req.verb == "POST" && "send_leds" in req.post
    ensures packet.Some? ==> packet.value == LedPacket("led1" in req.post, "led2" in req.post)
  {
    if req.verb == "POST" && "send_leds" in req.post then
      var led1 := "led1" in req.post;
      var led2 := "led2" in req.post;
      Some(LedPacket(led1, led2))
    else None
  }

  /** The command text starts with `{` and ends with `}`, and its two values sit right after the keys. */
  lemma LedPacketLayout(led1: bool, led2: bool)
    ensures var packet := LedPacket(led1, led2);
            && StartsWith(packet, "{") && EndsWith(packet, "}")
            && packet[..8] == "{\"led1\":"
            && packet[8..8 + |BoolText(led1)|] == BoolText(led1)
            && packet[8 + |BoolText(led1)|..16 + |BoolText(led1)|] == ",\"led2\":"
            && packet[16 + |BoolText(led1)|..|packet| - 1] == BoolText(led2)
  {
  }

  /** Different checkbox states give different command texts. */
  lemma LedPacketInjective(a1: bool, a2: bool, b1: bool, b2: bool)
    requires LedPacket(a1, a2) == LedPacket(b1, b2)
    ensures a1 == b1 && a2 == b2
  {
    var pa, pb := LedPacket(a1, a2), LedPacket(b1, b2);
    assert pa[8] == BoolText(a1)[0] && pb[8] == BoolText(b1)[0];
    LedPacketLayout(a1, a2);
    LedPacketLayout(b1, b2);
    assert pa[|pa| - 2] == BoolText(a2)[|BoolText(a2)| - 1];
    assert pb[|pb| - 2] == BoolText(b2)[|BoolText(b2)| - 1];
    assert |pa| == |pb|;
  }

  // ----- LED columns -----

  /** The chart's reading of an LED column: `null` for NULL, 1 for `'t'`, `'true'`, `'1'` or the integer 1, otherwise 0. */
  function ChartLed(v: DbValue): (r: Option<int>)
    ensures r.None? <==> v.Null?
    ensures r.Some? ==> r.value == 0 || r.value == 1
    ensures r == Some(1) <==> v in {Text("t"), Text("true"), Text("1"), Int(1)}
  {
    if v.Null? then None
    else if v == Text("t") || v == Text("true") || v == Int(1) || v == Text("1") then Some(1)
    else Some(0)
  }

  /** A table or "latest" cell for an LED column: `On` for `'t'`, `Off` for `'f'`, blank otherwise. */
  function LedCell(v: DbValue): (cell: string)
    ensures cell == "On" <==> v == Text("t")
    ensures cell == "Off" <==> v == Text("f")
    ensures cell == "" <==> v != Text("t") && v != Text("f")
  {
    if v == Text("t") then "On"
    else if v == Text("f") then "Off"
    else ""
  }

  /**
   * How a PostgreSQL boolean column reaches PHP: `pg_fetch_assoc` hands it over
   * as the text `'t'` or `'f'`.  This is the driver's behaviour, assumed here.
   */
  function PgBool(b: bool): DbValue
  {
    Text(if b then "t" else "f")
  }

  /** For a boolean column the chart and the cells agree: 1 and On, or 0 and Off. */
  lemma BoolColumnAgrees(b: bool)
    ensures ChartLed(PgBool(b)) == Some(if b then 1 else 0)
    ensures LedCell(PgBool(b)) == (if b then "On" else "Off")
  {
  }

  /** A cell that is not blank never contradicts the chart. */
  lemma CellMatchesChart(v: DbValue)
    ensures LedCell(v) == "On" ==> ChartLed(v) == Some(1)
    ensures LedCell(v) == "Off" ==> ChartLed(v) == Some(0)
  {
  }

  /** The values the chart counts as on although the cells leave them blank. */
  lemma OnInChartBlankInCell(v: DbValue)
    ensures ChartLed(v) == Some(1) && LedCell(v) == "" <==> v == Text("true") || v == Text("1") || v == Int(1)
  {
  }

  // ----- Page load -----

  /** The chart point of a row: time as is, readings null or cast, LED columns normalised. */
  function PointOf(row: Row): (point: ChartPoint)
    ensures point.time == row.time
    ensures point.temperature.None? <==> row.temperature.Null?
    ensures point.humidity.None? <==> row.humidity.Null?
    ensures point.led1.None? <==> row.led1.Null?
    ensures point.led2.None? <==> row.led2.Null?
    ensures !row.temperature.Null? ==> point.temperature == Some(row.temperature)
    ensures !row.humidity.Null? ==> point.humidity == Some(row.humidity)
    ensures point.led1 == ChartLed(row.led1) && point.led2 == ChartLed(row.led2)
  {
    ChartPoint(
      row.time,
      if row.temperature.Null? then None else Some(row.temperature),
      if row.humidity.Null? then None else Some(row.humidity),
      ChartLed(row.led1),
      ChartLed(row.led2))
  }

  /** The rows are in ascending time order, as `ORDER BY time ASC` delivers them. */
  predicate Ascending(rows: seq<Row>)
  {
    forall i, j :: 0 <= i < j < |rows| ==> rows[i].time <= rows[j].time
  }

  /**
   * The fetch loop: every row goes to the table, and its chart point to the
   * chart, in the order fetched; the latest row is the last one fetched, or
   * `null` when there was none; with rows in ascending time order it is the
   * row with the greatest time.
   */
  method LoadRows(result: seq<Row>) returns (tableRows: seq<Row>, chartData: seq<ChartPoint>, latestRow: Option<Row>)
    ensures tableRows == result
    ensures |chartData| == |tableRows|
    ensures forall i :: 0 <= i < |chartData| ==> chartData[i] == PointOf(tableRows[i])
    ensures latestRow.None? <==> result == []
    ensures latestRow.Some? ==> latestRow.value == result[|result| - 1]
    ensures Ascending(result) && latestRow.Some? ==>
              forall i :: 0 <= i < |tableRows| ==> tableRows[i].time <= latestRow.value.time
  {
    tableRows := [];
    chartData := [];
    latestRow := None;
    var k := 0;
    while k < |result|
      invariant 0 <= k <= |result|
      invariant tableRows == result[..k]
      invariant |chartData| == k
      invariant forall i :: 0 <= i < k ==> chartData[i] == PointOf(result[i])
      invariant latestRow == if k == 0 then None else Some(result[k - 1])
    {
      var row := result[k];
      tableRows := tableRows + [row];
      latestRow := Some(row);
      chartData := chartData + [PointOf(row)];
      k := k + 1;
    }
  }

  /** The LED cells of the table, row by row. */
  function TableLedCells(rows: seq<Row>): (cells: seq<(string, string)>)
    ensures |cells| == |rows|
    ensures forall i :: 0 <= i < |rows| ==> cells[i] == (LedCell(rows[i].led1), LedCell(rows[i].led2))
  {
    if rows == [] then [] else [(LedCell(rows[0].led1), LedCell(rows[0].led2))] + TableLedCells(rows[1..])
  }

  /** The LED cells of the "latest telemetry" panel, which is shown only when there is a latest row. */
  function LatestLedCells(latestRow: Option<Row>): (cells: Option<(string, string)>)
    ensures cells.None? <==> latestRow.None?
    ensures cells.Some? ==> cells.value == (LedCell(latestRow.value.led1), LedCell(latestRow.value.led2))
  {
    match latestRow
    case None => None
    case Some(row) => Some((LedCell(row.led1), LedCell(row.led2)))
  }

  /** The panel repeats the table's last line. */
  lemma LatestPanelIsLastTableLine(rows: seq<Row>, latestRow: Option<Row>)
    requires rows != [] && latestRow == Some(rows[|rows| - 1])
    ensures LatestLedCells(latestRow) == Some(TableLedCells(rows)[|rows| - 1])
  {
  }
}
