/** The interactive visualisation of one report card in script.js:
    `getFixationData` (the log file name, the CSV parse and the log cache)
    and `redrawAll` (the heat layer's points and the scanpath layer drawn on
    the card's canvas). The fetch, `parseFloat` and the canvas size are
    parameters; the canvas is modelled as what is drawn on it. */
module FixationView {
  import opened Strings
  import opened Markers
  import DataLoader
  import Visualizer
  import ReportBrowser

  /* ---------------------------------------------------------------------- */
  /* The log file of a report                                                */

  /** The log name the page derives from a report: block and participant
      left-padded with '0' to two characters. */
  function BrowserLogName(bloco: string, participante: string): string {
    PadStart(bloco, 2, '0') + "_kh0" + PadStart(participante, 2, '0') + "_fixations.csv"
  }

  const LogsUrl := "./eyetracker_logs/"

  /** For unsigned block and participant texts the page asks for the same
      file the Python loader opens for the zero-filled block. */
  lemma SameLogNameAsLoader(bloco: string, participante: string)
    requires Unsigned(bloco) && Unsigned(participante)
    ensures BrowserLogName(bloco, participante) == DataLoader.LogFileName(Zfill(bloco, 2), participante)
  {
    ZfillIsPadStart(bloco, 2);
    ZfillIsPadStart(participante, 2);
  }

  /** The two differ on a signed participant text shorter than two
      characters: padStart puts the zero before the sign, zfill after it. */
  lemma SignedParticipantDiffers(bloco: string)
    ensures BrowserLogName(bloco, "-") != DataLoader.LogFileName(Zfill(bloco, 2), "-")
  {
    ZfillIsPadStart(bloco, 2);
    var prefix := PadStart(bloco, 2, '0') + "_kh0";
    assert BrowserLogName(bloco, "-")[|prefix|] == '0';
    assert Zfill("-", 2)[0] == '-';
    assert DataLoader.LogFileName(Zfill(bloco, 2), "-")[|prefix|] == '-';
  }

  /* ---------------------------------------------------------------------- */
  /* CSV parsing                                                             */

  /** One parsed CSV record: header name to cell text. */
  type Row = map<string, string>

  function TrimEach(parts: seq<string>): (r: seq<string>)
    ensures |r| == |parts|
  {
    seq(|parts|, i requires 0 <= i < |parts| => Trim(parts[i]))
  }

  /** The trimmed names of the first line. */
  function Headers(text: string): seq<string> {
    TrimEach(Split(TrimmedLines(text)[0], ','))
  }

  /** `values[i] ? values[i].trim() : ''`: a missing or empty cell is ''. */
  function Cell(values: seq<string>, i: nat): string {
    if i < |values| && values[i] != "" then Trim(values[i]) else ""
  }

  /** The truthiness test only spares a trim: every cell is the trimmed
      value, or '' past the end of the line. */
  lemma CellIsTrimmedValue(values: seq<string>, i: nat)
    ensures Cell(values, i) == if i < |values| then Trim(values[i]) else ""
  {
    if i < |values| && values[i] == "" {
      assert TrimStart("") == "";
    }
  }

  /** Header i is not repeated later in the header line. */
  predicate LastOccurrence(headers: seq<string>, i: nat)
    requires i < |headers|
  {
    forall j :: i < j < |headers| ==> headers[j] != headers[i]
  }

  /** The object the `reduce` over the headers builds for one line: each
      header in turn sets its cell, so a repeated header keeps its last
      cell. */
  function RowObject(headers: seq<string>, values: seq<string>): Row {
    if headers == [] then map[]
    else RowObject(headers[..|headers| - 1], values)[headers[|headers| - 1] := Cell(values, |headers| - 1)]
  }

  /** The record has exactly the headers as keys. */
  lemma {:induction false} RowObjectKeys(headers: seq<string>, values: seq<string>)
    ensures RowObject(headers, values).Keys == set h | h in headers
  {
    if headers != [] {
      var n := |headers| - 1;
      RowObjectKeys(headers[..n], values);
      assert forall h :: h in headers <==> h in headers[..n] || h == headers[n];
    }
  }

  /** Under a header that is not repeated later, the record holds that
      header's own cell. */
  lemma {:induction false} RowObjectLastWins(headers: seq<string>, values: seq<string>, i: nat)
    requires i < |headers| && LastOccurrence(headers, i)
    ensures headers[i] in RowObject(headers, values)
    ensures RowObject(headers, values)[headers[i]] == Cell(values, i)
  {
    var n := |headers| - 1;
    if i < n {
      var init := headers[..n];
      assert init[i] == headers[i] && headers[n] != headers[i];
      assert LastOccurrence(init, i);
      RowObjectLastWins(init, values, i);
      assert RowObject(headers, values) == RowObject(init, values)[headers[n] := Cell(values, n)];
    }
  }

  /** The `reduce` callback run over the headers into one accumulator. */
  method ReduceRow(headers: seq<string>, values: seq<string>) returns (obj: Row)
    ensures obj == RowObject(headers, values)
  {
    obj := map[];
    for i := 0 to |headers|
      invariant obj == RowObject(headers[..i], values)
    {
      assert headers[..i + 1][..i] == headers[..i];
      obj := obj[headers[i] := if i < |values| && values[i] != "" then Trim(values[i]) else ""];
    }
    assert headers[..|headers|] == headers;
  }

  /** Every line after the header line, as a record. */
  function ParseCsv(text: string): (rows: seq<Row>)
    ensures |rows| == |TrimmedLines(text)| - 1
  {
    var lines := TrimmedLines(text);
    seq(|lines| - 1, k requires 0 <= k < |lines| - 1 => RowObject(Headers(text), Split(lines[k + 1], ',')))
  }

  /** The header line removed, then every line reduced into its record. */
  method ParseCsvText(text: string) returns (jsonData: seq<Row>)
    ensures jsonData == ParseCsv(text)
  {
    var all := TrimmedLines(text);
    var headers := TrimEach(Split(all[0], ','));
    var lines := all[1..];
    jsonData := [];
    for k := 0 to |lines|
      invariant |jsonData| == k
      invariant forall j :: 0 <= j < k ==> jsonData[j] == RowObject(headers, Split(lines[j], ','))
    {
      var values := Split(lines[k], ',');
      var obj := ReduceRow(headers, values);
      jsonData := jsonData + [obj];
    }
    assert jsonData == ParseCsv(text) by {
      assert headers == Headers(text);
      forall j | 0 <= j < |lines| ensures jsonData[j] == ParseCsv(text)[j] {
        assert lines[j] == all[j + 1];
      }
    }
  }

  /** A data line written as its cells joined by ',' (no cell holding a
      ',') gives, under each header not repeated later, that header's cell
      trimmed, or '' where the line has fewer cells than there are headers. */
  lemma LineRecord(headers: seq<string>, cells: seq<string>, i: nat)
    requires |cells| >= 1 && forall k :: 0 <= k < |cells| ==> ',' !in cells[k]
    requires i < |headers| && LastOccurrence(headers, i)
    ensures var obj := RowObject(headers, Split(Join(cells, ","), ','));
      && obj.Keys == set h | h in headers
      && headers[i] in obj
      && obj[headers[i]] == if i < |cells| then Trim(cells[i]) else ""
  {
    SplitOfJoin(cells, ',');
    RowObjectKeys(headers, cells);
    RowObjectLastWins(headers, cells, i);
    CellIsTrimmedValue(cells, i);
  }

  /* ---------------------------------------------------------------------- */
  /* The log cache                                                           */

  /** What a fetch of a log URL gives: a response that is not ok, the body
      of an ok response, or an exception. */
  datatype Fetched = NotOk | Body(text: string) | Threw

  predicate IsFor(row: Row, media: string) {
    "MEDIA_NAME" in row && row["MEDIA_NAME"] == media
  }

  /** `rows.filter(row => row.MEDIA_NAME === media)`. */
  function MatchingRows(rows: seq<Row>, media: string): (r: seq<Row>)
    ensures forall row :: row in r <==> row in rows && IsFor(row, media)
    ensures |r| <= |rows|
  {
    if rows == [] then []
    else
      var init := rows[..|rows| - 1];
      var last := rows[|rows| - 1];
      assert forall row :: row in rows <==> row in init || row == last;
      var rest := MatchingRows(init, media);
      if IsFor(last, media) then rest + [last] else rest
  }

  /** Filtering a concatenation filters each part and keeps their order. */
  lemma {:induction false} MatchingRowsAppend(a: seq<Row>, b: seq<Row>, media: string)
    ensures MatchingRows(a + b, media) == MatchingRows(a, media) + MatchingRows(b, media)
  {
    if b == [] {
      assert a + b == a;
    } else {
      assert (a + b)[..|a + b| - 1] == a + b[..|b| - 1];
      MatchingRowsAppend(a, b[..|b| - 1], media);
    }
  }

  lemma MatchingRowsSingle(x: Row, media: string)
    ensures MatchingRows([x], media) == if IsFor(x, media) then [x] else []
  {
    assert [x][..0] == [];
  }

  type Cache = map<string, seq<Row>>

  /** The cache step of one call for the log `name`, given what fetching
      it yields (None when the response is not ok or the fetch throws): a
      cached entry is used, even an empty one; a fetched log is stored; a
      failure stores nothing and gives no rows. */
  function CacheStep(cache: Cache, name: string, media: string, fetched: Option<seq<Row>>): (result: (Cache, seq<Row>))
    ensures forall key :: key in result.0 <==> key in cache || (key == name && fetched.Some?)
    ensures forall other :: other in cache ==> other in result.0 && result.0[other] == cache[other]
    ensures name !in cache && fetched.Some? ==> name in result.0 && result.0[name] == fetched.value
    ensures forall row :: row in result.1 ==> IsFor(row, media)
    ensures name in cache ==> result.1 == MatchingRows(cache[name], media)
  {
    if name in cache then (cache, MatchingRows(cache[name], media))
    else if fetched.Some? then (cache[name := fetched.value], MatchingRows(fetched.value, media))
    else (cache, [])
  }

  /** What fetching a log yields: its parsed rows, or None. */
  function Fetch(fetch: string -> Fetched, name: string): Option<seq<Row>> {
    match fetch(LogsUrl + name)
    case Body(text) => Some(ParseCsv(text))
    case _ => None
  }

  /** One `getFixationData` call: the cache after it and the rows it
      returns. The fetch is consulted only when the log is not cached. */
  function Lookup(cache: Cache, report: ReportBrowser.Report, fetch: string -> Fetched): (Cache, seq<Row>) {
    var name := BrowserLogName(report.bloco, report.participante);
    CacheStep(cache, name, report.mediaName, Fetch(fetch, name))
  }

  /** Once a log is cached, a later call for a report of the same block and
      participant fetches nothing, leaves the cache alone and filters the
      cached log by that report's image, whatever the network does. */
  lemma CachedLogServesLaterCalls(cache: Cache, first: ReportBrowser.Report, fetch: string -> Fetched,
                                  later: ReportBrowser.Report, refetch: string -> Fetched)
    requires later.bloco == first.bloco && later.participante == first.participante
    requires var name := BrowserLogName(first.bloco, first.participante);
      name in cache || fetch(LogsUrl + name).Body?
    ensures var after := Lookup(cache, first, fetch).0;
      var name := BrowserLogName(first.bloco, first.participante);
      && name in after
      && Lookup(after, later, refetch) == (after, MatchingRows(after[name], later.mediaName))
  {
  }

  /** Repeating a call for the same report gives the same rows once the
      first call has cached the log. */
  lemma RepeatIsStable(cache: Cache, report: ReportBrowser.Report, fetch: string -> Fetched, refetch: string -> Fetched)
    requires var name := BrowserLogName(report.bloco, report.participante);
      name in cache || fetch(LogsUrl + name).Body?
    ensures var first := Lookup(cache, report, fetch);
      Lookup(first.0, report, refetch) == first
  {
  }

  /** A failed fetch leaves no entry, so the next call tries the network
      again. */
  lemma FailureIsRetried(cache: Cache, report: ReportBrowser.Report, fetch: string -> Fetched)
    requires BrowserLogName(report.bloco, report.participante) !in cache
    requires !fetch(LogsUrl + BrowserLogName(report.bloco, report.participante)).Body?
    ensures Lookup(cache, report, fetch) == (cache, [])
  {
  }

  /** `allLogsCache`, keyed by log file name. */
  class LogCache {
    var entries: Cache

    constructor ()
      ensures entries == map[]
    {
      entries := map[];
    }

    /** `getFixationData`: the rows of the report's log for its image. */
    method GetFixationData(report: ReportBrowser.Report, fetch: string -> Fetched) returns (rows: seq<Row>)
      modifies this
      ensures (entries, rows) == Lookup(old(entries), report, fetch)
    {
      var logFileName := PadStart(report.bloco, 2, '0') + "_kh0" + PadStart(report.participante, 2, '0') + "_fixations.csv";
      if logFileName in entries {
        return MatchingRows(entries[logFileName], report.mediaName);
      }
      var response := fetch(LogsUrl + logFileName);
      if !response.Body? {
        return [];
      }
      var jsonData := ParseCsvText(response.text);
      entries := entries[logFileName := jsonData];
      rows := MatchingRows(jsonData, report.mediaName);
    }
  }

  /* ---------------------------------------------------------------------- */
  /* Drawing on the canvas                                                   */

  /** A canvas coordinate; None stands for NaN. */
  datatype Coord = Coord(x: Option<real>, y: Option<real>)

  /** `parseFloat(row[key])`; a missing key reads `undefined`, which parses
      to NaN. */
  function Number(row: Row, key: string, parseFloat: string -> Option<real>): Option<real> {
    if key in row then parseFloat(row[key]) else None
  }

  /** Scaling by the canvas size keeps NaN. */
  function Scale(v: Option<real>, size: nat): Option<real> {
    if v.Some? then Some(v.value * size as real) else None
  }

  function CoordOf(row: Row, parseFloat: string -> Option<real>, width: nat, height: nat): Coord {
    Coord(Scale(Number(row, "FPOGX", parseFloat), width), Scale(Number(row, "FPOGY", parseFloat), height))
  }

  function Coords(rows: seq<Row>, parseFloat: string -> Option<real>, width: nat, height: nat): (coords: seq<Coord>)
    ensures |coords| == |rows|
  {
    seq(|rows|, i requires 0 <= i < |rows| => CoordOf(rows[i], parseFloat, width, height))
  }

  /** One heat point `[x, y, value]`. */
  datatype HeatPoint = HeatPoint(x: real, y: real, value: nat)

  /** The heat data: the points with both coordinates numbers, weight 1, in
      fixation order. */
  function HeatData(coords: seq<Coord>): (heat: seq<HeatPoint>)
    ensures |heat| <= |coords|
    ensures forall p :: p in heat ==> p.value == 1 && Coord(Some(p.x), Some(p.y)) in coords
    ensures forall c :: c in coords && c.x.Some? && c.y.Some? ==> HeatPoint(c.x.value, c.y.value, 1) in heat
  {
    if coords == [] then []
    else
      var init := coords[..|coords| - 1];
      var c := coords[|coords| - 1];
      assert forall d :: d in coords <==> d in init || d == c;
      var rest := HeatData(init);
      if c.x.Some? && c.y.Some? then rest + [HeatPoint(c.x.value, c.y.value, 1)] else rest
  }

  /** The heat data of a concatenation is the heat data of each part, in
      order: one point per plottable fixation, none merged or reordered. */
  lemma {:induction false} HeatDataAppend(a: seq<Coord>, b: seq<Coord>)
    ensures HeatData(a + b) == HeatData(a) + HeatData(b)
  {
    if b == [] {
      assert a + b == a;
    } else {
      assert (a + b)[..|a + b| - 1] == a + b[..|b| - 1];
      HeatDataAppend(a, b[..|b| - 1]);
    }
  }

  /** One fixation gives one point of weight 1 when both its coordinates
      are numbers, and none otherwise. */
  lemma HeatDataSingle(c: Coord)
    ensures HeatData([c]) == if c.x.Some? && c.y.Some? then [HeatPoint(c.x.value, c.y.value, 1)] else []
  {
    assert [c][..0] == [];
  }

  /** The heat layer: its points and the intensity maximum, point radius and
      blur radius it is drawn with. */
  datatype HeatLayer = HeatLayer(points: seq<HeatPoint>, max: nat, radius: nat, blur: nat)

  const HeatMax: nat := 3
  const HeatRadius: nat := 30
  const HeatBlur: nat := 20

  const PathStroke := Rgba(0, 0, 255, 0.8)
  const PathWidth: nat := 2
  const CanvasRadius: nat := 8

  /** One filled circle with its centred white label. */
  datatype CanvasMarker = CanvasMarker(center: Coord, radius: nat, fill: Rgba, text: string, textFill: Rgba)

  /** The stroked path through the coordinates, then the markers. */
  datatype ScanpathLayer = ScanpathLayer(path: seq<Coord>, stroke: Rgba, width: nat, markers: seq<CanvasMarker>)

  function CanvasMarkerFor(coords: seq<Coord>, i: nat): CanvasMarker
    requires i < |coords|
  {
    CanvasMarker(coords[i], CanvasRadius, RoleColor(RoleOf(i, |coords|)), NatToString(i + 1), White)
  }

  /** The scanpath layer for the coordinates; nothing for none. */
  function ScanpathFor(coords: seq<Coord>): Option<ScanpathLayer> {
    if coords == [] then None
    else Some(ScanpathLayer(coords, PathStroke, PathWidth,
                            seq(|coords|, i requires 0 <= i < |coords| => CanvasMarkerFor(coords, i))))
  }

  /** The scanpath drawing: the path from the first coordinate through the
      rest, then each marker with the first/last/other fill rule. */
  method DrawScanpath(coords: seq<Coord>) returns (layer: Option<ScanpathLayer>)
    ensures layer == ScanpathFor(coords)
  {
    if |coords| == 0 {
      return None;
    }
    var path := [coords[0]] + coords[1..];
    var markers: seq<CanvasMarker> := [];
    for i := 0 to |coords|
      invariant |markers| == i
      invariant forall j :: 0 <= j < i ==> markers[j] == CanvasMarkerFor(coords, j)
    {
      var fillStyle;
      if i == 0 {
        fillStyle := Green;
      } else if i == |coords| - 1 {
        fillStyle := Red;
      } else {
        fillStyle := Blue;
      }
      markers := markers + [CanvasMarker(coords[i], CanvasRadius, fillStyle, NatToString(i + 1), White)];
    }
    assert path == coords;
    assert markers == ScanpathFor(coords).value.markers;
    layer := Some(ScanpathLayer(path, PathStroke, PathWidth, markers));
  }

  /** What the card's canvas shows. */
  datatype Canvas = Canvas(width: nat, height: nat, heat: Option<HeatLayer>, scanpath: Option<ScanpathLayer>)

  /** The canvas redrawn at the container's size with the checked layers. */
  function Redrawn(fixations: seq<Row>, parseFloat: string -> Option<real>, width: nat, height: nat,
                   showHeatmap: bool, showScanpath: bool): Canvas
  {
    var coords := Coords(fixations, parseFloat, width, height);
    Canvas(width, height,
           if showHeatmap then Some(HeatLayer(HeatData(coords), HeatMax, HeatRadius, HeatBlur)) else None,
           if showScanpath then ScanpathFor(coords) else None)
  }

  /** `redrawAll`: a container without area leaves the canvas as it is;
      otherwise the canvas takes the container's size, is cleared, and the
      checked layers are drawn, the heat layer first. */
  method RedrawAll(fixations: seq<Row>, parseFloat: string -> Option<real>, clientWidth: int, clientHeight: int,
                   showHeatmap: bool, showScanpath: bool, canvas: Canvas)
    returns (next: Canvas)
    ensures clientWidth <= 0 || clientHeight <= 0 ==> next == canvas
    ensures clientWidth > 0 && clientHeight > 0 ==>
      next == Redrawn(fixations, parseFloat, clientWidth, clientHeight, showHeatmap, showScanpath)
  {
    if clientWidth <= 0 || clientHeight <= 0 {
      return canvas;
    }
    next := Canvas(clientWidth, clientHeight, None, None);
    if showHeatmap {
      var heatData := HeatData(Coords(fixations, parseFloat, next.width, next.height));
      next := next.(heat := Some(HeatLayer(heatData, HeatMax, HeatRadius, HeatBlur)));
    }
    if showScanpath {
      var coords := Coords(fixations, parseFloat, next.width, next.height);
      var layer := DrawScanpath(coords);
      next := next.(scanpath := layer);
    }
  }

  /* ---------------------------------------------------------------------- */
  /* Properties of the drawing                                               */

  /** The heat layer drops every fixation with a NaN coordinate, while the
      scanpath issues one marker call per fixation, NaN ones included: the
      canvas ignores a call with a NaN centre, so nothing is drawn there, but
      the numbers of the later markers still count it. */
  lemma LayersTreatNaNDifferently(fixations: seq<Row>, parseFloat: string -> Option<real>,
                                  width: nat, height: nat)
    requires |fixations| > 0
    ensures var c := Redrawn(fixations, parseFloat, width, height, true, true);
      && c.heat.Some? && c.scanpath.Some?
      && |c.heat.value.points| <= |fixations|
      && |c.scanpath.value.markers| == |fixations|
      && (forall i :: 0 <= i < |fixations| && (Number(fixations[i], "FPOGX", parseFloat).None? ||
                                              Number(fixations[i], "FPOGY", parseFloat).None?) ==>
            c.scanpath.value.markers[i].center.x.None? || c.scanpath.value.markers[i].center.y.None?)
      && (forall p :: p in c.heat.value.points ==> Coord(Some(p.x), Some(p.y)) in c.scanpath.value.path)
  {
  }

  /** Unchecking a layer removes exactly that layer. */
  lemma LayersAreIndependent(fixations: seq<Row>, parseFloat: string -> Option<real>, width: nat, height: nat,
                             showHeatmap: bool, showScanpath: bool)
    ensures var c := Redrawn(fixations, parseFloat, width, height, showHeatmap, showScanpath);
      var both := Redrawn(fixations, parseFloat, width, height, true, true);
      && (c.heat.Some? <==> showHeatmap)
      && (c.scanpath.Some? <==> showScanpath && |fixations| > 0)
      && (showHeatmap ==> c.heat == both.heat)
      && (showScanpath ==> c.scanpath == both.scanpath)
  {
  }

  /** The canvas and the PIL renderer agree: for the same fixations at the
      same size, marker i sits on the same point, has the same fill and the
      same label in both. */
  lemma SameMarkersAsVisualizer(fixations: seq<Row>, parseFloat: string -> Option<real>,
                                rows: seq<Visualizer.FixationRow>, image: Visualizer.BaseImage,
                                radius: nat, textBox: string -> Visualizer.Box)
    requires |rows| == |fixations| > 0
    requires forall i :: 0 <= i < |rows| ==>
      Number(fixations[i], "FPOGX", parseFloat) == Some(rows[i].fpogx) &&
      Number(fixations[i], "FPOGY", parseFloat) == Some(rows[i].fpogy)
    ensures var layer := ScanpathFor(Coords(fixations, parseFloat, image.width, image.height)).value;
      var drawing := Visualizer.ScanpathDrawing(rows, image, radius, textBox);
      forall i :: 0 <= i < |rows| ==>
        var p := Visualizer.ToPixel(rows[i], image.width, image.height);
        && layer.markers[i].center == Coord(Some(p.x), Some(p.y))
        && layer.markers[i].fill == drawing.markers[i].fill
        && layer.markers[i].text == drawing.markers[i].text
  {
    var coords := Coords(fixations, parseFloat, image.width, image.height);
    var points := Visualizer.PixelPoints(rows, image.width, image.height);
    forall i | 0 <= i < |rows|
      ensures var p := Visualizer.ToPixel(rows[i], image.width, image.height);
        && ScanpathFor(coords).value.markers[i].center == Coord(Some(p.x), Some(p.y))
        && ScanpathFor(coords).value.markers[i].fill == Visualizer.ScanpathDrawing(rows, image, radius, textBox).markers[i].fill
        && ScanpathFor(coords).value.markers[i].text == Visualizer.ScanpathDrawing(rows, image, radius, textBox).markers[i].text
    {
      assert ScanpathFor(coords).value.markers[i] == CanvasMarkerFor(coords, i);
      assert Visualizer.ScanpathDrawing(rows, image, radius, textBox).markers[i] == Visualizer.MarkerFor(points, i, radius, textBox);
      assert coords[i] == CoordOf(fixations[i], parseFloat, image.width, image.height);
      var p := Visualizer.ToPixel(rows[i], image.width, image.height);
      assert p.x == rows[i].fpogx * image.width as real && p.y == rows[i].fpogy * image.height as real;
      assert coords[i].x == Scale(Some(rows[i].fpogx), image.width);
      assert coords[i].y == Scale(Some(rows[i].fpogy), image.height);
      assert coords[i].x.value == p.x && coords[i].y.value == p.y;
    }
  }
}
