/** The scanpath renderer of eyetracking_analyzer/visualizer.py (`gerar_scanpath`).
    The drawing is modelled as what is drawn, not as pixels: an optional
    polyline through the fixation points and one marker record per fixation
    (its ellipse box, fill, outline, label and text anchor). The base image is
    reduced to its size; loading, font lookup, text measurement and saving are
    parameters. */
module Visualizer {
  import opened Strings
  import opened Markers

  /** One row of the fixation table: normalised gaze position. */
  datatype FixationRow = FixationRow(fpogx: real, fpogy: real)

  datatype Point = Point(x: real, y: real)

  /** An axis-aligned box [left, top, right, bottom], as PIL writes it. */
  datatype Box = Box(left: real, top: real, right: real, bottom: real)

  datatype Polyline = Polyline(points: seq<Point>, fill: Rgba, width: nat)

  datatype Marker = Marker(
    ellipse: Box, fill: Rgba, outline: Rgba, outlineWidth: nat,
    text: string, textAt: Point, textFill: Rgba)

  datatype Drawing = Drawing(line: Option<Polyline>, markers: seq<Marker>)

  datatype BaseImage = BaseImage(width: nat, height: nat)

  /** A saved artefact (same size as the base image) or the caught exception. */
  datatype Outcome = Saved(path: string, width: nat, height: nat, drawing: Drawing) | Failed

  const DefaultRadius: nat := 15
  const LineColor := Rgba(66, 135, 245, 200.0 / 255.0)
  const LineWidth: nat := 3
  const OutlineWidth: nat := 2

  /** A normalised fixation scaled to the image's pixel grid. */
  function ToPixel(row: FixationRow, width: nat, height: nat): Point {
    Point(row.fpogx * width as real, row.fpogy * height as real)
  }

  function PixelPoints(rows: seq<FixationRow>, width: nat, height: nat): seq<Point> {
    seq(|rows|, i requires 0 <= i < |rows| => ToPixel(rows[i], width, height))
  }

  /** The marker drawn for point i: a circle of the given radius around the
      point, its ordinal i + 1 as label, the label's measured box centred on
      the point. `textBox` is PIL's `textbbox((0, 0), text, font)`. */
  function MarkerFor(points: seq<Point>, i: nat, radius: nat, textBox: string -> Box): Marker
    requires i < |points|
  {
    var p := points[i];
    var r := radius as real;
    var ordinal := NatToString(i + 1);
    var tb := textBox(ordinal);
    var tw := tb.right - tb.left;
    var th := tb.bottom - tb.top;
    Marker(Box(p.x - r, p.y - r, p.x + r, p.y + r), RoleColor(RoleOf(i, |points|)),
           White, OutlineWidth, ordinal, Point(p.x - tw / 2.0, p.y - th / 2.0), White)
  }

  /** What `gerar_scanpath` draws on an image of the given size. */
  function ScanpathDrawing(rows: seq<FixationRow>, image: BaseImage, radius: nat, textBox: string -> Box): Drawing {
    var points := PixelPoints(rows, image.width, image.height);
    Drawing(
      if |points| > 1 then Some(Polyline(points, LineColor, LineWidth)) else None,
      seq(|points|, i requires 0 <= i < |points| => MarkerFor(points, i, radius, textBox)))
  }

  /** `gerar_scanpath`: `image` is None when the base image cannot be opened,
      `hasCoordinates` says whether the table has the FPOGX and FPOGY columns
      (reading them from the first row raises otherwise), `saveSucceeds` says
      whether writing the output file works. Every failure is caught and
      reported, never raised, and nothing is saved. An empty fixation table
      is not rejected: its columns are never read and the unchanged image is
      saved. */
  method GerarScanpath(rows: seq<FixationRow>, hasCoordinates: bool, image: Option<BaseImage>, outputPath: string,
                       radius: nat, textBox: string -> Box, saveSucceeds: bool)
    returns (outcome: Outcome)
    ensures image.None? || (|rows| > 0 && !hasCoordinates) || !saveSucceeds ==> outcome == Failed
    ensures image.Some? && (|rows| == 0 || hasCoordinates) && saveSucceeds ==>
      outcome == Saved(outputPath, image.value.width, image.value.height,
                       ScanpathDrawing(rows, image.value, radius, textBox))
  {
    if image.None? {
      return Failed;
    }
    var width, height := image.value.width, image.value.height;
    if |rows| > 0 && !hasCoordinates {
      return Failed;
    }

    var fixations: seq<Point> := [];
    for k := 0 to |rows|
      invariant |fixations| == k
      invariant forall j :: 0 <= j < k ==> fixations[j] == ToPixel(rows[j], width, height)
    {
      fixations := fixations + [Point(rows[k].fpogx * width as real, rows[k].fpogy * height as real)];
    }

    var line: Option<Polyline> := None;
    if |fixations| > 1 {
      line := Some(Polyline(fixations, LineColor, LineWidth));
    }

    var markers: seq<Marker> := [];
    var r := radius as real;
    for i := 0 to |fixations|
      invariant |markers| == i
      invariant forall j :: 0 <= j < i ==> markers[j] == MarkerFor(fixations, j, radius, textBox)
    {
      var (x, y) := (fixations[i].x, fixations[i].y);
      var color;
      if i == 0 {
        color := Green;
      } else if i == |fixations| - 1 {
        color := Red;
      } else {
        color := Blue;
      }
      var bbox := Box(x - r, y - r, x + r, y + r);
      var text := NatToString(i + 1);
      var textBbox := textBox(text);
      var textWidth := textBbox.right - textBbox.left;
      var textHeight := textBbox.bottom - textBbox.top;
      markers := markers + [Marker(bbox, color, White, OutlineWidth, text,
                                   Point(x - textWidth / 2.0, y - textHeight / 2.0), White)];
    }

    if !saveSucceeds {
      return Failed;
    }
    assert fixations == PixelPoints(rows, width, height);
    outcome := Saved(outputPath, width, height, Drawing(line, markers));
  }

  /* ---------------------------------------------------------------------- */
  /* Properties of the drawing                                               */

  /** A fixation inside the unit square lands inside the image. */
  lemma PixelInImage(row: FixationRow, width: nat, height: nat)
    requires 0.0 <= row.fpogx <= 1.0 && 0.0 <= row.fpogy <= 1.0
    ensures 0.0 <= ToPixel(row, width, height).x <= width as real
    ensures 0.0 <= ToPixel(row, width, height).y <= height as real
  {
    var w, h := width as real, height as real;
    assert ToPixel(row, width, height) == Point(row.fpogx * w, row.fpogy * h);
    assert 1.0 * w == w && 1.0 * h == h;
    assert row.fpogx * w <= 1.0 * w by { MulMono(row.fpogx, 1.0, w); }
    assert row.fpogy * h <= 1.0 * h by { MulMono(row.fpogy, 1.0, h); }
  }

  lemma MulMono(a: real, b: real, c: real)
    requires a <= b && c >= 0.0
    ensures a * c <= b * c
  {
  }

  /** One point per row, in row order; the polyline exists exactly when there
      are at least two points, and then passes through all of them in order. */
  lemma DrawingFollowsRows(rows: seq<FixationRow>, image: BaseImage, radius: nat, textBox: string -> Box)
    ensures var d := ScanpathDrawing(rows, image, radius, textBox);
      && |d.markers| == |rows|
      && (d.line.Some? <==> |rows| > 1)
      && (d.line.Some? ==> |d.line.value.points| == |rows|)
      && (d.line.Some? ==> forall i :: 0 <= i < |rows| ==>
            d.line.value.points[i] == Point(rows[i].fpogx * image.width as real, rows[i].fpogy * image.height as real))
      && (d.line.Some? ==> d.line.value.fill == LineColor && d.line.value.width == 3)
  {
  }

  /** An empty table draws nothing. */
  lemma EmptyDrawsNothing(image: BaseImage, radius: nat, textBox: string -> Box)
    ensures ScanpathDrawing([], image, radius, textBox) == Drawing(None, [])
  {
  }

  /** Fill colours: the first marker green (also when it is the only one),
      the last of two or more red, all others blue. */
  lemma MarkerColours(rows: seq<FixationRow>, image: BaseImage, radius: nat, textBox: string -> Box)
    ensures var m := ScanpathDrawing(rows, image, radius, textBox).markers;
      && (|m| >= 1 ==> m[0].fill == Green)
      && (|m| >= 2 ==> m[|m| - 1].fill == Red)
      && (forall i :: 0 < i < |m| - 1 ==> m[i].fill == Blue)
  {
  }

  /** Each marker's ellipse is the 2r-wide square centred on its point, with a
      white outline of width 2, and its label's measured box is centred on
      the same point. */
  lemma MarkerGeometry(rows: seq<FixationRow>, image: BaseImage, radius: nat, textBox: string -> Box, i: nat)
    requires i < |rows|
    ensures var m := ScanpathDrawing(rows, image, radius, textBox).markers[i];
      var p := ToPixel(rows[i], image.width, image.height);
      var tb := textBox(m.text);
      && (m.ellipse.left + m.ellipse.right) / 2.0 == p.x
      && (m.ellipse.top + m.ellipse.bottom) / 2.0 == p.y
      && m.ellipse.right - m.ellipse.left == 2.0 * radius as real
      && m.ellipse.bottom - m.ellipse.top == 2.0 * radius as real
      && m.outline == White && m.outlineWidth == 2
      && m.textAt.x + (tb.right - tb.left) / 2.0 == p.x
      && m.textAt.y + (tb.bottom - tb.top) / 2.0 == p.y
  {
  }

  /** The labels are the ordinals "1" .. "n": label i reads back as i + 1, and
      no two markers share a label. */
  lemma LabelsAreOrdinals(rows: seq<FixationRow>, image: BaseImage, radius: nat, textBox: string -> Box)
    ensures var m := ScanpathDrawing(rows, image, radius, textBox).markers;
      && (forall i :: 0 <= i < |m| ==> AllDigits(m[i].text) && ParseNat(m[i].text) == i + 1)
      && (forall i, j :: 0 <= i < j < |m| ==> m[i].text != m[j].text)
  {
    var m := ScanpathDrawing(rows, image, radius, textBox).markers;
    forall i | 0 <= i < |m|
      ensures AllDigits(m[i].text) && ParseNat(m[i].text) == i + 1
    {
      ParseNatToString(i + 1);
    }
    forall i, j | 0 <= i < j < |m|
      ensures m[i].text != m[j].text
    {
      NatToStringInjective(i + 1, j + 1);
    }
  }

  /** Three fixations at (0.1, 0.1), (0.5, 0.5), (0.9, 0.9) on a 1000 x 1000
      image: markers at (100, 100), (500, 500), (900, 900), labelled "1", "2",
      "3", coloured start, interior, end, joined by one polyline. */
  lemma ThreeFixationScenario(textBox: string -> Box)
    ensures var rows := [FixationRow(0.1, 0.1), FixationRow(0.5, 0.5), FixationRow(0.9, 0.9)];
      var d := ScanpathDrawing(rows, BaseImage(1000, 1000), DefaultRadius, textBox);
      && d.line == Some(Polyline([Point(100.0, 100.0), Point(500.0, 500.0), Point(900.0, 900.0)], LineColor, 3))
      && |d.markers| == 3
      && d.markers[0].ellipse == Box(85.0, 85.0, 115.0, 115.0) && d.markers[0].fill == Green && d.markers[0].text == "1"
      && d.markers[1].ellipse == Box(485.0, 485.0, 515.0, 515.0) && d.markers[1].fill == Blue && d.markers[1].text == "2"
      && d.markers[2].ellipse == Box(885.0, 885.0, 915.0, 915.0) && d.markers[2].fill == Red && d.markers[2].text == "3"
  {
    var rows := [FixationRow(0.1, 0.1), FixationRow(0.5, 0.5), FixationRow(0.9, 0.9)];
    var points := PixelPoints(rows, 1000, 1000);
    assert points == [Point(100.0, 100.0), Point(500.0, 500.0), Point(900.0, 900.0)];
    assert NatToString(1) == "1" && NatToString(2) == "2" && NatToString(3) == "3";
  }
}
