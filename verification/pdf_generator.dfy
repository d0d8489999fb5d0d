/** The composite gallery and the file naming of
    eyetracking_analyzer/pdf_generator.py. `criar_imagem_composta` lays titled
    thumbnails on a white canvas in a three-column grid with a cursor that
    moves right and wraps every third item; `criar_relatorio_pdf` names the
    temporary gallery image and the final PDF. Pixels are not modelled: the
    composite is the list of cells that were drawn and pasted. */
module PdfGenerator {
  import opened Strings

  const Padding: int := 40
  const Spacing: int := 30
  const TitleHeight: int := 40
  const ThumbWidth: int := 800
  const ThumbHeight: int := 600
  const Cols: int := 3

  /** Horizontal and vertical advance of the cursor between grid cells. */
  const StepX: int := ThumbWidth + Spacing
  const StepY: int := ThumbHeight + TitleHeight + Spacing

  datatype Size = Size(width: nat, height: nat)

  /** PIL's `thumbnail((800, 600))` shrinks an image, keeping its aspect
      ratio, until it fits in 800 x 600; it never enlarges. */
  type ThumbSize = s: Size | s.width <= 800 && s.height <= 600 witness Size(0, 0)

  /** Result of opening one gallery image: its thumbnail, a missing file, or
      any other failure (which aborts the whole composite). */
  datatype Opened = Thumbnail(size: ThumbSize) | NotFound | Unreadable

  /** What is pasted in a cell: the thumbnail, or an 800 x 600 grey
      placeholder captioned with the missing file's name. */
  datatype Pasted = Thumb(size: ThumbSize) | Placeholder(caption: string)

  /** One grid cell: the title drawn at (x, y), the image pasted below it. */
  datatype Cell = Cell(title: string, x: int, y: int, image: Pasted, imageX: int, imageY: int)

  datatype Composite = Composite(width: int, height: int, cells: seq<Cell>)

  /** Gallery entries are (title, path) pairs. */
  datatype Entry = Entry(title: string, path: string)

  /* ---------------------------------------------------------------------- */
  /* Canvas size                                                             */

  /** `(num_images + COLS - 1) // COLS`: the number of grid rows. */
  function GridRows(n: nat): (rows: nat)
    ensures Cols * rows >= n
    ensures rows > 0 ==> Cols * (rows - 1) < n
    ensures rows == 0 <==> n == 0
  {
    (n + Cols - 1) / Cols
  }

  function CanvasWidth(): int {
    ThumbWidth * Cols + Spacing * (Cols - 1) + Padding * 2
  }

  function CanvasHeight(n: nat): int {
    var rows := GridRows(n);
    ThumbHeight * rows + TitleHeight * rows + Spacing * (rows - 1) + Padding * 2
  }

  /** Where the cursor stands for item i. */
  function CellX(i: nat): int { Padding + (i % Cols) * StepX }
  function CellY(i: nat): int { Padding + (i / Cols) * StepY }

  /** The width does not depend on the number of images; with no images the
      height formula gives 50 (one spacing short of two paddings). */
  lemma CanvasConstants()
    ensures CanvasWidth() == 2540
    ensures CanvasHeight(0) == 50
    ensures forall n: nat :: n > 0 ==> CanvasHeight(n) == 670 * GridRows(n) + 50
  {
  }

  /** The canvas is exactly wide enough for three cells and high enough for
      the last row, with the padding on every side. */
  lemma CanvasFitsGrid(n: nat)
    requires n > 0
    ensures CanvasWidth() == CellX(2) + ThumbWidth + Padding
    ensures CanvasHeight(n) == CellY(n - 1) + TitleHeight + ThumbHeight + Padding
  {
    var rows := GridRows(n);
    assert (n - 1) / Cols == rows - 1 by { DivBounds(n - 1, rows - 1); }
  }

  lemma DivBounds(k: nat, q: nat)
    requires Cols * q <= k < Cols * (q + 1)
    ensures k / Cols == q
  {
  }

  /* ---------------------------------------------------------------------- */
  /* The grid                                                                */

  function PastedFor(entry: Entry, loaded: Opened): Pasted
    requires !loaded.Unreadable?
  {
    if loaded.Thumbnail? then Thumb(loaded.size)
    else Placeholder("Imagem não encontrada:\n" + Basename(entry.path))
  }

  function CellAt(entries: seq<Entry>, open: string -> Opened, i: nat): Cell
    requires i < |entries| && !open(entries[i].path).Unreadable?
  {
    Cell(entries[i].title, CellX(i), CellY(i),
         PastedFor(entries[i], open(entries[i].path)), CellX(i), CellY(i) + TitleHeight)
  }

  predicate AllOpenable(entries: seq<Entry>, open: string -> Opened) {
    forall i :: 0 <= i < |entries| ==> !open(entries[i].path).Unreadable?
  }

  function Layout(entries: seq<Entry>, open: string -> Opened): Composite
    requires AllOpenable(entries, open)
  {
    Composite(CanvasWidth(), CanvasHeight(|entries|),
              seq(|entries|, i requires 0 <= i < |entries| => CellAt(entries, open, i)))
  }

  lemma CursorStep(i: nat)
    ensures (i + 1) % Cols == 0 ==> (i + 1) / Cols == i / Cols + 1 && i % Cols == Cols - 1
    ensures (i + 1) % Cols != 0 ==> (i + 1) / Cols == i / Cols && (i + 1) % Cols == i % Cols + 1
  {
    var q, r := i / Cols, i % Cols;
    assert i == Cols * q + r;
    if r == Cols - 1 {
      DivBounds(i + 1, q + 1);
    } else {
      DivBounds(i + 1, q);
    }
  }

  /** `criar_imagem_composta`: returns True with the composite when every
      image loaded (a missing file becomes a placeholder) and the save
      worked; any other exception makes it return False. */
  method CriarImagemComposta(entries: seq<Entry>, open: string -> Opened, saveSucceeds: bool)
    returns (ok: bool, image: Composite)
    ensures ok <==> AllOpenable(entries, open) && saveSucceeds
    ensures ok ==> image == Layout(entries, open)
  {
    var totalWidth := CanvasWidth();
    var totalHeight := CanvasHeight(|entries|);
    var cells: seq<Cell> := [];
    var x, y := Padding, Padding;
    for i := 0 to |entries|
      invariant x == CellX(i) && y == CellY(i)
      invariant AllOpenable(entries[..i], open)
      invariant |cells| == i
      invariant forall j :: 0 <= j < i ==> !open(entries[j].path).Unreadable? && cells[j] == CellAt(entries, open, j)
    {
      var loaded := open(entries[i].path);
      if loaded.Unreadable? {
        assert !AllOpenable(entries, open);
        return false, Composite(totalWidth, totalHeight, cells);
      }
      var img := if loaded.Thumbnail? then Thumb(loaded.size)
                 else Placeholder("Imagem não encontrada:\n" + Basename(entries[i].path));
      cells := cells + [Cell(entries[i].title, x, y, img, x, y + TitleHeight)];
      CursorStep(i);
      if (i + 1) % Cols == 0 {
        x := Padding;
        y := y + ThumbHeight + TitleHeight + Spacing;
      } else {
        x := x + ThumbWidth + Spacing;
      }
    }
    assert entries[..|entries|] == entries;
    image := Composite(totalWidth, totalHeight, cells);
    ok := saveSucceeds;
  }

  /* ---------------------------------------------------------------------- */
  /* Containment and non-overlap                                             */

  /** Every title strip and the 800 x 600 area below it lie inside the
      canvas, at least one padding away from each border. */
  lemma CellInsideCanvas(n: nat, i: nat)
    requires i < n
    ensures Padding <= CellX(i) && CellX(i) + ThumbWidth + Padding <= CanvasWidth()
    ensures Padding <= CellY(i) && CellY(i) + TitleHeight + ThumbHeight + Padding <= CanvasHeight(n)
  {
    var rows := GridRows(n);
    assert i / Cols <= rows - 1;
    assert (i / Cols) * StepY <= (rows - 1) * StepY;
  }

  /** Distinct items get disjoint cells: neither their title strips nor their
      800 x 600 image areas overlap. */
  lemma CellsDisjoint(i: nat, j: nat)
    requires i != j
    ensures CellX(i) + ThumbWidth <= CellX(j) || CellX(j) + ThumbWidth <= CellX(i) ||
            CellY(i) + TitleHeight + ThumbHeight <= CellY(j) || CellY(j) + TitleHeight + ThumbHeight <= CellY(i)
  {
    if i / Cols == j / Cols {
      assert i % Cols != j % Cols by {
        assert i == Cols * (i / Cols) + i % Cols;
        assert j == Cols * (j / Cols) + j % Cols;
      }
    } else if i / Cols < j / Cols {
      assert (i / Cols) * StepY + StepY <= (j / Cols) * StepY;
    } else {
      assert (j / Cols) * StepY + StepY <= (i / Cols) * StepY;
    }
  }

  /** What is pasted fits the cell's image area: a thumbnail is at most
      800 x 600, the placeholder exactly that. */
  lemma PastedFitsCell(entries: seq<Entry>, open: string -> Opened, i: nat)
    requires i < |entries| && AllOpenable(entries, open)
    ensures var c := Layout(entries, open).cells[i];
      && c.imageX == c.x && c.imageY == c.y + TitleHeight
      && (c.image.Thumb? ==> c.image.size.width <= ThumbWidth && c.image.size.height <= ThumbHeight)
      && (c.image.Placeholder? <==> open(entries[i].path).NotFound?)
  {
  }

  /* ---------------------------------------------------------------------- */
  /* The report                                                              */

  /** The record handed over by the data loader, reduced to what the report
      uses; `categoria` is None for an empty (NaN) catalogue cell. */
  datatype AnalysisData = AnalysisData(
    participante: string, mediaName: string, categoria: Option<string>,
    imagePath: string, heatmapPath: string, overlayHeatmapPath: string,
    scanpathPath: string, fixmapPath: string)

  /** The five gallery images, in fixed order. */
  function GalleryEntries(d: AnalysisData): (entries: seq<Entry>)
    ensures |entries| == 5
    ensures [entries[0].path, entries[1].path, entries[2].path, entries[3].path, entries[4].path]
         == [d.imagePath, d.heatmapPath, d.overlayHeatmapPath, d.scanpathPath, d.fixmapPath]
  {
    [Entry("Imagem Base", d.imagePath),
     Entry("Heatmap (7s)", d.heatmapPath),
     Entry("Overlay Heatmap (7s)", d.overlayHeatmapPath),
     Entry("Scanpath (7s)", d.scanpathPath),
     Entry("Mapa de Fixação (7s)", d.fixmapPath)]
  }

  /** `temp_<media with every '.' as '_'>_P<participant>`. */
  function TempBaseName(d: AnalysisData): string {
    "temp_" + ReplaceAll(d.mediaName, ".", "_") + "_P" + d.participante
  }

  /** `Relatorio_Final_<temp name with every "temp_" removed>.pdf`. */
  function PdfFileName(d: AnalysisData): string {
    "Relatorio_Final_" + ReplaceAll(TempBaseName(d), "temp_", "") + ".pdf"
  }

  /** The temporary name has no '.' from the media name left in it. */
  lemma TempBaseNameHasNoDot(d: AnalysisData)
    requires '.' !in d.participante
    ensures '.' !in TempBaseName(d)
  {
    ReplaceCharAll(d.mediaName, '.', '_');
  }

  /** The PDF name drops the leading "temp_" and any other "temp_" in the
      rest; when the rest has none, it is exactly the rest. */
  lemma PdfFileNameFromTempName(d: AnalysisData)
    ensures var rest := ReplaceAll(d.mediaName, ".", "_") + "_P" + d.participante;
      && PdfFileName(d) == "Relatorio_Final_" + ReplaceAll(rest, "temp_", "") + ".pdf"
      && (!IsSubstring("temp_", rest) ==> PdfFileName(d) == "Relatorio_Final_" + rest + ".pdf")
  {
    var rest := ReplaceAll(d.mediaName, ".", "_") + "_P" + d.participante;
    var stripped := ReplaceAll(rest, "temp_", "");
    assert ReplaceAll(TempBaseName(d), "temp_", "") == stripped by {
      assert TempBaseName(d) == "temp_" + rest;
      ReplaceAllLeading("temp_", rest, "");
      assert "" + stripped == stripped;
    }
    if !IsSubstring("temp_", rest) {
      ReplaceAllAbsent(rest, "temp_", "");
    }
  }

  /** `encode('latin-1', 'replace').decode('latin-1')`: every character
      outside Latin-1 becomes '?'. */
  function Latin1Safe(s: string): (r: string)
    ensures |r| == |s|
    ensures forall i :: 0 <= i < |r| ==> r[i] as int <= 255
    ensures forall i :: 0 <= i < |s| && s[i] as int <= 255 ==> r[i] == s[i]
    ensures forall i :: 0 <= i < |s| && s[i] as int > 255 ==> r[i] == '?'
  {
    seq(|s|, i requires 0 <= i < |s| => if s[i] as int <= 255 then s[i] else '?')
  }

  lemma Latin1SafeIdempotent(s: string)
    ensures Latin1Safe(Latin1Safe(s)) == Latin1Safe(s)
  {
  }

  /** What `criar_relatorio_pdf` produces: the (later deleted) composite's
      path, the PDF's path, the header fields, the model's text as written,
      and whether the gallery page was added. */
  datatype PdfReport = PdfReport(
    compositePath: string, pdfPath: string,
    mediaName: string, participante: string, categoria: string,
    body: string, gallery: Option<Composite>)

  /** `criar_relatorio_pdf`: builds the gallery from the five images and adds
      its page only when the composite was created. */
  method CriarRelatorioPdf(pdfDir: string, d: AnalysisData, response: string,
                           open: string -> Opened, compositeSaves: bool)
    returns (report: PdfReport)
    ensures report.compositePath == PathJoin(pdfDir, TempBaseName(d) + ".png")
    ensures report.pdfPath == PathJoin(pdfDir, PdfFileName(d))
    ensures report.mediaName == d.mediaName && report.participante == d.participante
    ensures report.categoria == CategoryText(d.categoria)
    ensures report.body == Latin1Safe(response)
    ensures report.gallery.Some? <==> AllOpenable(GalleryEntries(d), open) && compositeSaves
    ensures report.gallery.Some? ==> report.gallery.value == Layout(GalleryEntries(d), open)
  {
    var entries := GalleryEntries(d);
    var baseName := "temp_" + ReplaceAll(d.mediaName, ".", "_") + "_P" + d.participante;
    var compositePath := PathJoin(pdfDir, baseName + ".png");
    var ok, composite := CriarImagemComposta(entries, open, compositeSaves);
    var gallery := if ok then Some(composite) else None;
    var pdfName := "Relatorio_Final_" + ReplaceAll(baseName, "temp_", "") + ".pdf";
    report := PdfReport(compositePath, PathJoin(pdfDir, pdfName), d.mediaName, d.participante,
                        CategoryText(d.categoria), Latin1Safe(response), gallery);
  }
}
