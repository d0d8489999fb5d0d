/** Dataset discovery of eyetracking_analyzer/data_loader.py
    (`buscar_dados_participante`): filter the stimulus catalogue (info.csv),
    build the fixation-log names for each stimulus, read the logs, keep the
    rows of that stimulus and derive the paths of the precomputed artefacts.
    The file system is an input value: the catalogue (absent when info.csv is
    missing), the set of image paths that exist, the readable logs by path and
    the listing of the log directory. */
module DataLoader {
  import opened Strings

  /** A catalogue row. `block` is the text `str(row['Block'])`; `category`
      is None where the cell is empty (pandas NaN). */
  datatype InfoRow = InfoRow(imageName: string, block: string, category: Option<string>)

  /** A fixation-log row: its MEDIA_NAME and its other cells. */
  datatype LogRow = LogRow(mediaName: string, cells: map<string, string>)

  /** Reading one log: the table (and whether it has a MEDIA_NAME column), or
      a read error. */
  datatype LogFile = Table(hasMediaName: bool, rows: seq<LogRow>) | Unreadable

  /** The directories of config.py, taken as opaque text. */
  datatype Config = Config(imagesDir: string, logsDir: string, saliencyMapsDir: string, scanpathsDir: string)

  datatype FileSystem = FileSystem(
    info: Option<seq<InfoRow>>, existing: set<string>, logs: map<string, LogFile>, logListing: seq<string>)

  /** The search arguments; "" stands for a falsy (absent) argument. */
  datatype Query = Query(participante: string, mediaName: string, tipoDeMidia: string, duration: string)

  /** One dataset found for analysis. */
  datatype Dataset = Dataset(
    participante: string, mediaName: string, categoria: Option<string>, bloco: string,
    imagePath: string, scanpathPath: string, heatmapPath: string, fixmapPath: string,
    overlayHeatmapPath: string, rows: seq<LogRow>)

  /* ---------------------------------------------------------------------- */
  /* Catalogue filters                                                       */

  /** The media filter is exact equality. */
  predicate MediaMatches(q: Query, row: InfoRow) {
    q.mediaName == "" || row.imageName == q.mediaName
  }

  /** The category filter is a case-insensitive substring test; an empty
      category never matches. */
  predicate CategoryMatches(q: Query, row: InfoRow) {
    q.tipoDeMidia == "" || (row.category.Some? && IsSubstring(Lower(q.tipoDeMidia), Lower(row.category.value)))
  }

  /** The category filter ignores ASCII case, in the query and in the
      catalogue cell alike. */
  lemma CategoryIgnoresCase(q: Query, row: InfoRow, t: string, c: Option<string>)
    requires CaseVariant(q.tipoDeMidia, t)
    requires row.category.None? <==> c.None?
    requires row.category.Some? && c.Some? ==> CaseVariant(row.category.value, c.value)
    ensures CategoryMatches(q, row) <==> CategoryMatches(q.(tipoDeMidia := t), row.(category := c))
  {
    CaseVariantLower(q.tipoDeMidia, t);
    if c.Some? {
      CaseVariantLower(row.category.value, c.value);
    }
  }

  predicate Selected(q: Query, row: InfoRow) { MediaMatches(q, row) && CategoryMatches(q, row) }

  /** The catalogue rows both filters keep, in catalogue order. */
  function FilterInfo(rows: seq<InfoRow>, q: Query): (kept: seq<InfoRow>)
    ensures |kept| <= |rows|
    ensures forall x {:trigger x in kept} :: x in kept <==> x in rows && Selected(q, x)
  {
    if rows == [] then []
    else
      var rest := FilterInfo(rows[1..], q);
      assert forall x :: x in rows <==> x == rows[0] || x in rows[1..];
      if Selected(q, rows[0]) then [rows[0]] + rest else rest
  }

  /** The log rows recorded for one stimulus, in log order. */
  function RowsFor(rows: seq<LogRow>, imgName: string): (sel: seq<LogRow>)
    ensures |sel| <= |rows|
    ensures forall i :: 0 <= i < |sel| ==> sel[i].mediaName == imgName
    ensures forall x :: x in sel <==> x in rows && x.mediaName == imgName
  {
    if rows == [] then []
    else
      var rest := RowsFor(rows[1..], imgName);
      assert forall x :: x in rows <==> x == rows[0] || x in rows[1..];
      if rows[0].mediaName == imgName then [rows[0]] + rest else rest
  }

  /** Filtering a concatenation filters each part and keeps their order, so
      together with the one-row case it fixes the order and the repeats of
      the result. */
  lemma FilterInfoCons(x: InfoRow, rest: seq<InfoRow>, q: Query)
    ensures FilterInfo([x] + rest, q) == FilterInfo([x], q) + FilterInfo(rest, q)
  {
    assert ([x] + rest)[0] == x && ([x] + rest)[1..] == rest;
    FilterInfoSingle(x, q);
  }

  lemma {:induction false} FilterInfoAppend(a: seq<InfoRow>, b: seq<InfoRow>, q: Query)
    ensures FilterInfo(a + b, q) == FilterInfo(a, q) + FilterInfo(b, q)
  {
    if a == [] {
      assert a + b == b;
    } else {
      var head := FilterInfo([a[0]], q);
      assert FilterInfo(a, q) == head + FilterInfo(a[1..], q) by {
        assert a == [a[0]] + a[1..];
        FilterInfoCons(a[0], a[1..], q);
      }
      assert FilterInfo(a + b, q) == head + FilterInfo(a[1..] + b, q) by {
        assert a + b == [a[0]] + (a[1..] + b);
        FilterInfoCons(a[0], a[1..] + b, q);
      }
      FilterInfoAppend(a[1..], b, q);
    }
  }

  lemma FilterInfoSingle(x: InfoRow, q: Query)
    ensures FilterInfo([x], q) == if Selected(q, x) then [x] else []
  {
    assert [x][1..] == [];
  }

  lemma {:induction false} RowsForAppend(a: seq<LogRow>, b: seq<LogRow>, imgName: string)
    ensures RowsFor(a + b, imgName) == RowsFor(a, imgName) + RowsFor(b, imgName)
  {
    if a == [] {
      assert a + b == b;
    } else {
      assert (a + b)[1..] == a[1..] + b;
      RowsForAppend(a[1..], b, imgName);
    }
  }

  lemma RowsForSingle(x: LogRow, imgName: string)
    ensures RowsFor([x], imgName) == if x.mediaName == imgName then [x] else []
  {
    assert [x][1..] == [];
  }

  /* ---------------------------------------------------------------------- */
  /* Names and paths                                                         */

  predicate IsBlockLog(block: string, file: string) {
    StartsWith(file, block + "_") && EndsWith(file, "_fixations.csv")
  }

  /** `<block>_kh0<zfill(participant, 2)>_fixations.csv`. */
  function LogFileName(block: string, participante: string): string {
    block + "_kh0" + Zfill(participante, 2) + "_fixations.csv"
  }

  /** The log name built for a participant is one the listing filter takes
      as a log of the same block. */
  lemma LogFileNameIsBlockLog(block: string, participante: string)
    ensures IsBlockLog(block, LogFileName(block, participante))
  {
    var z := Zfill(participante, 2);
    assert LogFileName(block, participante) == (block + "_") + ("kh0" + z) + "_fixations.csv" by {
      assert "_kh0" == "_" + "kh0";
    }
    PrefixAndSuffix(block + "_", "kh0" + z, "_fixations.csv");
  }

  /** The listing entries that are fixation logs of one block, in listing
      order. */
  function BlockFiles(block: string, listing: seq<string>): (files: seq<string>)
    ensures |files| <= |listing|
    ensures forall i :: 0 <= i < |files| ==> IsBlockLog(block, files[i])
    ensures forall f :: f in files <==> f in listing && IsBlockLog(block, f)
  {
    if listing == [] then []
    else
      var init := BlockFiles(block, listing[..|listing| - 1]);
      var f := listing[|listing| - 1];
      assert forall g :: g in listing <==> g in listing[..|listing| - 1] || g == f;
      if IsBlockLog(block, f) then init + [f] else init
  }

  lemma {:induction false} BlockFilesAppend(block: string, a: seq<string>, b: seq<string>)
    ensures BlockFiles(block, a + b) == BlockFiles(block, a) + BlockFiles(block, b)
  {
    if b == [] {
      assert a + b == a;
    } else {
      assert (a + b)[..|a + b| - 1] == a + b[..|b| - 1];
      BlockFilesAppend(block, a, b[..|b| - 1]);
    }
  }

  lemma BlockFilesSingle(block: string, f: string)
    ensures BlockFiles(block, [f]) == if IsBlockLog(block, f) then [f] else []
  {
    assert [f][..0] == [];
  }

  function JoinEach(dir: string, names: seq<string>): seq<string> {
    seq(|names|, i requires 0 <= i < |names| => PathJoin(dir, names[i]))
  }

  lemma JoinEachSnoc(dir: string, names: seq<string>, name: string)
    ensures JoinEach(dir, names + [name]) == JoinEach(dir, names) + [PathJoin(dir, name)]
  {
  }

  /** The logs searched for one stimulus: the participant's own log when a
      participant is given, else every log of the stimulus's block. */
  function Candidates(cfg: Config, fs: FileSystem, q: Query, block: string): seq<string> {
    if q.participante != "" then [PathJoin(cfg.logsDir, LogFileName(block, q.participante))]
    else JoinEach(cfg.logsDir, BlockFiles(block, fs.logListing))
  }

  /** `basename(log_path).split('_')[1].replace('kh0', '')`; None where the
      name has no second field (the IndexError the loader catches). */
  function ParticipantId(logPath: string): Option<string> {
    var fields := Split(Basename(logPath), '_');
    if |fields| < 2 then None else Some(ReplaceAll(fields[1], "kh0", ""))
  }

  function ScanpathPath(cfg: Config, duration: string, imgName: string, id: string): string {
    PathJoin(PathJoin(PathJoin(cfg.scanpathsDir, "paths_" + duration), BeforeFirst(imgName, '.')), id + ".png")
  }

  function HeatmapPath(cfg: Config, duration: string, imgName: string): string {
    PathJoin(PathJoin(cfg.saliencyMapsDir, "heatmaps_" + duration), imgName)
  }

  function FixmapPath(cfg: Config, duration: string, imgName: string): string {
    PathJoin(PathJoin(cfg.saliencyMapsDir, "fixmaps_" + duration), imgName)
  }

  function OverlayHeatmapPath(cfg: Config, duration: string, imgName: string): string {
    PathJoin(PathJoin(cfg.saliencyMapsDir, "overlay_heatmaps_" + duration), "overlay_" + imgName)
  }

  /** The record built for one stimulus from one log. */
  function MakeDataset(cfg: Config, q: Query, row: InfoRow, id: string, sel: seq<LogRow>): Dataset {
    Dataset(id, row.imageName, row.category, Zfill(row.block, 2),
            PathJoin(cfg.imagesDir, row.imageName),
            ScanpathPath(cfg, q.duration, row.imageName, id),
            HeatmapPath(cfg, q.duration, row.imageName),
            FixmapPath(cfg, q.duration, row.imageName),
            OverlayHeatmapPath(cfg, q.duration, row.imageName), sel)
  }

  /* ---------------------------------------------------------------------- */
  /* The search as a specification                                           */

  /** The dataset one log yields for one stimulus, if any: the log exists, is
      readable, has a second name field and a MEDIA_NAME column, and has at
      least one row of the stimulus. */
  function RecordFor(cfg: Config, fs: FileSystem, q: Query, row: InfoRow, logPath: string): seq<Dataset> {
    if logPath !in fs.logs || fs.logs[logPath].Unreadable? then []
    else
      var table := fs.logs[logPath];
      var id := ParticipantId(logPath);
      if id.None? || !table.hasMediaName then []
      else
        var sel := RowsFor(table.rows, row.imageName);
        if sel == [] then []
        else
          [MakeDataset(cfg, q, row, id.value, sel)]
  }

  function RecordsFromLogs(cfg: Config, fs: FileSystem, q: Query, row: InfoRow, logs: seq<string>): seq<Dataset> {
    if logs == [] then []
    else RecordsFromLogs(cfg, fs, q, row, logs[..|logs| - 1]) + RecordFor(cfg, fs, q, row, logs[|logs| - 1])
  }

  /** The datasets of one catalogue row: none when its image is missing. */
  function RecordsForRow(cfg: Config, fs: FileSystem, q: Query, row: InfoRow): seq<Dataset> {
    if PathJoin(cfg.imagesDir, row.imageName) !in fs.existing then []
    else RecordsFromLogs(cfg, fs, q, row, Candidates(cfg, fs, q, Zfill(row.block, 2)))
  }

  function RecordsForRows(cfg: Config, fs: FileSystem, q: Query, rows: seq<InfoRow>): seq<Dataset> {
    if rows == [] then []
    else RecordsForRows(cfg, fs, q, rows[..|rows| - 1]) + RecordsForRow(cfg, fs, q, rows[|rows| - 1])
  }

  /** Everything `buscar_dados_participante` returns: catalogue order first,
      then log order within a stimulus; nothing when info.csv is missing. */
  function Search(cfg: Config, fs: FileSystem, q: Query): seq<Dataset> {
    if fs.info.None? then [] else RecordsForRows(cfg, fs, q, FilterInfo(fs.info.value, q))
  }

  /* ---------------------------------------------------------------------- */
  /* The loader                                                              */

  /** The listdir scan of `buscar_dados_participante`: the block's logs
      joined to the log directory, in listing order. */
  method ListBlockLogs(logsDir: string, block: string, listing: seq<string>) returns (logFiles: seq<string>)
    ensures logFiles == JoinEach(logsDir, BlockFiles(block, listing))
  {
    logFiles := [];
    for k := 0 to |listing|
      invariant logFiles == JoinEach(logsDir, BlockFiles(block, listing[..k]))
    {
      var file := listing[k];
      ghost var before := BlockFiles(block, listing[..k]);
      assert BlockFiles(block, listing[..k + 1]) == if IsBlockLog(block, file) then before + [file] else before by {
        assert listing[..k + 1][..k] == listing[..k];
      }
      if StartsWith(file, block + "_") && EndsWith(file, "_fixations.csv") {
        JoinEachSnoc(logsDir, before, file);
        logFiles := logFiles + [PathJoin(logsDir, file)];
      }
    }
    assert listing[..|listing|] == listing;
  }

  /** The inner loop of `buscar_dados_participante`: read each candidate log
      and keep a dataset for each one that yields rows of the stimulus; every
      failure skips that log. */
  method ReadLogs(cfg: Config, fs: FileSystem, q: Query, row: InfoRow, logFiles: seq<string>)
    returns (found: seq<Dataset>)
    ensures found == RecordsFromLogs(cfg, fs, q, row, logFiles)
  {
    found := [];
    for l := 0 to |logFiles|
      invariant found == RecordsFromLogs(cfg, fs, q, row, logFiles[..l])
    {
      assert logFiles[..l + 1][..l] == logFiles[..l];
      var logPath := logFiles[l];
      if logPath !in fs.logs {
        continue;
      }
      var table := fs.logs[logPath];
      if table.Unreadable? {
        continue;
      }
      var id := ParticipantId(logPath);
      if id.None? || !table.hasMediaName {
        continue;
      }
      var logDataImagem := RowsFor(table.rows, row.imageName);
      if logDataImagem != [] {
        found := found + [MakeDataset(cfg, q, row, id.value, logDataImagem)];
      }
    }
    assert logFiles[..|logFiles|] == logFiles;
  }

  /** `buscar_dados_participante`: nothing when info.csv is missing or no
      catalogue row passes the filters; otherwise, row by row, the datasets of
      every candidate log. */
  method BuscarDadosParticipante(cfg: Config, fs: FileSystem, q: Query) returns (dados: seq<Dataset>)
    ensures dados == Search(cfg, fs, q)
    ensures fs.info.None? ==> dados == []
  {
    if fs.info.None? {
      return [];
    }
    var dfInfo := FilterInfo(fs.info.value, q);
    if |dfInfo| == 0 {
      return [];
    }
    dados := [];
    for r := 0 to |dfInfo|
      invariant dados == RecordsForRows(cfg, fs, q, dfInfo[..r])
    {
      var row := dfInfo[r];
      assert RecordsForRows(cfg, fs, q, dfInfo[..r + 1])
          == RecordsForRows(cfg, fs, q, dfInfo[..r]) + RecordsForRow(cfg, fs, q, row) by {
        assert dfInfo[..r + 1][..r] == dfInfo[..r];
      }
      var block := Zfill(row.block, 2);
      var imgPath := PathJoin(cfg.imagesDir, row.imageName);
      if imgPath !in fs.existing {
        assert RecordsForRow(cfg, fs, q, row) == [];
        continue;
      }
      var logFiles: seq<string>;
      if q.participante != "" {
        logFiles := [PathJoin(cfg.logsDir, LogFileName(block, q.participante))];
      } else {
        logFiles := ListBlockLogs(cfg.logsDir, block, fs.logListing);
      }
      assert logFiles == Candidates(cfg, fs, q, block);
      var found := ReadLogs(cfg, fs, q, row, logFiles);
      assert found == RecordsForRow(cfg, fs, q, row);
      dados := dados + found;
    }
    assert dfInfo[..|dfInfo|] == dfInfo;
  }

  /* ---------------------------------------------------------------------- */
  /* Properties                                                              */

  /** The dataset describes catalogue row `row`: its name, category and
      padded block, and the artefact paths derived from them and from the
      dataset's participant id. */
  predicate Describes(cfg: Config, q: Query, row: InfoRow, d: Dataset) {
    && d.mediaName == row.imageName
    && d.categoria == row.category
    && d.bloco == Zfill(row.block, 2)
    && d.imagePath == PathJoin(cfg.imagesDir, row.imageName)
    && d.scanpathPath == ScanpathPath(cfg, q.duration, row.imageName, d.participante)
    && d.heatmapPath == HeatmapPath(cfg, q.duration, row.imageName)
    && d.fixmapPath == FixmapPath(cfg, q.duration, row.imageName)
    && d.overlayHeatmapPath == OverlayHeatmapPath(cfg, q.duration, row.imageName)
  }

  /** The dataset was read from the log at `logPath`: a readable table with a
      MEDIA_NAME column, whose name yields the participant id, and whose rows
      of the stimulus are exactly the dataset's rows (at least one). */
  predicate ReadFrom(fs: FileSystem, logPath: string, d: Dataset) {
    && logPath in fs.logs
    && fs.logs[logPath].Table?
    && fs.logs[logPath].hasMediaName
    && ParticipantId(logPath) == Some(d.participante)
    && d.rows == RowsFor(fs.logs[logPath].rows, d.mediaName)
    && d.rows != []
  }

  /** What every returned dataset satisfies. */
  predicate Sound(cfg: Config, fs: FileSystem, q: Query, d: Dataset) {
    && fs.info.Some?
    && (exists row :: row in fs.info.value && Selected(q, row) && Describes(cfg, q, row, d))
    && (exists logPath :: logPath in Candidates(cfg, fs, q, d.bloco) && ReadFrom(fs, logPath, d))
    && d.imagePath in fs.existing
    && (forall i :: 0 <= i < |d.rows| ==> d.rows[i].mediaName == d.mediaName)
    && (q.mediaName != "" ==> d.mediaName == q.mediaName)
    && (q.tipoDeMidia != "" ==> d.categoria.Some? && IsSubstring(Lower(q.tipoDeMidia), Lower(d.categoria.value)))
    && |d.bloco| >= 2
  }

  /** The conditions under which a catalogue row's datasets are sound. */
  predicate Eligible(cfg: Config, fs: FileSystem, q: Query, row: InfoRow) {
    fs.info.Some? && row in fs.info.value && Selected(q, row) && PathJoin(cfg.imagesDir, row.imageName) in fs.existing
  }

  lemma RecordForSound(cfg: Config, fs: FileSystem, q: Query, row: InfoRow, logPath: string)
    requires Eligible(cfg, fs, q, row)
    requires logPath in Candidates(cfg, fs, q, Zfill(row.block, 2))
    ensures forall d :: d in RecordFor(cfg, fs, q, row, logPath) ==> Sound(cfg, fs, q, d)
  {
    var r := RecordFor(cfg, fs, q, row, logPath);
    if r != [] {
      var table := fs.logs[logPath];
      var id := ParticipantId(logPath).value;
      var sel := RowsFor(table.rows, row.imageName);
      var d := MakeDataset(cfg, q, row, id, sel);
      assert r == [d];
      assert ReadFrom(fs, logPath, d);
      MakeDatasetSound(cfg, fs, q, row, logPath, d);
      OneSound(cfg, fs, q, r, d);
    }
  }

  lemma OneSound(cfg: Config, fs: FileSystem, q: Query, r: seq<Dataset>, d: Dataset)
    requires r == [d] && Sound(cfg, fs, q, d)
    ensures forall x :: x in r ==> Sound(cfg, fs, q, x)
  {
  }

  lemma MakeDatasetSound(cfg: Config, fs: FileSystem, q: Query, row: InfoRow, logPath: string, d: Dataset)
    requires Eligible(cfg, fs, q, row)
    requires d == MakeDataset(cfg, q, row, d.participante, d.rows)
    requires logPath in Candidates(cfg, fs, q, Zfill(row.block, 2)) && ReadFrom(fs, logPath, d)
    ensures Sound(cfg, fs, q, d)
  {
    assert Describes(cfg, q, row, d);
    assert |d.bloco| == Max(|row.block|, 2);
  }

  lemma {:induction false} RecordsFromLogsSound(cfg: Config, fs: FileSystem, q: Query, row: InfoRow, logs: seq<string>)
    requires Eligible(cfg, fs, q, row)
    requires forall i :: 0 <= i < |logs| ==> logs[i] in Candidates(cfg, fs, q, Zfill(row.block, 2))
    ensures forall d :: d in RecordsFromLogs(cfg, fs, q, row, logs) ==> Sound(cfg, fs, q, d)
  {
    if logs != [] {
      RecordsFromLogsSound(cfg, fs, q, row, logs[..|logs| - 1]);
      RecordForSound(cfg, fs, q, row, logs[|logs| - 1]);
    }
  }

  lemma {:induction false} RecordsForRowsSound(cfg: Config, fs: FileSystem, q: Query, rows: seq<InfoRow>)
    requires fs.info.Some?
    requires forall i :: 0 <= i < |rows| ==> rows[i] in fs.info.value && Selected(q, rows[i])
    ensures forall d :: d in RecordsForRows(cfg, fs, q, rows) ==> Sound(cfg, fs, q, d)
  {
    if rows != [] {
      var last := rows[|rows| - 1];
      RecordsForRowsSound(cfg, fs, q, rows[..|rows| - 1]);
      if PathJoin(cfg.imagesDir, last.imageName) in fs.existing {
        RecordsFromLogsSound(cfg, fs, q, last, Candidates(cfg, fs, q, Zfill(last.block, 2)));
      }
    }
  }

  /** Every dataset found comes from a catalogue row that passes the media
      and category filters and whose image exists, carries that row's name,
      category, padded block and derived paths, and was read from one of the
      row's candidate logs: its participant id comes from that log's name and
      its rows are exactly that log's rows of the stimulus. */
  lemma SearchSound(cfg: Config, fs: FileSystem, q: Query)
    ensures forall d :: d in Search(cfg, fs, q) ==> Sound(cfg, fs, q, d)
  {
    if fs.info.Some? {
      var kept := FilterInfo(fs.info.value, q);
      assert forall i :: 0 <= i < |kept| ==> kept[i] in kept;
      RecordsForRowsSound(cfg, fs, q, kept);
    }
  }

  /** With a digit-only participant given, every dataset found carries the
      participant padded to two digits (for blocks without '_' or '/'). */
  lemma SearchParticipant(cfg: Config, fs: FileSystem, q: Query, d: Dataset)
    requires d in Search(cfg, fs, q)
    requires q.participante != "" && AllDigits(q.participante)
    requires '_' !in d.bloco && '/' !in d.bloco
    ensures d.participante == Zfill(q.participante, 2)
  {
    var own := PathJoin(cfg.logsDir, LogFileName(d.bloco, q.participante));
    assert ParticipantId(own) == Some(d.participante) by {
      assert exists logPath :: logPath in Candidates(cfg, fs, q, d.bloco) && ReadFrom(fs, logPath, d) by {
        SearchSound(cfg, fs, q);
      }
      assert Candidates(cfg, fs, q, d.bloco) == [own];
    }
    ParticipantIdRoundTrip(cfg.logsDir, d.bloco, q.participante);
  }

  lemma ZfillDigits(s: string, width: nat)
    requires AllDigits(s)
    ensures AllDigits(Zfill(s, width))
  {
    var r := Zfill(s, width);
    if |s| < width {
      assert Unsigned(s) by { if |s| > 0 { assert IsDigit(s[0]); } }
      forall i | 0 <= i < |r| ensures IsDigit(r[i]) {
        if i >= |r| - |s| {
          assert r[i] == r[|r| - |s|..][i - (|r| - |s|)];
        } else {
          assert r[i] == r[..|r| - |s|][i];
        }
      }
    }
  }

  lemma DigitsHaveNoKh0(s: string)
    requires AllDigits(s)
    ensures !IsSubstring("kh0", s)
  {
    forall i | 0 <= i <= |s| ensures !OccursAt("kh0", s, i) {
      if i + 3 <= |s| {
        assert s[i..i + 3][0] == s[i] != 'k';
      }
    }
  }

  /** Three separator-free fields joined by the separator split back. */
  lemma ThreeFields(a: string, b: string, c: string, sep: char)
    requires sep !in a && sep !in b && sep !in c
    ensures Split(a + [sep] + b + [sep] + c, sep) == [a, b, c]
  {
    var parts := [a, b, c];
    assert parts[1..] == [b, c] && parts[1..][1..] == [c];
    assert Join([c], [sep]) == c;
    assert Join([b, c], [sep]) == b + [sep] + c;
    var joined := a + [sep] + b + [sep] + c;
    assert Join(parts, [sep]) == a + [sep] + (b + [sep] + c) == joined;
    SplitOfJoin(parts, sep);
    assert Split(joined, sep) == parts;
  }

  /** A log name splits on '_' into the block, "kh0" + the padded
      participant, and "fixations.csv". */
  lemma LogFileNameFields(block: string, participante: string)
    requires '_' !in block && '_' !in Zfill(participante, 2)
    ensures Split(LogFileName(block, participante), '_') == [block, "kh0" + Zfill(participante, 2), "fixations.csv"]
  {
    var z := Zfill(participante, 2);
    UnderscoreFields(block, z);
    ThreeFields(block, "kh0" + z, "fixations.csv", '_');
  }

  lemma UnderscoreFields(block: string, z: string)
    ensures block + "_kh0" + z + "_fixations.csv" == block + ['_'] + ("kh0" + z) + ['_'] + "fixations.csv"
  {
    assert "_kh0" == ['_'] + "kh0" && "_fixations.csv" == ['_'] + "fixations.csv";
  }

  /** Removing "kh0" from "kh0" + z gives z back when z has no "kh0". */
  lemma StripKh0(z: string)
    requires !IsSubstring("kh0", z)
    ensures ReplaceAll("kh0" + z, "kh0", "") == z
  {
    ReplaceAllLeading("kh0", z, "");
    ReplaceAllAbsent(z, "kh0", "");
  }

  lemma PaddedDigits(participante: string)
    requires AllDigits(participante)
    ensures AllDigits(Zfill(participante, 2))
    ensures '_' !in Zfill(participante, 2) && '/' !in Zfill(participante, 2)
    ensures !IsSubstring("kh0", Zfill(participante, 2))
  {
    var z := Zfill(participante, 2);
    ZfillDigits(participante, 2);
    DigitsHaveNoKh0(z);
    assert forall k :: 0 <= k < |z| ==> z[k] != '_' && z[k] != '/';
  }

  /** For a digit-only participant and a block without '_' or '/', the
      participant id read back from the log name is `zfill(participant, 2)`. */
  lemma ParticipantIdRoundTrip(logsDir: string, block: string, participante: string)
    requires AllDigits(participante)
    requires '_' !in block && '/' !in block
    ensures ParticipantId(PathJoin(logsDir, LogFileName(block, participante))) == Some(Zfill(participante, 2))
  {
    var z := Zfill(participante, 2);
    PaddedDigits(participante);
    var name := LogFileName(block, participante);
    assert '/' !in name;
    BasenameOfJoin(logsDir, name);
    LogFileNameFields(block, participante);
    StripKh0(z);
  }

  /** The artefact paths end in the names the loader promises. */
  lemma DerivedFileNames(cfg: Config, duration: string, imgName: string, id: string)
    requires '/' !in imgName && '/' !in id
    ensures Basename(HeatmapPath(cfg, duration, imgName)) == imgName
    ensures Basename(FixmapPath(cfg, duration, imgName)) == imgName
    ensures Basename(OverlayHeatmapPath(cfg, duration, imgName)) == "overlay_" + imgName
    ensures Basename(ScanpathPath(cfg, duration, imgName, id)) == id + ".png"
  {
    var overlay, png := "overlay_" + imgName, id + ".png";
    assert '/' !in overlay by {
      forall k | 0 <= k < |overlay| ensures overlay[k] != '/' {
        if k >= 8 { assert overlay[k] == imgName[k - 8]; }
      }
    }
    assert '/' !in png by {
      forall k | 0 <= k < |png| ensures png[k] != '/' {
        if k < |id| { assert png[k] == id[k]; }
      }
    }
    assert Basename(HeatmapPath(cfg, duration, imgName)) == imgName by {
      BasenameOfJoin(PathJoin(cfg.saliencyMapsDir, "heatmaps_" + duration), imgName);
    }
    assert Basename(FixmapPath(cfg, duration, imgName)) == imgName by {
      BasenameOfJoin(PathJoin(cfg.saliencyMapsDir, "fixmaps_" + duration), imgName);
    }
    assert Basename(OverlayHeatmapPath(cfg, duration, imgName)) == "overlay_" + imgName by {
      BasenameOfJoin(PathJoin(cfg.saliencyMapsDir, "overlay_heatmaps_" + duration), "overlay_" + imgName);
    }
    assert Basename(ScanpathPath(cfg, duration, imgName, id)) == id + ".png" by {
      BasenameOfJoin(PathJoin(PathJoin(cfg.scanpathsDir, "paths_" + duration), BeforeFirst(imgName, '.')), id + ".png");
    }
  }
}
