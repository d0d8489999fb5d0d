/** The command-line driver run_visualizations.py: for one participant and
    one image it walks the log directory, takes the first log of that
    participant that has fixations on the image (and whose image exists),
    and asks the renderers for a heatmap and a scanpath of it. What the
    driver prints and the renderer calls it makes are modelled as a list of
    events; the directory listing, the logs and the existing files are
    inputs. */
module RunVisualizations {
  import opened Strings
  import DataLoader

  /** The directories of config.py the driver uses. */
  datatype Dirs = Dirs(imagesDir: string, logsDir: string, outputDir: string)

  /** What the driver's run consists of, in order. */
  datatype Event =
    | LogError(logName: string)                      // the log could not be read or has no MEDIA_NAME column
    | MissingImage(media: string)                    // fixations found, but the base image is missing
    | Processing(logName: string, media: string)     // the log chosen
    | Heatmap(rows: seq<DataLoader.LogRow>, imagePath: string, outputPath: string)
    | Scanpath(rows: seq<DataLoader.LogRow>, imagePath: string, outputPath: string)
    | NotFound(participante: string, media: string)  // no log was processed

  /** The part of a log name that marks the participant. */
  function ParticipantTag(participante: string): string {
    "_kh0" + Zfill(participante, 2) + "_"
  }

  /** The stem the two outputs share: the image name up to its first '.',
      then the zero-filled participant. */
  function BaseOutputName(media: string, participante: string): string {
    BeforeFirst(media, '.') + "_P" + Zfill(participante, 2)
  }

  function HeatmapOutput(dirs: Dirs, media: string, participante: string): string {
    PathJoin(dirs.outputDir, "heatmap_" + BaseOutputName(media, participante) + ".png")
  }

  function ScanpathOutput(dirs: Dirs, media: string, participante: string): string {
    PathJoin(dirs.outputDir, "scanpath_" + BaseOutputName(media, participante) + ".png")
  }

  /** What the driver works on: its directories, the logs (by path; a
      missing entry cannot be read), the files that exist, and the two
      command-line arguments. */
  datatype Inputs = Inputs(dirs: Dirs, logs: map<string, DataLoader.LogFile>, existing: set<string>,
                           participante: string, media: string)

  /** What one listed log leads to. */
  datatype Verdict =
    | OtherParticipant            // the name does not carry the participant's tag
    | Broken                      // reading or column lookup raises
    | NoFixations                 // no row for the image
    | NoImage                     // rows, but no base image
    | Use(rows: seq<DataLoader.LogRow>)

  /** The verdict on one listed log, in the order of the driver's checks.
      A log is used only when it carries the participant's tag, reads, has
      rows of the image and the base image exists. */
  function Judge(inp: Inputs, logName: string): (v: Verdict)
    ensures v.Use? ==> && IsSubstring(ParticipantTag(inp.participante), logName)
                       && v.rows != []
                       && (forall i :: 0 <= i < |v.rows| ==> v.rows[i].mediaName == inp.media)
                       && PathJoin(inp.dirs.imagesDir, inp.media) in inp.existing
  {
    if !IsSubstring(ParticipantTag(inp.participante), logName) then OtherParticipant
    else
      var path := PathJoin(inp.dirs.logsDir, logName);
      if path !in inp.logs || inp.logs[path].Unreadable? || !inp.logs[path].hasMediaName then Broken
      else
        var rows := DataLoader.RowsFor(inp.logs[path].rows, inp.media);
        if rows == [] then NoFixations
        else if PathJoin(inp.dirs.imagesDir, inp.media) !in inp.existing then NoImage
        else Use(rows)
  }

  predicate Usable(inp: Inputs, logName: string) {
    Judge(inp, logName).Use?
  }

  /** The events of one log that is not used. */
  function Passed(v: Verdict, logName: string, media: string): seq<Event>
    requires !v.Use?
  {
    match v
    case Broken => [LogError(logName)]
    case NoImage => [MissingImage(media)]
    case _ => []
  }

  /** What a run renders to: the image, the base image path and the two
      output paths. None of them depends on the log, so they are fixed
      before the loop starts. */
  datatype Targets = Targets(media: string, image: string, heatmap: string, scanpath: string)

  function TargetsOf(inp: Inputs): Targets {
    Targets(inp.media, PathJoin(inp.dirs.imagesDir, inp.media),
            HeatmapOutput(inp.dirs, inp.media, inp.participante),
            ScanpathOutput(inp.dirs, inp.media, inp.participante))
  }

  /** The events of the log that is used. */
  function Render(t: Targets, logName: string, rows: seq<DataLoader.LogRow>): seq<Event> {
    [Processing(logName, t.media), Heatmap(rows, t.image, t.heatmap), Scanpath(rows, t.image, t.scanpath)]
  }

  /** The run over a listing: its events and whether a log was processed. */
  datatype Run = Run(events: seq<Event>, found: bool)

  /** The verdict on every listed log, in listing order. */
  function Verdicts(inp: Inputs, listing: seq<string>): (vs: seq<Verdict>)
    ensures |vs| == |listing|
  {
    seq(|listing|, i requires 0 <= i < |listing| => Judge(inp, listing[i]))
  }

  /** The loop over logs with known verdicts: stop at the first usable
      one, passing the others with their messages. */
  function Walk(t: Targets, names: seq<string>, vs: seq<Verdict>): Run
    requires |names| == |vs|
  {
    if names == [] then Run([], false)
    else if vs[0].Use? then Run(Render(t, names[0], vs[0].rows), true)
    else
      var rest := Walk(t, names[1..], vs[1..]);
      Run(Passed(vs[0], names[0], t.media) + rest.events, rest.found)
  }

  /** The loop over the listing. */
  function Scan(inp: Inputs, listing: seq<string>): Run {
    Walk(TargetsOf(inp), listing, Verdicts(inp, listing))
  }

  /** The whole run: the loop, then the not-found message if nothing was
      processed. */
  function MainRun(inp: Inputs, listing: seq<string>): seq<Event> {
    var run := Scan(inp, listing);
    run.events + (if run.found then [] else [NotFound(inp.participante, inp.media)])
  }

  /** One step of the loop past a log that is not used, from position k
      to the next position j: its messages come first, then the walk over
      the logs after it. */
  lemma WalkPast(t: Targets, names: seq<string>, vs: seq<Verdict>, k: nat, j: nat)
    requires |names| == |vs| && k < |names| && j == k + 1 && !vs[k].Use?
    ensures var here := Walk(t, names[k..], vs[k..]);
      var next := Walk(t, names[j..], vs[j..]);
      here.events == Passed(vs[k], names[k], t.media) + next.events && here.found == next.found
  {
    assert names[k..][0] == names[k] && names[k..][1..] == names[j..];
    assert vs[k..][0] == vs[k] && vs[k..][1..] == vs[j..];
  }

  /** The loop's invariant carried past a log that is not used: the events
      so far plus that log's messages, then the walk from j, still make up
      the whole run. */
  lemma StepPast(t: Targets, names: seq<string>, vs: seq<Verdict>, total: Run, before: seq<Event>, k: nat, j: nat)
    requires |names| == |vs| && k < |names| && j == k + 1 && !vs[k].Use?
    requires total.events == before + Walk(t, names[k..], vs[k..]).events
    requires total.found == Walk(t, names[k..], vs[k..]).found
    ensures total.events == (before + Passed(vs[k], names[k], t.media)) + Walk(t, names[j..], vs[j..]).events
    ensures total.found == Walk(t, names[j..], vs[j..]).found
  {
    WalkPast(t, names, vs, k, j);
    AppendAssoc(before, Passed(vs[k], names[k], t.media), Walk(t, names[j..], vs[j..]).events);
  }

  lemma AppendAssoc(a: seq<Event>, b: seq<Event>, c: seq<Event>)
    ensures a + (b + c) == (a + b) + c
  {
  }

  /** The step at the log that is used, at position k. */
  lemma WalkUse(t: Targets, names: seq<string>, vs: seq<Verdict>, k: nat)
    requires |names| == |vs| && k < |names| && vs[k].Use?
    ensures Walk(t, names[k..], vs[k..]) == Run(Render(t, names[k], vs[k].rows), true)
  {
    assert names[k..][0] == names[k];
    assert vs[k..][0] == vs[k];
  }

  /** The checks the loop body makes on one log file, in the order it makes
      them: the participant's tag in the name, a readable log with a
      MEDIA_NAME column, rows for the image, then the image on disk. */
  method InspectLog(inp: Inputs, logFilename: string) returns (verdict: Verdict)
    ensures verdict == Judge(inp, logFilename)
  {
    if !IsSubstring("_kh0" + Zfill(inp.participante, 2) + "_", logFilename) {
      return OtherParticipant;
    }
    var path := PathJoin(inp.dirs.logsDir, logFilename);
    if path !in inp.logs || inp.logs[path].Unreadable? || !inp.logs[path].hasMediaName {
      return Broken;
    }
    var fixations := DataLoader.RowsFor(inp.logs[path].rows, inp.media);
    if fixations == [] {
      return NoFixations;
    }
    if PathJoin(inp.dirs.imagesDir, inp.media) !in inp.existing {
      return NoImage;
    }
    return Use(fixations);
  }

  /** The body for the log that is used: announce it, then ask for the
      heatmap and the scanpath of its rows over the base image. */
  method RenderLog(inp: Inputs, logFilename: string, fixations: seq<DataLoader.LogRow>)
    returns (rendered: seq<Event>)
    ensures rendered == Render(TargetsOf(inp), logFilename, fixations)
  {
    var baseImagePath := PathJoin(inp.dirs.imagesDir, inp.media);
    var baseOutputName := BeforeFirst(inp.media, '.') + "_P" + Zfill(inp.participante, 2);
    var heatmapOutputPath := PathJoin(inp.dirs.outputDir, "heatmap_" + baseOutputName + ".png");
    var scanpathOutputPath := PathJoin(inp.dirs.outputDir, "scanpath_" + baseOutputName + ".png");
    rendered := [Processing(logFilename, inp.media),
                 Heatmap(fixations, baseImagePath, heatmapOutputPath),
                 Scanpath(fixations, baseImagePath, scanpathOutputPath)];
  }

  /** The body of the loop for one log file: judge it, then either report
      why it is passed over or render from it. */
  method ProcessLog(inp: Inputs, logFilename: string) returns (added: seq<Event>, used: bool)
    ensures var v := Judge(inp, logFilename);
      && used == v.Use?
      && (v.Use? ==> added == Render(TargetsOf(inp), logFilename, v.rows))
      && (!v.Use? ==> added == Passed(v, logFilename, inp.media))
  {
    var verdict := InspectLog(inp, logFilename);
    used := false;
    match verdict {
      case OtherParticipant =>
        added := [];
      case Broken =>
        added := [LogError(logFilename)];
      case NoFixations =>
        added := [];
      case NoImage =>
        added := [MissingImage(inp.media)];
      case Use(fixations) =>
        added := RenderLog(inp, logFilename, fixations);
        used := true;
    }
  }

  /** `main` for one participant and one image: scan the listing for the
      first usable log, report the logs passed on the way, render the
      heatmap and the scanpath from the first usable one, and report when
      there is none. */
  method ProcessParticipantMedia(inp: Inputs, listing: seq<string>) returns (events: seq<Event>)
    ensures events == MainRun(inp, listing)
  {
    ghost var vs := Verdicts(inp, listing);
    ghost var t := TargetsOf(inp);
    ghost var total := Scan(inp, listing);
    assert listing[0..] == listing && vs[0..] == vs;
    var logFileFound := false;
    events := [];
    var k := 0;
    while k < |listing|
      invariant 0 <= k <= |listing|
      invariant !logFileFound
      invariant total.events == events + Walk(t, listing[k..], vs[k..]).events
      invariant total.found == Walk(t, listing[k..], vs[k..]).found
    {
      ghost var before := events;
      var added, used := ProcessLog(inp, listing[k]);
      assert Judge(inp, listing[k]) == vs[k];
      events := events + added;
      if used {
        WalkUse(t, listing, vs, k);
        logFileFound := true;
        break;
      }
      ghost var i := k;
      k := k + 1;
      StepPast(t, listing, vs, total, before, i, k);
    }
    if !logFileFound {
      assert listing[k..] == [] && vs[k..] == [];
      events := events + [NotFound(inp.participante, inp.media)];
    }
  }

  /* ---------------------------------------------------------------------- */
  /* Properties of the run                                                   */

  lemma {:induction false} WalkFoundIff(t: Targets, names: seq<string>, vs: seq<Verdict>)
    requires |names| == |vs|
    ensures Walk(t, names, vs).found <==> exists i :: 0 <= i < |vs| && vs[i].Use?
  {
    if names != [] && !vs[0].Use? {
      WalkFoundIff(t, names[1..], vs[1..]);
      assert forall i :: 0 < i < |vs| ==> vs[i] == vs[1..][i - 1];
    }
  }

  /** The messages of logs passed, in order. */
  function Passes(t: Targets, names: seq<string>, vs: seq<Verdict>): (events: seq<Event>)
    requires |names| == |vs|
    ensures forall e :: e in events ==> e.LogError? || e.MissingImage?
  {
    if names == [] then []
    else
      var rest := Passes(t, names[1..], vs[1..]);
      if vs[0].Use? then rest else Passed(vs[0], names[0], t.media) + rest
  }

  /** Walking past i logs that are not used leaves their messages in front
      of the walk over the rest. */
  lemma {:induction false} WalkSkip(t: Targets, names: seq<string>, vs: seq<Verdict>, i: nat)
    requires |names| == |vs| && i <= |vs|
    requires forall j :: 0 <= j < i ==> !vs[j].Use?
    ensures var rest := Walk(t, names[i..], vs[i..]);
      Walk(t, names, vs) == Run(Passes(t, names[..i], vs[..i]) + rest.events, rest.found)
  {
    if i == 0 {
      assert names[0..] == names && vs[0..] == vs;
      assert names[..0] == [] && vs[..0] == [];
    } else {
      var rest := Walk(t, names[i..], vs[i..]);
      var p := Passed(vs[0], names[0], t.media);
      var later := Passes(t, names[1..][..i - 1], vs[1..][..i - 1]);
      var tail := Walk(t, names[1..], vs[1..]);
      assert tail == Run(later + rest.events, rest.found) by {
        WalkSkip(t, names[1..], vs[1..], i - 1);
        assert names[1..][i - 1..] == names[i..] && vs[1..][i - 1..] == vs[i..];
      }
      assert Passes(t, names[..i], vs[..i]) == p + later by {
        assert names[..i][1..] == names[1..][..i - 1] && vs[..i][1..] == vs[1..][..i - 1];
        assert names[..i][0] == names[0] && vs[..i][0] == vs[0];
      }
      assert Walk(t, names, vs) == Run(p + tail.events, tail.found);
      AppendAssoc(p, later, rest.events);
    }
  }

  /** A walk over logs none of which is used passes them all. */
  lemma WalkPassesAll(t: Targets, names: seq<string>, vs: seq<Verdict>)
    requires |names| == |vs| && forall j :: 0 <= j < |vs| ==> !vs[j].Use?
    ensures Walk(t, names, vs) == Run(Passes(t, names, vs), false)
  {
    WalkSkip(t, names, vs, |vs|);
    assert names[..|names|] == names && vs[..|vs|] == vs;
    assert names[|names|..] == [] && vs[|vs|..] == [];
    assert Passes(t, names, vs) + [] == Passes(t, names, vs);
  }

  /** A log is processed exactly when some listed log carries the
      participant's tag, reads with a MEDIA_NAME column, has rows for the
      image, and the image exists. */
  lemma FoundIffUsable(inp: Inputs, listing: seq<string>)
    ensures Scan(inp, listing).found <==> exists i :: 0 <= i < |listing| && Usable(inp, listing[i])
  {
    var vs := Verdicts(inp, listing);
    assert forall i :: 0 <= i < |listing| ==> vs[i] == Judge(inp, listing[i]);
    WalkFoundIff(TargetsOf(inp), listing, vs);
  }

  /** The log processed is the first usable one in listing order; the run
      ends with its heatmap and then its scanpath, both drawn from that
      log's rows for the image. */
  lemma FirstUsableLogIsRendered(inp: Inputs, listing: seq<string>, i: nat)
    requires i < |listing| && Usable(inp, listing[i])
    requires forall j :: 0 <= j < i ==> !Usable(inp, listing[j])
    ensures var run := Scan(inp, listing);
      && run.found
      && |run.events| >= 3
      && run.events[|run.events| - 3..] == Render(TargetsOf(inp), listing[i], Judge(inp, listing[i]).rows)
      && forall e :: e in run.events[..|run.events| - 3] ==> e.LogError? || e.MissingImage?
  {
    var vs := Verdicts(inp, listing);
    var t := TargetsOf(inp);
    assert forall j :: 0 <= j < |listing| ==> vs[j] == Judge(inp, listing[j]);
    WalkSkip(t, listing, vs, i);
    WalkUse(t, listing, vs, i);
    var passed := Passes(t, listing[..i], vs[..i]);
    var events := Scan(inp, listing).events;
    assert events == passed + Render(t, listing[i], vs[i].rows);
    assert events[..|events| - 3] == passed;
  }

  /** Without a usable log nothing is rendered and the run ends with the
      not-found message. */
  lemma NothingRenderedWithoutUsableLog(inp: Inputs, listing: seq<string>)
    requires forall i :: 0 <= i < |listing| ==> !Usable(inp, listing[i])
    ensures var events := MainRun(inp, listing);
      && |events| > 0
      && events[|events| - 1] == NotFound(inp.participante, inp.media)
      && forall e :: e in events[..|events| - 1] ==> !e.Heatmap? && !e.Scanpath? && !e.Processing?
  {
    var vs := Verdicts(inp, listing);
    var t := TargetsOf(inp);
    var run := Scan(inp, listing);
    assert forall j :: 0 <= j < |vs| ==> !vs[j].Use? by {
      assert forall j :: 0 <= j < |listing| ==> vs[j] == Judge(inp, listing[j]);
    }
    WalkPassesAll(t, listing, vs);
    var events := run.events + [NotFound(inp.participante, inp.media)];
    assert MainRun(inp, listing) == events;
    assert events[..|events| - 1] == run.events;
  }

  /** Every log name the Python loader builds for this participant carries
      the tag the driver looks for, whatever the block. */
  lemma LoaderLogNamesMatch(block: string, participante: string)
    ensures IsSubstring(ParticipantTag(participante), DataLoader.LogFileName(block, participante))
  {
    var z := Zfill(participante, 2);
    assert DataLoader.LogFileName(block, participante) == block + ("_kh0" + z + "_") + "fixations.csv";
    InfixOccurs(block, "_kh0" + z + "_", "fixations.csv");
  }

  /** The heatmap and the scanpath never overwrite each other. */
  lemma OutputsDiffer(dirs: Dirs, media: string, participante: string)
    ensures HeatmapOutput(dirs, media, participante) != ScanpathOutput(dirs, media, participante)
  {
    var base := BaseOutputName(media, participante);
    var heatmap, scanpath := "heatmap_" + base + ".png", "scanpath_" + base + ".png";
    assert heatmap[0] == 'h' && scanpath[0] == 's';
    assert !StartsWith(heatmap, "/") && !StartsWith(scanpath, "/") by {
      assert heatmap[..1][0] == 'h' && scanpath[..1][0] == 's';
    }
    PathJoinDistinct(dirs.outputDir, heatmap, scanpath);
  }

  /** The outputs are named by the image's stem alone: two images that
      differ only after their first '.' (a .png and a .jpg of one stimulus)
      are written to the same files. */
  lemma SameStemSameOutputs(dirs: Dirs, stem: string, ext1: string, ext2: string, participante: string)
    requires '.' !in stem
    ensures HeatmapOutput(dirs, stem + "." + ext1, participante) == HeatmapOutput(dirs, stem + "." + ext2, participante)
    ensures ScanpathOutput(dirs, stem + "." + ext1, participante) == ScanpathOutput(dirs, stem + "." + ext2, participante)
  {
    BeforeFirstOfPrefix(stem, '.', ext1);
    BeforeFirstOfPrefix(stem, '.', ext2);
    assert stem + "." + ext1 == stem + ['.'] + ext1;
    assert stem + "." + ext2 == stem + ['.'] + ext2;
  }
}
