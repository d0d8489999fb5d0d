# UEyes eye-tracking analyzer — a Dafny model of its core

UEyes analyses eye-tracking recordings of people looking at user-interface
screenshots. This project models the parts of it that decide which data is
analysed, what is drawn and what is written:

- **dataset discovery** (`buscar_dados_participante`, module `DataLoader`):
  - filters the stimulus catalogue `info.csv` by image name and category;
  - names each participant's fixation log as `<block>_kh0<participant>_fixations.csv`;
  - keeps a log's rows for one image;
  - derives the participant id and the paths of the precomputed scanpath,
    heatmap, fixation-map and overlay images.
- **the scanpath renderer** (`gerar_scanpath`, module `Visualizer`): a line
  through the fixations and one numbered circle per fixation. The first is
  green, the last red, the others blue (module `Markers`, which the browser
  shares).
- **the prompt builder** (module `PromptBuilder`):
  - renders the fixation table as one `COLUMN = [v1;v2;...]` line per known column;
  - builds a quantitative summary;
  - fills the fixed prompt template sent to the language model.
- **the PDF report** (module `PdfGenerator`):
  - the composite gallery, a three-column grid of titled thumbnails on a white canvas;
  - the Latin-1 cleaning of the model's answer;
  - the names of the temporary image and of the PDF.
- **the visualisation driver** `run_visualizations.py` (module `RunVisualizations`):
  - walks the log directory for the first log of one participant that has
    fixations on one image;
  - asks for a heatmap and a scanpath of it;
  - reports when there is none.
- **the browser page** `script.js`:
  - loads the JSON Lines report file, fills the four filter selects, filters
    reports into cards and resets them (module `ReportBrowser`, class
    `ResultsPage`);
  - fetches and caches a report's fixation log (class `FixationView.LogCache`);
  - draws the heat layer and the scanpath layer on the card's canvas
    (`FixationView.RedrawAll`).

Module `Strings` gives the Python and JavaScript string operations the code
relies on, with the same edge cases:
- `zfill`, `padStart`, `split`, `join`, `replace`;
- the first-match `replace` of JavaScript and `trim`;
- `os.path.join` and `os.path.basename`;
- decimal rendering of integers.

The model follows the code. Neither renderer rejects an empty fixation
table: `gerar_scanpath` saves the unchanged image, and the page's scanpath
layer draws nothing.

Methods are the loops and state changes of the Python and JavaScript code, each proved equal to
a specification function. The lemmas state the properties of those functions.
Rows for a function that only computes name the lemma or method that states
its property.

## Model

| member | source | states |
|---|---|---|
| DataLoader.FilterInfo | eyetracking_analyzer/data_loader.py:19-22 | the kept catalogue rows are exactly the rows that pass the exact image-name filter and the case-insensitive category filter (a missing category never passes) |
| DataLoader.MediaMatches | eyetracking_analyzer/data_loader.py:19-20 | defines the image-name filter: no name given, or the exact name; DataLoader.FilterInfo and DataLoader.FilterInfoSingle state what it keeps |
| DataLoader.CategoryMatches | eyetracking_analyzer/data_loader.py:21-22 | defines the category filter: no category given, or a present category containing the query, both lower-cased; DataLoader.CategoryIgnoresCase states that ASCII case does not matter |
| DataLoader.FilterInfoAppend | eyetracking_analyzer/data_loader.py:19-22 | filtering a concatenation is the concatenation of the filtered parts, so the catalogue order and the repeated rows are kept |
| DataLoader.FilterInfoSingle | eyetracking_analyzer/data_loader.py:19-22 | one row is kept, once, exactly when it passes both filters |
| DataLoader.CategoryIgnoresCase | eyetracking_analyzer/data_loader.py:21-22 | changing the ASCII case of the query or of the catalogue category does not change whether a row passes |
| DataLoader.RowsFor | eyetracking_analyzer/data_loader.py:58 | the rows kept for an image are exactly the log's rows whose MEDIA_NAME is that image |
| DataLoader.RowsForAppend | eyetracking_analyzer/data_loader.py:58 | selecting from a concatenation concatenates the selections, so log order and repeats are kept |
| DataLoader.RowsForSingle | eyetracking_analyzer/data_loader.py:58 | one log row is kept exactly when its MEDIA_NAME is the image |
| DataLoader.BlockFiles | eyetracking_analyzer/data_loader.py:46-48 | the listed files kept are exactly those starting with `<block>_` and ending with `_fixations.csv` |
| DataLoader.BlockFilesAppend | eyetracking_analyzer/data_loader.py:46-48 | the files kept from a concatenated listing are those of each part in listing order, repeats included |
| DataLoader.BlockFilesSingle | eyetracking_analyzer/data_loader.py:46-48 | one listed file is kept exactly when it has the block prefix and the log suffix |
| DataLoader.LogFileName | eyetracking_analyzer/data_loader.py:43 | defines `<block>_kh0<zfill(participant, 2)>_fixations.csv`; its shape is stated by DataLoader.LogFileNameIsBlockLog and DataLoader.LogFileNameFields |
| DataLoader.LogFileNameIsBlockLog | eyetracking_analyzer/data_loader.py:43-47 | the name built for a participant is one the listing filter keeps for its block |
| DataLoader.Candidates | eyetracking_analyzer/data_loader.py:41-48 | defines the logs searched: the participant's own log when one is given, otherwise the block's logs from the listing; DataLoader.ListBlockLogs proves the scan equal to it |
| DataLoader.ParticipantId | eyetracking_analyzer/data_loader.py:57 | defines the id read from a log path, None where the name has no second field; DataLoader.ParticipantIdRoundTrip states what it gives back |
| DataLoader.ScanpathPath | eyetracking_analyzer/data_loader.py:63 | defines the scanpath image path; DataLoader.DerivedFileNames states its file name |
| DataLoader.HeatmapPath | eyetracking_analyzer/data_loader.py:64 | defines the heatmap path; DataLoader.DerivedFileNames states its file name |
| DataLoader.FixmapPath | eyetracking_analyzer/data_loader.py:65 | defines the fixation-map path; DataLoader.DerivedFileNames states its file name |
| DataLoader.OverlayHeatmapPath | eyetracking_analyzer/data_loader.py:67 | defines the overlay path; DataLoader.DerivedFileNames states its file name |
| DataLoader.MakeDataset | eyetracking_analyzer/data_loader.py:69-80 | defines the record appended for one log; DataLoader.MakeDatasetSound states what it carries |
| DataLoader.RecordFor | eyetracking_analyzer/data_loader.py:50-82 | defines the dataset one log yields: none for a missing, unreadable or column-less log, a name without a second field, or no rows for the image; DataLoader.RecordForSound states it |
| DataLoader.Search | eyetracking_analyzer/data_loader.py:13-85 | defines the whole result, catalogue order then log order; DataLoader.BuscarDadosParticipante is proved equal to it, DataLoader.SearchSound and DataLoader.SearchParticipant state its properties |
| DataLoader.ListBlockLogs | eyetracking_analyzer/data_loader.py:46-48 | the directory scan returns the block's logs joined to the log directory, in listing order |
| DataLoader.ReadLogs | eyetracking_analyzer/data_loader.py:50-82 | reading the candidate logs gives, in order, one dataset per log that exists, reads, has a participant field and a MEDIA_NAME column and has rows for the image; the others are skipped |
| DataLoader.BuscarDadosParticipante | eyetracking_analyzer/data_loader.py:13-85 | the loader returns exactly the search specification: catalogue order, then log order; nothing when info.csv is missing |
| DataLoader.SearchSound | eyetracking_analyzer/data_loader.py:19-80 | every dataset returned has a catalogue row that passes both filters and whose image exists; it carries that row's image name, category, block zero-filled to two and the image, scanpath, heatmap, fixation-map and overlay paths derived from them; it was read from one of the row's candidate logs, whose name gives its participant id and whose rows of the image are exactly its rows (at least one) |
| DataLoader.SearchParticipant | eyetracking_analyzer/data_loader.py:43-57 | with a digit-only participant given, every dataset returned carries that participant zero-filled to two digits (for blocks without '_' or '/') |
| DataLoader.RecordsForRowsSound | eyetracking_analyzer/data_loader.py:31-80 | the datasets built for filtered catalogue rows are sound, by induction over the rows |
| DataLoader.RecordsFromLogsSound | eyetracking_analyzer/data_loader.py:50-80 | the datasets built from any list of candidate logs for a selected row with an existing image are sound |
| DataLoader.RecordForSound | eyetracking_analyzer/data_loader.py:55-80 | the dataset one candidate log yields, if any, is sound |
| DataLoader.MakeDatasetSound | eyetracking_analyzer/data_loader.py:63-80 | a record built for a selected row from a candidate log's non-empty selection is sound |
| DataLoader.ParticipantIdRoundTrip | eyetracking_analyzer/data_loader.py:43-57 | for a numeric participant, the id read back from the log path the loader builds is the zero-filled participant |
| DataLoader.LogFileNameFields | eyetracking_analyzer/data_loader.py:43 | a log name splits at '_' into block, `kh0`+participant and `fixations.csv` |
| DataLoader.ThreeFields | eyetracking_analyzer/data_loader.py:57 | three fields joined by a separator they do not contain split back into those fields |
| DataLoader.StripKh0 | eyetracking_analyzer/data_loader.py:57 | removing `kh0` from `kh0`+z leaves z when z does not contain `kh0` |
| DataLoader.PaddedDigits | eyetracking_analyzer/data_loader.py:43 | a zero-filled numeric participant is digits only, so it contains no '_', no '/' and no `kh0` |
| DataLoader.ZfillDigits | eyetracking_analyzer/data_loader.py:33 | zero-filling digits gives digits |
| DataLoader.DigitsHaveNoKh0 | eyetracking_analyzer/data_loader.py:57 | a digit string does not contain `kh0` |
| DataLoader.DerivedFileNames | eyetracking_analyzer/data_loader.py:63-67 | the heatmap and fixation-map paths end in the image name, the overlay path in `overlay_`+image name, the scanpath path in `<id>.png` |
| Markers.RoleOf | eyetracking_analyzer/visualizer.py:73-78 | a marker is the start exactly at index 0, the end exactly at the last index of two or more, interior otherwise |
| Markers.RoleColor | eyetracking_analyzer/visualizer.py:73-78 | every marker colour is opaque |
| Markers.RoleColorInjective | eyetracking_analyzer/visualizer.py:73-78 | the three roles have three different colours |
| Markers.RolesOfSequence | eyetracking_analyzer/visualizer.py:72-78 | of n markers exactly the first is the start; a single marker is never the end; with two or more exactly the last is the end |
| Visualizer.ToPixel | eyetracking_analyzer/visualizer.py:67 | defines the scaling of a fixation to pixels; Visualizer.PixelInImage states that it stays inside the image |
| Visualizer.MarkerFor | eyetracking_analyzer/visualizer.py:72-87 | defines marker i; Visualizer.MarkerGeometry, Visualizer.MarkerColours and Visualizer.LabelsAreOrdinals state its circle, colour and label |
| Visualizer.ScanpathDrawing | eyetracking_analyzer/visualizer.py:65-87 | defines what is drawn; Visualizer.DrawingFollowsRows and Visualizer.EmptyDrawsNothing state its line and markers |
| Visualizer.GerarScanpath | eyetracking_analyzer/visualizer.py:50-93 | the renderer saves, at the image's size, the drawing of the rows; it fails (caught) when the image cannot be opened, when a non-empty table lacks FPOGX or FPOGY, or when the save fails |
| Visualizer.DrawingFollowsRows | eyetracking_analyzer/visualizer.py:65-70 | one marker per row; a 3-wide line of the line colour exactly when there are two or more fixations, through every fixation scaled to pixels |
| Visualizer.EmptyDrawsNothing | eyetracking_analyzer/visualizer.py:69-72 | an empty table draws no line and no marker |
| Visualizer.MarkerColours | eyetracking_analyzer/visualizer.py:72-78 | the first marker is green, the last of two or more red, every other blue |
| Visualizer.MarkerGeometry | eyetracking_analyzer/visualizer.py:80-87 | each circle is centred on its fixation with diameter twice the radius and a white 2-wide outline; its label's measured box is centred on the fixation |
| Visualizer.LabelsAreOrdinals | eyetracking_analyzer/visualizer.py:83 | the label of marker i reads back as i + 1, so the labels are distinct |
| Visualizer.PixelInImage | eyetracking_analyzer/visualizer.py:66-67 | a normalised fixation in [0, 1] lands inside the image |
| Visualizer.ThreeFixationScenario | eyetracking_analyzer/visualizer.py:50-93 | three fixations on a 1000 x 1000 image give the expected line, circles, colours and labels |
| PdfGenerator.GridRows | eyetracking_analyzer/pdf_generator.py:28 | the grid has the fewest rows of three that hold all images, and no row for no image |
| PdfGenerator.CanvasWidth | eyetracking_analyzer/pdf_generator.py:29 | defines the canvas width; PdfGenerator.CanvasConstants and PdfGenerator.CanvasFitsGrid state its value and fit |
| PdfGenerator.CanvasHeight | eyetracking_analyzer/pdf_generator.py:30 | defines the canvas height; PdfGenerator.CanvasConstants and PdfGenerator.CanvasFitsGrid state its value and fit |
| PdfGenerator.CanvasConstants | eyetracking_analyzer/pdf_generator.py:29-30 | the canvas is 2540 wide; its height is 670 per grid row plus 50, which is also the height with no image |
| PdfGenerator.CanvasFitsGrid | eyetracking_analyzer/pdf_generator.py:29-30 | the canvas ends one padding after the third column and after the last row's thumbnail |
| PdfGenerator.CursorStep | eyetracking_analyzer/pdf_generator.py:64-68 | after every third image the cursor moves to the next row's first column, otherwise one column right |
| PdfGenerator.Layout | eyetracking_analyzer/pdf_generator.py:45-68 | defines the composite: the canvas and one cell per entry at the cursor's place; PdfGenerator.CriarImagemComposta is proved to build it, PdfGenerator.CellInsideCanvas and PdfGenerator.CellsDisjoint state its geometry |
| PdfGenerator.CriarImagemComposta | eyetracking_analyzer/pdf_generator.py:19-76 | the composite succeeds exactly when every image opens (or is missing) and the save works; each cell is where the cursor places it |
| PdfGenerator.CellInsideCanvas | eyetracking_analyzer/pdf_generator.py:29-68 | every cell with its title and thumbnail lies inside the canvas, one padding from its edges |
| PdfGenerator.CellsDisjoint | eyetracking_analyzer/pdf_generator.py:46-68 | two different cells never overlap |
| PdfGenerator.PastedFitsCell | eyetracking_analyzer/pdf_generator.py:49-61 | each image is pasted below its title, a thumbnail fits 800 x 600, a placeholder stands exactly for a missing file |
| PdfGenerator.GalleryEntries | eyetracking_analyzer/pdf_generator.py:86-92 | the gallery holds the base image, heatmap, overlay, scanpath and fixation map, in that order |
| PdfGenerator.TempBaseName | eyetracking_analyzer/pdf_generator.py:95 | defines the temporary name; PdfGenerator.TempBaseNameHasNoDot states it |
| PdfGenerator.TempBaseNameHasNoDot | eyetracking_analyzer/pdf_generator.py:95 | the temporary name has no '.' when the participant has none |
| PdfGenerator.PdfFileName | eyetracking_analyzer/pdf_generator.py:130 | defines the PDF name; PdfGenerator.PdfFileNameFromTempName states it |
| PdfGenerator.PdfFileNameFromTempName | eyetracking_analyzer/pdf_generator.py:130 | the PDF name is `Relatorio_Final_` + the temporary name without `temp_` + `.pdf`; when the rest of the name holds no `temp_` that is just the prefix removed |
| PdfGenerator.Latin1Safe | eyetracking_analyzer/pdf_generator.py:118 | the cleaned text has the same length and only Latin-1 characters; every Latin-1 character is kept and every other becomes '?' |
| PdfGenerator.Latin1SafeIdempotent | eyetracking_analyzer/pdf_generator.py:118 | cleaning twice is cleaning once |
| PdfGenerator.CriarRelatorioPdf | eyetracking_analyzer/pdf_generator.py:79-141 | the report carries the temporary and final names, the media name and participant as given, the category as Python prints it ("nan" for an empty cell), the cleaned answer, and a gallery exactly when the composite was made, laid out from the five entries |
| PromptBuilder.ValueTexts | eyetracking_analyzer/prompt_builder.py:44 | one formatted text per value |
| PromptBuilder.Lines | eyetracking_analyzer/prompt_builder.py:41-48 | at most one line per known column |
| PromptBuilder.FormatarDadosOcularesComoListas | eyetracking_analyzer/prompt_builder.py:20-51 | an empty table gives the no-data message; otherwise the column lines joined by newlines |
| PromptBuilder.ListsRoundTrip | eyetracking_analyzer/prompt_builder.py:20-51 | the lists text of a non-empty table parses back into the present known columns, in format order, with their formatted values |
| PromptBuilder.LinesRoundTrip | eyetracking_analyzer/prompt_builder.py:41-48 | every column line is non-empty, has no newline, and decodes to its column and values |
| PromptBuilder.LineRoundTrip | eyetracking_analyzer/prompt_builder.py:46-48 | a `COL = [v1;...;vn]` line decodes to COL and its values, and has no newline |
| PromptBuilder.DecodeBracketed | eyetracking_analyzer/prompt_builder.py:48 | a line `name = [body]` decodes to the name and the body split at ';' |
| PromptBuilder.ExpectedColumns | eyetracking_analyzer/prompt_builder.py:41-42 | the listed columns are exactly those that are both known and present |
| PromptBuilder.SummaryTail | eyetracking_analyzer/prompt_builder.py:13-18 | the summary lines after the count start on a new line |
| PromptBuilder.SumarizarDadosOculares | eyetracking_analyzer/prompt_builder.py:4-18 | defines the summary; PromptBuilder.SummaryStatesCount and PromptBuilder.EmptyTablePrompt state it for non-empty and empty tables |
| PromptBuilder.SummaryStatesCount | eyetracking_analyzer/prompt_builder.py:4-18 | the summary of a non-empty table starts with its heading and its first line reads back as the number of fixations |
| PromptBuilder.PromptTemplateDelimited | eyetracking_analyzer/prompt_builder.py:77-84 | in the fixed template each header label opens a new line, so the header fields are newline-delimited |
| PromptBuilder.ConstruirPromptCompleto | eyetracking_analyzer/prompt_builder.py:54-107 | defines the prompt on the fixed template; PromptBuilder.PromptEmbedsFields, PromptBuilder.PromptCarriesData and PromptBuilder.EmptyTablePrompt state what it holds |
| PromptBuilder.PromptEmbedsFields | eyetracking_analyzer/prompt_builder.py:77-84 | the prompt starts with the template head and the media, category and participant read back from their labelled lines |
| PromptBuilder.PromptCarriesData | eyetracking_analyzer/prompt_builder.py:54-107 | the prompt contains the summary under its heading and the lists under theirs, and ends with the column descriptions and the requested analysis |
| PromptBuilder.EmptyTablePrompt | eyetracking_analyzer/prompt_builder.py:4-25 | for an empty table the prompt carries both no-data messages under their headings |
| PromptBuilder.FillFields | eyetracking_analyzer/prompt_builder.py:77-84 | on any delimited template the header fields read back from their positions |
| PromptBuilder.FillSections | eyetracking_analyzer/prompt_builder.py:85-107 | on any template the filled text contains both sections and ends with the tail |
| ReportBrowser.FieldValue | script.js:51-55 | the participant, image and block a filter compares against are always text; only the category can be null |
| ReportBrowser.OptionText | script.js:36 | an option shows a text value as itself and a null as `"null"` |
| ReportBrowser.WithSelected | script.js:222 | changing one select sets its value and keeps the other three |
| ReportBrowser.ShownByField | script.js:51-56 | a report is shown exactly when each select is `all` or strictly equals the report's field; a null category never equals a selected value |
| ReportBrowser.Filtered | script.js:51-56 | the shown reports are exactly the loaded reports that pass all four selects |
| ReportBrowser.FilteredAppend | script.js:51-56 | filtering keeps report order |
| ReportBrowser.FilteredCleared | script.js:223-226 | with every select at `all`, all reports are shown |
| ReportBrowser.CountTextReadsBack | script.js:59 | the result count text starts with the number of shown reports |
| ReportBrowser.CardId | script.js:62 | defines the card id; ReportBrowser.CardIdDots and ReportBrowser.CardIdOfFileName state it |
| ReportBrowser.CardIdDots | script.js:62 | the card id replaces only the first '.' of the media name |
| ReportBrowser.CardIdOfFileName | script.js:62 | for `stem.ext` with a dot-free stem, the card id is `card-<participant>-<stem>_<ext>` |
| ReportBrowser.Sort | script.js:36 | defines the default string sort as insertion; ReportBrowser.SortIsSortedPermutation states it |
| ReportBrowser.Options | script.js:36 | defines the options as the sorted set of values; ReportBrowser.OptionsAreSortedValues states it |
| ReportBrowser.OptionsAreSortedValues | script.js:36 | the options are strictly sorted and are exactly the distinct values |
| ReportBrowser.SortIsSortedPermutation | script.js:36 | the sort gives a sorted permutation and keeps distinctness |
| ReportBrowser.Dedup | script.js:36 | the set keeps each value once and every value |
| ReportBrowser.StrictlySortedUnique | script.js:36 | two strictly sorted lists with the same elements are equal, so the options do not depend on report order |
| ReportBrowser.InsertMultiset | script.js:36 | insertion adds exactly one element |
| ReportBrowser.InsertSorted | script.js:36 | insertion keeps a list sorted |
| ReportBrowser.InsertDistinct | script.js:36 | inserting a new value keeps a list without repeats |
| ReportBrowser.LexTotal | script.js:36 | the string order is total on different strings |
| ReportBrowser.LexTransitive | script.js:36 | the string order is transitive |
| ReportBrowser.LexAsymmetric | script.js:36 | the string order is asymmetric |
| ReportBrowser.LeAntisymmetric | script.js:36 | two strings each at most the other are equal |
| ReportBrowser.ValuesOf | script.js:38-41 | the values of a field are exactly those some report has |
| ReportBrowser.OptionsMatchReports | script.js:34-56 | every report's field text is an option; an option chosen alone shows some report exactly when some report holds that value as text, and every report it shows holds it (or the option is `all`) |
| ReportBrowser.NullCategoryOptionShowsNothing | script.js:36-54 | a null category is offered as the option `"null"`, and choosing it shows no report unless some category is the text `"null"` |
| ReportBrowser.ParseAll | script.js:23 | parsing succeeds with one report per line, or fails exactly when some line does not parse |
| ReportBrowser.LoadReports | script.js:18-28 | defines the load: no reports when the response fails or a line does not parse; ReportBrowser.JsonlRoundTrip and ReportBrowser.BlankFileFails state it |
| ReportBrowser.JsonlRoundTrip | script.js:23 | lines joined by newlines, with trailing white space, split back into the same lines |
| ReportBrowser.BlankFileFails | script.js:22-28 | a blank report file fails to load (the empty line does not parse) |
| ReportBrowser.ResultsPage.constructor | script.js:12 | the page starts with no reports, cleared selects, no options, no cards |
| ReportBrowser.ResultsPage.DisplayResults | script.js:45-86 | the container is emptied, so a load error goes, then holds the cards of the filtered reports; the count is theirs; reports, selects and options are unchanged |
| ReportBrowser.ResultsPage.PopulateFilterSelects | script.js:34-42 | each select gains the sorted distinct values of its field; nothing else changes |
| ReportBrowser.ResultsPage.LoadInitialData | script.js:16-31 | on a failed load the error is shown and the results are emptied; otherwise reports are stored, options added and results displayed in place of any earlier error |
| ReportBrowser.ResultsPage.ChangeFilter | script.js:222 | changing a select sets it, keeps the others and redisplays, which clears a load error |
| ReportBrowser.ResultsPage.Reset | script.js:223-226 | reset clears every select and shows all reports, which clears a load error |
| FixationView.BrowserLogName | script.js:90 | defines the log name the page asks for; FixationView.SameLogNameAsLoader and FixationView.SignedParticipantDiffers compare it with the loader's |
| FixationView.SameLogNameAsLoader | script.js:90 | for unsigned block and participant the page asks for the same log name the loader builds |
| FixationView.SignedParticipantDiffers | script.js:90 | for a signed participant `padStart` and `zfill` give different log names |
| FixationView.TrimEach | script.js:99 | trimming keeps the number of headers |
| FixationView.CellIsTrimmedValue | script.js:103 | a cell is the trimmed value at its header's position, or empty where the line is short |
| FixationView.RowObject | script.js:102-105 | defines the record the `reduce` builds; FixationView.RowObjectKeys and FixationView.RowObjectLastWins state its keys and values |
| FixationView.RowObjectKeys | script.js:102-105 | a record has exactly the header names as keys |
| FixationView.RowObjectLastWins | script.js:102-105 | under a repeated header the last column's cell wins |
| FixationView.ReduceRow | script.js:102-105 | the reduce loop builds the record of the line |
| FixationView.ParseCsv | script.js:98-106 | one record per line after the header |
| FixationView.ParseCsvText | script.js:98-106 | the parse loop builds the records of the CSV text |
| FixationView.LineRecord | script.js:100-105 | a line of comma-free cells gives a record whose header cell is the trimmed cell, or empty past the end of the line |
| FixationView.MatchingRows | script.js:92 | the rows returned are exactly the cached rows of the report's media |
| FixationView.MatchingRowsAppend | script.js:92 | filtering a concatenation concatenates the filtered parts, so log order and repeats are kept |
| FixationView.MatchingRowsSingle | script.js:92 | one row is returned exactly when it is of the report's media |
| FixationView.CacheStep | script.js:91-112 | a cached log is used, even an empty one; a fetched log is stored and other entries are kept; a failure stores nothing; every row returned is of the report's media |
| FixationView.Lookup | script.js:89-113 | defines one call: the log name, then the cache step with the fetch consulted only when the name is not cached; FixationView.CachedLogServesLaterCalls, FixationView.RepeatIsStable and FixationView.FailureIsRetried state it |
| FixationView.CachedLogServesLaterCalls | script.js:91-108 | once a log is cached, a later report of the same block and participant is served from the cache without fetching |
| FixationView.RepeatIsStable | script.js:89-113 | asking twice for the same report gives the same rows and cache |
| FixationView.FailureIsRetried | script.js:96-112 | a failed fetch gives no rows and caches nothing, so the next call fetches again |
| FixationView.LogCache.constructor | script.js:13 | the cache starts empty |
| FixationView.LogCache.GetFixationData | script.js:89-113 | one call updates the cache and returns the rows as the cache step specifies |
| FixationView.Coords | script.js:176-179 | one canvas coordinate per fixation |
| FixationView.HeatData | script.js:161-165 | the heat points are exactly the coordinates with two numbers, each with weight 1 |
| FixationView.HeatDataAppend | script.js:161-165 | the heat data of a concatenation is the concatenation of the heat data: fixation order and multiplicity are kept |
| FixationView.HeatDataSingle | script.js:161-165 | one fixation gives one point of weight 1 when both coordinates are numbers, none otherwise |
| FixationView.ScanpathFor | script.js:181-205 | defines the scanpath layer; FixationView.DrawScanpath is proved to draw it, FixationView.SameMarkersAsVisualizer states its markers |
| FixationView.DrawScanpath | script.js:181-205 | the drawing loop builds the scanpath layer of the coordinates |
| FixationView.RedrawAll | script.js:141-207 | a container without area leaves the canvas unchanged; otherwise the canvas is resized and redrawn with the layers that are switched on |
| FixationView.LayersAreIndependent | script.js:155-206 | a layer is drawn exactly when it is switched on (the scanpath also needs fixations), and switching one off does not change the other |
| FixationView.LayersTreatNaNDifferently | script.js:161-181 | with both layers on and fixations present: the scanpath has one marker per fixation, one without numbers included (its centre is missing), so the later labels still count it; the heat layer has no more points than fixations, and every heat point lies on the scanpath |
| FixationView.SameMarkersAsVisualizer | script.js:192-205 | the page's markers have the Python renderer's centres, colours and labels for the same fixations |
| RunVisualizations.Judge | run_visualizations.py:21-33 | a log is used only when its name carries the participant's tag, it has rows for the image, all of that image, and the base image exists |
| RunVisualizations.InspectLog | run_visualizations.py:21-33 | a log is judged in the order of the driver's checks: participant tag, readability and column, rows for the image, base image |
| RunVisualizations.ProcessLog | run_visualizations.py:21-45 | one pass of the loop: a usable log is rendered (announcement, heatmap, scanpath) and stops the scan; any other log adds only its message (a read error or the missing image) and the scan goes on |
| RunVisualizations.BaseOutputName | run_visualizations.py:39 | defines the stem of the two outputs; RunVisualizations.SameStemSameOutputs states what it depends on |
| RunVisualizations.HeatmapOutput | run_visualizations.py:40 | defines the heatmap output path; RunVisualizations.OutputsDiffer states that it differs from the scanpath's |
| RunVisualizations.ScanpathOutput | run_visualizations.py:41 | defines the scanpath output path; RunVisualizations.OutputsDiffer states that it differs from the heatmap's |
| RunVisualizations.RenderLog | run_visualizations.py:35-45 | the body for the log used announces it, then asks for the heatmap and the scanpath of its rows with the base image and the two output paths |
| RunVisualizations.MainRun | run_visualizations.py:19-51 | defines the run: the loop's events, then the not-found message when no log was processed; RunVisualizations.ProcessParticipantMedia is proved equal to it |
| RunVisualizations.ProcessParticipantMedia | run_visualizations.py:9-51 | the driver's loop produces exactly the specified run |
| RunVisualizations.WalkFoundIff | run_visualizations.py:19-46 | the loop finds a log exactly when some verdict is usable |
| RunVisualizations.Passes | run_visualizations.py:27-33 | the logs passed over produce only read errors and missing-image messages |
| RunVisualizations.WalkSkip | run_visualizations.py:20-46 | before the first usable log the loop only reports the logs it passes |
| RunVisualizations.WalkPassesAll | run_visualizations.py:20-48 | with no usable log the loop passes every log and finds nothing |
| RunVisualizations.WalkPast | run_visualizations.py:20-33 | a log that is not used adds its messages and the loop goes on |
| RunVisualizations.StepPast | run_visualizations.py:20-33 | the loop invariant (events so far plus the rest of the walk make up the whole run) is kept past a log that is not used |
| RunVisualizations.WalkUse | run_visualizations.py:34-46 | a usable log is rendered and stops the loop |
| RunVisualizations.FoundIffUsable | run_visualizations.py:19-46 | the driver processes a log exactly when some listed log is usable |
| RunVisualizations.FirstUsableLogIsRendered | run_visualizations.py:20-46 | the first usable log, and no other, is rendered, as the last three events; everything before is error messages |
| RunVisualizations.NothingRenderedWithoutUsableLog | run_visualizations.py:50-51 | with no usable log the run ends with the not-found message and renders nothing |
| RunVisualizations.LoaderLogNamesMatch | run_visualizations.py:22 | every log name the loader builds for a participant carries the driver's participant tag |
| RunVisualizations.OutputsDiffer | run_visualizations.py:39-41 | the heatmap and scanpath outputs never overwrite each other |
| RunVisualizations.SameStemSameOutputs | run_visualizations.py:39-41 | two images with the same stem share their output paths |
| Strings.Zfill | eyetracking_analyzer/data_loader.py:33 | Python zfill: the result is at least the width long, zeros go after a leading sign, and the digits are kept |
| Strings.PadStart | script.js:90 | JavaScript padStart: the text is kept at the end and padded in front to the width |
| Strings.ZfillIsPadStart | script.js:90 | zfill and padStart with '0' agree on unsigned text, and differ on signed text they pad |
| Strings.Split | eyetracking_analyzer/data_loader.py:57 | the parts have no separator and join back into the text |
| Strings.SplitOfJoin | eyetracking_analyzer/prompt_builder.py:46 | parts without the separator, joined, split back into the same parts |
| Strings.Join | eyetracking_analyzer/prompt_builder.py:46-51 | defines `sep.join(parts)`; Strings.SplitOfJoin states that splitting undoes it for separator-free parts, Strings.Split that splitting and joining give the text back |
| Strings.BeforeFirst | run_visualizations.py:39 | `split(c)[0]`: the text before the first separator, the whole text when there is none |
| Strings.ReplaceAllAbsent | eyetracking_analyzer/data_loader.py:57 | replacing a pattern the text lacks changes nothing |
| Strings.ReplaceAll | eyetracking_analyzer/data_loader.py:57 | defines Python `str.replace` (every occurrence, left to right); Strings.ReplaceAllAbsent, DataLoader.StripKh0, Strings.ReplaceCharAll and PdfGenerator.PdfFileNameFromTempName state what it gives on the texts the program passes |
| Strings.ReplaceCharAll | eyetracking_analyzer/pdf_generator.py:95 | replacing every '.' by '_' keeps length and leaves no '.' |
| Strings.ReplaceFirst | script.js:62 | JavaScript replace with a string pattern changes only the first occurrence |
| Strings.ReplaceFirstCount | script.js:62 | replacing the first occurrence removes exactly one |
| Strings.Lower | eyetracking_analyzer/data_loader.py:22 | ASCII lower-casing: no capital letter is left, each capital A-Z becomes its small letter, every other character stays |
| Strings.LowerIdempotent | eyetracking_analyzer/data_loader.py:22 | lower-casing twice is lower-casing once |
| Strings.CaseVariantLower | eyetracking_analyzer/data_loader.py:22 | two texts that differ only in the case of ASCII letters lower-case to the same text |
| Strings.Trim | script.js:23 | the trimmed text is the infix of the text that starts at its first non-white-space character (everything before it is white space) and after which only white space follows; it neither starts nor ends with white space |
| Strings.TrimDropsTrailingSpace | script.js:23 | trimming removes trailing white space and keeps the rest |
| Strings.TrimmedLines | script.js:23 | `trim().split('\n')` gives at least one line and no line holds a newline |
| Strings.TrimmedLinesRejoin | script.js:23 | the lines join back with newlines into the trimmed text |
| Strings.CategoryText | eyetracking_analyzer/pdf_generator.py:112 | a category prints as itself, an empty cell as "nan" |
| Strings.PathJoin | eyetracking_analyzer/data_loader.py:35 | an absolute name is the whole result; otherwise the path starts with the directory and ends with the name, and holds one character more, a '/', exactly when the directory is non-empty and does not already end with '/' |
| Strings.PathJoinDistinct | run_visualizations.py:40-41 | joining two different relative names to one directory gives two different paths |
| Strings.Basename | eyetracking_analyzer/data_loader.py:57 | the base name has no '/', ends the path, and is either the whole path or preceded by a '/', so it is the longest '/'-free end |
| Strings.BasenameOfJoin | eyetracking_analyzer/data_loader.py:57 | the base name of a joined path is the name joined |
| Strings.NatToString | eyetracking_analyzer/visualizer.py:83 | a number renders as digits without a leading zero |
| Strings.ParseNatToString | eyetracking_analyzer/visualizer.py:83 | the decimal text reads back as the number |
| Strings.NatToStringInjective | eyetracking_analyzer/visualizer.py:83 | different numbers render differently |

## Left out

- `gerar_heatmap` (the kernel density plot and alpha compositing) and every pixel, font and colour blend: the renderers are modelled as what they draw, not as images.
- The simpleheat library's rendering: the heat layer is its points and its parameters (maximum 3, radius 30, blur 20).
- model_interface.py, reporter.py, main.py and config.py are not part of this model. The directories of config.py are inputs.
- File I/O, `os.listdir`, `os.path.exists`, `pd.read_csv`, `fetch`, JSON parsing, `parseFloat`, PIL's `thumbnail` size and `textbbox` are inputs or function parameters. `os.makedirs` and the printed messages are not modelled, except the driver's messages, which are events.
- FPDF page layout and the PDF bytes: the report is modelled as its file names, its cleaned text and its gallery. A failing `pdf.output` is caught and only printed, so it changes nothing modelled.
- Float formatting (`{:.4f}`, `{:.2f}`, `{:.3f}`) and the FPOGD sum and mean are parameters of the prompt builder.
- PromptBuilder.SumarizarDadosOculares: the KeyError that prompt_builder.py:10 raises for a non-empty table without an FPOGD column is not modelled, because the sum and the mean are parameters. Nothing in the prompt builder catches it.
- DataLoader.BlockFiles, RunVisualizations.MainRun: the directory listing is an input, so the FileNotFoundError that `os.listdir` raises for a missing log directory (data_loader.py:46, run_visualizations.py:20) is not modelled. Neither caller catches it.
- Visualizer.GerarScanpath, DataLoader.Search: numeric and text cells are modelled as always present. pandas reads an empty FPOGX or FPOGY cell as NaN. In `gerar_scanpath` that NaN reaches the label position (visualizer.py:87), where the drawing raises; the handler at visualizer.py:92 catches it and nothing is saved, while the model saves the drawing. An empty `Image Name` cell makes `os.path.join` raise a TypeError at data_loader.py:35 that nothing catches; the model has no such input. The page's scanpath does model NaN (FixationView.Coords).
- Exceptions that are caught are modelled as the outcomes they lead to: a log that cannot be read or has no MEDIA_NAME column, a log name without a second field, an image that cannot be opened, a table without FPOGX or FPOGY in `gerar_scanpath`, and a failed save.
- DOM creation, `innerHTML`, event listeners, `ResizeObserver`, `requestAnimationFrame` and `async` ordering. `generateVisualizations` (creating the checkbox and canvas elements) is not modelled beyond `redrawAll` and `getFixationData`.
- DataLoader.CategoryMatches: pandas `str.contains(case=False)` is a regular-expression search with Unicode case folding. It is modelled as a literal substring test with ASCII lower-casing.
- Strings.ReplaceAll: requires a non-empty pattern. Every call in data_loader.py and pdf_generator.py uses one (`kh0`, `.`, `temp_`).
- ReportBrowser.LexLess: JavaScript's default sort compares UTF-16 code units. It is modelled as code-point order on Dafny characters, which agrees below U+10000.
- ReportBrowser.Shown: the loose `r.bloco == bVal` is modelled as string equality. The block, participant and image name are always text; the category is text or null (an empty catalogue cell).
- ReportBrowser.PopulateFilters: a null category and the text `"null"` are two entries of JavaScript's `Set`, so the page would list the option `"null"` twice. The model collects option texts and lists it once. Both options select the same value, so what is shown does not differ.
- FixationView.SameLogNameAsLoader: stated for unsigned block and participant only. For signed text `padStart` and `zfill` disagree (FixationView.SignedParticipantDiffers).
- FixationView.DrawScanpath: the `coords.length === 0` return in `redrawAll` is modelled, but it cannot be reached. The page never creates a canvas for a card without fixations, because `generateVisualizations` returns first (script.js:117).
- FixationView.Lookup: the page's `fetch` is modelled as consulted only when the log is not cached, as the early return of `getFixationData` does. A cached empty log is used as it is. In JavaScript an array is always truthy, so the cache test only asks whether the key is present.
- PromptBuilder.PromptEmbedsFields, PromptBuilder.PromptCarriesData, PromptBuilder.EmptyTablePrompt: stated for every newline-delimited template. PromptBuilder.PromptTemplateDelimited shows that the fixed template is one.
- DataLoader.BuscarDadosParticipante: the loop over catalogue rows and the loop over one row's logs are separate methods (DataLoader.ListBlockLogs, DataLoader.ReadLogs), each proved against its specification function.
- DataLoader.SearchParticipant: stated for blocks without '_' or '/'. For other blocks the participant field of the log name is not the second '_' field, and the id read back differs.
