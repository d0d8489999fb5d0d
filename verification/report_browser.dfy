/** The report browser page of script.js: loading the JSON Lines report file,
    filling the four filter selects, filtering the reports into cards, and
    the reset button. The page's mutable state (the loaded reports, the
    select values, the option lists, the result count and the cards in the
    results container) is the class `ResultsPage`; everything the page
    computes from that state is a function. JSON parsing is a parameter. */
module ReportBrowser {
  import opened Strings

  /* ---------------------------------------------------------------------- */
  /* Reports and filters                                                     */

  /** One record of the report file, with the fields the page reads. The
      category is None where the record holds `null`: the analysis writes an
      empty catalogue cell (NaN) that way. The other fields are always text. */
  datatype Report = Report(participante: string, mediaName: string, categoria: Option<string>,
                           bloco: string, resposta: string)

  /** The four filterable fields, in the order of the selects on the page. */
  datatype Field = ParticipanteField | ImagemField | CategoriaField | BlocoField

  /** The value a filter compares against: None for a null category. */
  function FieldValue(r: Report, k: Field): (v: Option<string>)
    ensures k != CategoriaField ==> v.Some?
  {
    match k
    case ParticipanteField => Some(r.participante)
    case ImagemField => Some(r.mediaName)
    case CategoriaField => r.categoria
    case BlocoField => Some(r.bloco)
  }

  /** The text and value of the option `new Option(v, v)` makes for a field
      value: a null becomes the string "null". */
  function OptionText(v: Option<string>): (t: string)
    ensures v.Some? ==> t == v.value
    ensures v.None? ==> t == "null"
  {
    if v.Some? then v.value else "null"
  }

  /** The option text of a report's field, as `populateFilters` collects it. */
  function FieldOf(r: Report, k: Field): string {
    OptionText(FieldValue(r, k))
  }

  /** The value every select starts with and returns to on reset. */
  const All := "all"

  /** The current values of the four selects. */
  datatype Filters = Filters(participante: string, imagem: string, categoria: string, bloco: string)

  const Cleared := Filters(All, All, All, All)

  function Selected(f: Filters, k: Field): string {
    match k
    case ParticipanteField => f.participante
    case ImagemField => f.imagem
    case CategoriaField => f.categoria
    case BlocoField => f.bloco
  }

  /** The filters after select k changes to v. */
  function WithSelected(f: Filters, k: Field, v: string): (g: Filters)
    ensures Selected(g, k) == v
    ensures forall j :: j != k ==> Selected(g, j) == Selected(f, j)
  {
    match k
    case ParticipanteField => f.(participante := v)
    case ImagemField => f.(imagem := v)
    case CategoriaField => f.(categoria := v)
    case BlocoField => f.(bloco := v)
  }

  /** The filters with only select k away from "all". */
  function SelectOnly(k: Field, v: string): Filters {
    WithSelected(Cleared, k, v)
  }

  /** One select lets a value through when it is "all" or strictly equal to
      it; a null never equals the string a select holds. */
  predicate Passes(selected: string, value: Option<string>) {
    selected == All || value == Some(selected)
  }

  /** The filter predicate of `displayResults`. */
  predicate Shown(f: Filters, r: Report) {
    && Passes(f.participante, Some(r.participante))
    && Passes(f.imagem, Some(r.mediaName))
    && Passes(f.categoria, r.categoria)
    && Passes(f.bloco, Some(r.bloco))
  }

  /** A report is shown exactly when every one of the four selects lets its
      field through. */
  lemma ShownByField(f: Filters, r: Report)
    ensures Shown(f, r) <==> forall k :: Passes(Selected(f, k), FieldValue(r, k))
  {
    if !Shown(f, r) {
      if !Passes(f.participante, Some(r.participante)) {
        assert !Passes(Selected(f, ParticipanteField), FieldValue(r, ParticipanteField));
      } else if !Passes(f.imagem, Some(r.mediaName)) {
        assert !Passes(Selected(f, ImagemField), FieldValue(r, ImagemField));
      } else if !Passes(f.categoria, r.categoria) {
        assert !Passes(Selected(f, CategoriaField), FieldValue(r, CategoriaField));
      } else {
        assert !Passes(Selected(f, BlocoField), FieldValue(r, BlocoField));
      }
    }
  }

  /** `allReports.filter(...)`: the shown reports, in file order. */
  function Filtered(reports: seq<Report>, f: Filters): (shown: seq<Report>)
    ensures forall r :: r in shown <==> r in reports && Shown(f, r)
    ensures |shown| <= |reports|
  {
    if reports == [] then []
    else
      var init := reports[..|reports| - 1];
      var last := reports[|reports| - 1];
      assert forall r :: r in reports <==> r in init || r == last;
      var rest := Filtered(init, f);
      if Shown(f, last) then rest + [last] else rest
  }

  /** Filtering keeps file order: the result for a concatenation is the
      concatenation of the results. */
  lemma {:induction false} FilteredAppend(a: seq<Report>, b: seq<Report>, f: Filters)
    ensures Filtered(a + b, f) == Filtered(a, f) + Filtered(b, f)
    decreases |b|
  {
    if b == [] {
      assert a + b == a;
    } else {
      var init := b[..|b| - 1];
      assert (a + b)[..|a + b| - 1] == a + init;
      assert (a + b)[|a + b| - 1] == b[|b| - 1];
      FilteredAppend(a, init, f);
    }
  }

  /** With every select on "all", every report is shown, in order and with
      its repetitions. */
  lemma {:induction false} FilteredCleared(reports: seq<Report>)
    ensures Filtered(reports, Cleared) == reports
  {
    if reports != [] {
      FilteredCleared(reports[..|reports| - 1]);
      assert reports == reports[..|reports| - 1] + [reports[|reports| - 1]];
    }
  }

  /* ---------------------------------------------------------------------- */
  /* Result count and cards                                                  */

  const CountSuffix := " " + "resultado(s) encontrado(s)."

  /** The text of the result counter. */
  function CountText(n: nat): string {
    NatToString(n) + CountSuffix
  }

  /** The counter's first word reads back as the number of shown reports. */
  lemma CountTextReadsBack(n: nat)
    ensures AllDigits(BeforeFirst(CountText(n), ' '))
    ensures ParseNat(BeforeFirst(CountText(n), ' ')) == n
  {
    var digits := NatToString(n);
    assert ' ' !in digits by {
      forall i | 0 <= i < |digits| ensures digits[i] != ' ' { assert IsDigit(digits[i]); }
    }
    assert CountText(n) == digits + [' '] + "resultado(s) encontrado(s).";
    BeforeFirstOfPrefix(digits, ' ', "resultado(s) encontrado(s).");
    ParseNatToString(n);
  }

  /** The element id of a report's visualisation container. JavaScript's
      `replace` with a string pattern replaces the first '.' only. */
  function CardId(r: Report): string {
    "card-" + r.participante + "-" + ReplaceFirst(r.mediaName, '.', '_')
  }

  /** The id keeps every '.' of the image name but its first. */
  lemma CardIdDots(r: Report)
    ensures Count(CardId(r), '.') ==
      Count(r.participante, '.') + Count(r.mediaName, '.') - (if '.' in r.mediaName then 1 else 0)
  {
    var media := ReplaceFirst(r.mediaName, '.', '_');
    CountAppend("card-" + r.participante + "-", media, '.');
    CountAppend("card-" + r.participante, "-", '.');
    CountAppend("card-", r.participante, '.');
    CountAbsent("card-", '.');
    CountAbsent("-", '.');
    if '.' in r.mediaName {
      ReplaceFirstCount(r.mediaName, '.', '_');
    }
  }

  /** For an image name `stem.ext` whose stem has no '.', the id ends in
      `stem_ext`. */
  lemma CardIdOfFileName(r: Report, stem: string, ext: string)
    requires '.' !in stem && r.mediaName == stem + "." + ext
    ensures CardId(r) == "card-" + r.participante + "-" + stem + "_" + ext
  {
    ReplaceFirstAfter(stem, '.', '_', ext);
  }

  /** One result card: the container id and the report it shows. */
  datatype Card = Card(id: string, report: Report)

  function CardsFor(reports: seq<Report>): seq<Card> {
    seq(|reports|, i requires 0 <= i < |reports| => Card(CardId(reports[i]), reports[i]))
  }

  /* ---------------------------------------------------------------------- */
  /* Filter options                                                          */

  /** JavaScript's default `sort` order on strings: lexicographic on
      characters, a proper prefix first. */
  predicate LexLess(a: string, b: string)
    decreases |a|
  {
    if a == [] then b != []
    else b != [] && (a[0] < b[0] || (a[0] == b[0] && LexLess(a[1..], b[1..])))
  }

  predicate Le(a: string, b: string) {
    a == b || LexLess(a, b)
  }

  lemma {:induction false} LexAsymmetric(a: string, b: string)
    requires LexLess(a, b)
    ensures !LexLess(b, a)
    decreases |a|
  {
    if a != [] && a[0] == b[0] {
      LexAsymmetric(a[1..], b[1..]);
    }
  }

  lemma {:induction false} LexTransitive(a: string, b: string, c: string)
    requires LexLess(a, b) && LexLess(b, c)
    ensures LexLess(a, c)
    decreases |a|
  {
    if a != [] && a[0] == b[0] && b[0] == c[0] {
      LexTransitive(a[1..], b[1..], c[1..]);
    }
  }

  lemma {:induction false} LexTotal(a: string, b: string)
    requires a != b
    ensures LexLess(a, b) || LexLess(b, a)
    decreases |a|
  {
    if a != [] && b != [] && a[0] == b[0] {
      assert a == [a[0]] + a[1..] && b == [b[0]] + b[1..];
      LexTotal(a[1..], b[1..]);
    }
  }

  lemma LeTransitive(a: string, b: string, c: string)
    requires Le(a, b) && Le(b, c)
    ensures Le(a, c)
  {
    if a != b && b != c {
      LexTransitive(a, b, c);
    }
  }

  predicate Sorted(s: seq<string>) {
    forall i, j :: 0 <= i < j < |s| ==> Le(s[i], s[j])
  }

  predicate StrictlySorted(s: seq<string>) {
    forall i, j :: 0 <= i < j < |s| ==> LexLess(s[i], s[j])
  }

  predicate Distinct(s: seq<string>) {
    forall i, j :: 0 <= i < j < |s| ==> s[i] != s[j]
  }

  lemma SortedPrepend(y: string, t: seq<string>)
    requires Sorted(t)
    requires forall z :: z in t ==> Le(y, z)
    ensures Sorted([y] + t)
  {
    var s := [y] + t;
    forall i, j | 0 <= i < j < |s| ensures Le(s[i], s[j]) {
      if i == 0 {
        assert s[j] == t[j - 1];
      } else {
        assert s[i] == t[i - 1] && s[j] == t[j - 1];
      }
    }
  }

  /** Insertion of one value into a sorted list, before the first element
      it does not exceed. */
  function Insert(x: string, s: seq<string>): seq<string> {
    if s == [] then [x]
    else if Le(x, s[0]) then [x] + s
    else [s[0]] + Insert(x, s[1..])
  }

  lemma {:induction false} InsertMultiset(x: string, s: seq<string>)
    ensures multiset(Insert(x, s)) == multiset(s) + multiset{x}
  {
    if s != [] && !Le(x, s[0]) {
      InsertMultiset(x, s[1..]);
      assert s == [s[0]] + s[1..];
    }
  }

  lemma {:induction false} InsertSorted(x: string, s: seq<string>)
    requires Sorted(s)
    ensures Sorted(Insert(x, s))
  {
    if s == [] {
    } else if Le(x, s[0]) {
      forall z | z in s ensures Le(x, z) {
        var j :| 0 <= j < |s| && s[j] == z;
        if j > 0 {
          LeTransitive(x, s[0], z);
        }
      }
      SortedPrepend(x, s);
    } else {
      var t := Insert(x, s[1..]);
      InsertSorted(x, s[1..]);
      InsertMultiset(x, s[1..]);
      LexTotal(x, s[0]);
      forall z | z in t ensures Le(s[0], z) {
        assert z in multiset(t);
        if z != x {
          var j :| 0 <= j < |s[1..]| && s[1..][j] == z;
          assert s[j + 1] == z;
        }
      }
      SortedPrepend(s[0], t);
    }
  }

  lemma {:induction false} InsertDistinct(x: string, s: seq<string>)
    requires Distinct(s) && x !in s
    ensures Distinct(Insert(x, s))
  {
    if s != [] && !Le(x, s[0]) {
      var t := Insert(x, s[1..]);
      InsertDistinct(x, s[1..]);
      InsertMultiset(x, s[1..]);
      assert s[0] !in s[1..] by {
        forall j | 0 <= j < |s[1..]| ensures s[1..][j] != s[0] { assert s[1..][j] == s[j + 1]; }
      }
      assert multiset(t)[s[0]] == 0;
    }
  }

  /** `Array.prototype.sort()` on strings. */
  function Sort(s: seq<string>): seq<string> {
    if s == [] then [] else Insert(s[0], Sort(s[1..]))
  }

  /** The sort yields a sorted permutation of its input, without duplicates
      when the input has none. */
  lemma {:induction false} SortIsSortedPermutation(s: seq<string>)
    ensures Sorted(Sort(s))
    ensures multiset(Sort(s)) == multiset(s)
    ensures Distinct(s) ==> Distinct(Sort(s))
  {
    if s != [] {
      var t := Sort(s[1..]);
      SortIsSortedPermutation(s[1..]);
      assert s == [s[0]] + s[1..];
      InsertSorted(s[0], t);
      InsertMultiset(s[0], t);
      if Distinct(s) {
        assert s[0] !in s[1..] by {
          forall j | 0 <= j < |s[1..]| ensures s[1..][j] != s[0] { assert s[1..][j] == s[j + 1]; }
        }
        assert multiset(t)[s[0]] == 0;
        InsertDistinct(s[0], t);
      }
    }
  }

  /** `[...new Set(values)]`: each value once, at its first occurrence. */
  function Dedup(values: seq<string>): (r: seq<string>)
    ensures Distinct(r)
    ensures forall x :: x in r <==> x in values
  {
    if values == [] then []
    else
      var init := values[..|values| - 1];
      var v := values[|values| - 1];
      assert forall x :: x in values <==> x in init || x == v;
      var d := Dedup(init);
      if v in d then d else d + [v]
  }

  /** The options `createOptions` adds to a select. */
  function Options(values: seq<string>): seq<string> {
    Sort(Dedup(values))
  }

  /** The options are the distinct values in strictly increasing order, each
      value of the input appearing exactly once. */
  lemma OptionsAreSortedValues(values: seq<string>)
    ensures StrictlySorted(Options(values))
    ensures forall x :: x in Options(values) <==> x in values
  {
    var d := Dedup(values);
    var r := Options(values);
    SortIsSortedPermutation(d);
    assert forall x :: x in r <==> x in multiset(d);
    forall i, j | 0 <= i < j < |r| ensures LexLess(r[i], r[j]) {
      assert r[i] != r[j];
    }
  }

  lemma {:induction false} LexIrreflexive(a: string)
    ensures !LexLess(a, a)
    decreases |a|
  {
    if a != [] {
      LexIrreflexive(a[1..]);
    }
  }

  lemma LeAntisymmetric(a: string, b: string)
    requires Le(a, b) && Le(b, a)
    ensures a == b
  {
    if LexLess(a, b) {
      LexAsymmetric(a, b);
    }
  }

  /** The head of a strictly sorted list is its least element. */
  lemma HeadIsLeast(a: seq<string>, x: string)
    requires StrictlySorted(a) && x in a
    ensures Le(a[0], x)
  {
    var j :| 0 <= j < |a| && a[j] == x;
    if j > 0 {
      assert LexLess(a[0], a[j]);
    }
  }

  /** A strictly increasing list is fixed by its elements, so the options
      are the only strictly sorted list of the distinct values. */
  lemma {:induction false} StrictlySortedUnique(a: seq<string>, b: seq<string>)
    requires StrictlySorted(a) && StrictlySorted(b)
    requires forall x :: x in a <==> x in b
    ensures a == b
    decreases |a|
  {
    assert |a| > 0 ==> a[0] in a;
    assert |b| > 0 ==> b[0] in b;
    if a != [] && b != [] {
      HeadIsLeast(a, b[0]);
      HeadIsLeast(b, a[0]);
      LeAntisymmetric(a[0], b[0]);
      LexIrreflexive(a[0]);
      forall x ensures x in a[1..] <==> x in b[1..] {
        if x in a[1..] {
          var j :| 0 <= j < |a[1..]| && a[1..][j] == x;
          assert LexLess(a[0], a[j + 1]);
          assert x in b && x != b[0];
          assert b == [b[0]] + b[1..];
        }
        if x in b[1..] {
          var j :| 0 <= j < |b[1..]| && b[1..][j] == x;
          assert LexLess(b[0], b[j + 1]);
          assert x in a && x != a[0];
          assert a == [a[0]] + a[1..];
        }
      }
      StrictlySortedUnique(a[1..], b[1..]);
      assert a == [a[0]] + a[1..] && b == [b[0]] + b[1..];
    }
  }

  /** The option lists of the four selects, after their initial "all". */
  datatype FilterOptions = FilterOptions(participantes: seq<string>, imagens: seq<string>,
                                         categorias: seq<string>, blocos: seq<string>)

  const NoOptions := FilterOptions([], [], [], [])

  function OptionsOf(o: FilterOptions, k: Field): seq<string> {
    match k
    case ParticipanteField => o.participantes
    case ImagemField => o.imagens
    case CategoriaField => o.categorias
    case BlocoField => o.blocos
  }

  function ValuesOf(reports: seq<Report>, k: Field): (values: seq<string>)
    ensures forall v :: v in values <==> exists r :: r in reports && FieldOf(r, k) == v
  {
    var values := seq(|reports|, i requires 0 <= i < |reports| => FieldOf(reports[i], k));
    assert forall v :: v in values ==> exists r :: r in reports && FieldOf(r, k) == v by {
      forall v | v in values ensures exists r :: r in reports && FieldOf(r, k) == v {
        var i :| 0 <= i < |values| && values[i] == v;
        assert reports[i] in reports;
      }
    }
    assert forall r :: r in reports ==> FieldOf(r, k) in values by {
      forall r | r in reports ensures FieldOf(r, k) in values {
        var i :| 0 <= i < |reports| && reports[i] == r;
        assert values[i] == FieldOf(r, k);
      }
    }
    values
  }

  /** What `populateFilters` adds to the four selects. */
  function PopulateFilters(reports: seq<Report>): FilterOptions {
    FilterOptions(Options(ValuesOf(reports, ParticipanteField)), Options(ValuesOf(reports, ImagemField)),
                  Options(ValuesOf(reports, CategoriaField)), Options(ValuesOf(reports, BlocoField)))
  }

  function AddOptions(o: FilterOptions, added: FilterOptions): FilterOptions {
    FilterOptions(o.participantes + added.participantes, o.imagens + added.imagens,
                  o.categorias + added.categorias, o.blocos + added.blocos)
  }

  /** Every report's value is offered in its select, and an offered value,
      chosen on its own, shows some report exactly when some report holds
      that value as text; every report it shows holds it. */
  lemma OptionsMatchReports(reports: seq<Report>, k: Field)
    ensures forall r :: r in reports ==> FieldOf(r, k) in OptionsOf(PopulateFilters(reports), k)
    ensures forall v :: v in OptionsOf(PopulateFilters(reports), k) ==>
      (Filtered(reports, SelectOnly(k, v)) != [] <==> exists r :: r in reports && FieldValue(r, k) == Some(v))
    ensures forall v, r :: v in OptionsOf(PopulateFilters(reports), k) && r in Filtered(reports, SelectOnly(k, v)) ==>
      v == All || FieldValue(r, k) == Some(v)
  {
    var values := ValuesOf(reports, k);
    var options := OptionsOf(PopulateFilters(reports), k);
    assert forall x :: x in options <==> exists r :: r in reports && FieldOf(r, k) == x by {
      assert options == Options(values);
      OptionsAreSortedValues(values);
    }
    forall v | v in options
      ensures Filtered(reports, SelectOnly(k, v)) != [] <==> exists r :: r in reports && FieldValue(r, k) == Some(v)
    {
      var shown := Filtered(reports, SelectOnly(k, v));
      if r :| r in reports && FieldValue(r, k) == Some(v) {
        ShownByField(SelectOnly(k, v), r);
        assert r in shown;
      }
      if shown != [] && v != All {
        var r := shown[0];
        assert r in shown;
        ShownByField(SelectOnly(k, v), r);
        assert Passes(Selected(SelectOnly(k, v), k), FieldValue(r, k));
      } else if v == All {
        // a report whose text is "all" is the one that put "all" among the options
        var w :| w in reports && FieldOf(w, k) == v;
        assert FieldValue(w, k) == Some(v);
      }
    }
    forall v, r | v in options && r in Filtered(reports, SelectOnly(k, v))
      ensures v == All || FieldValue(r, k) == Some(v)
    {
      ShownByField(SelectOnly(k, v), r);
      assert Passes(Selected(SelectOnly(k, v), k), FieldValue(r, k));
    }
  }

  /** A report with a null category gets the option "null", and choosing it
      shows nothing unless some report's category is the text "null". */
  lemma NullCategoryOptionShowsNothing(reports: seq<Report>, r: Report)
    requires r in reports && r.categoria.None?
    requires forall w :: w in reports ==> w.categoria != Some("null")
    ensures "null" in OptionsOf(PopulateFilters(reports), CategoriaField)
    ensures Filtered(reports, SelectOnly(CategoriaField, "null")) == []
  {
    OptionsMatchReports(reports, CategoriaField);
    assert FieldOf(r, CategoriaField) == "null";
    forall w | w in reports ensures !Shown(SelectOnly(CategoriaField, "null"), w) {
      ShownByField(SelectOnly(CategoriaField, "null"), w);
      assert !Passes(Selected(SelectOnly(CategoriaField, "null"), CategoriaField), FieldValue(w, CategoriaField));
    }
  }

  /* ---------------------------------------------------------------------- */
  /* Loading the report file                                                 */

  /** `lines.map(JSON.parse)`: None as soon as one line does not parse. */
  function ParseAll(lines: seq<string>, parse: string -> Option<Report>): (r: Option<seq<Report>>)
    ensures r.Some? ==> |r.value| == |lines| && forall i :: 0 <= i < |lines| ==> parse(lines[i]) == Some(r.value[i])
    ensures r.None? ==> exists i :: 0 <= i < |lines| && parse(lines[i]).None?
  {
    if lines == [] then Some([])
    else
      var init := ParseAll(lines[..|lines| - 1], parse);
      var last := parse(lines[|lines| - 1]);
      if init.None? then
        var i :| 0 <= i < |lines| - 1 && parse(lines[..|lines| - 1][i]).None?;
        assert lines[i] == lines[..|lines| - 1][i];
        None
      else if last.None? then None
      else Some(init.value + [last.value])
  }

  /** The reports of the fetched file; None when the response is not ok (or
      the fetch fails), which is also None here, or a line is not JSON. */
  function LoadReports(response: Option<string>, parse: string -> Option<Report>): Option<seq<Report>> {
    if response.None? then None else ParseAll(TrimmedLines(response.value), parse)
  }

  /** A file written one JSON object per line, with any trailing whitespace
      (such as the final newline), splits back into exactly those lines. */
  lemma JsonlRoundTrip(lines: seq<string>, tail: string)
    requires |lines| >= 1
    requires forall k :: 0 <= k < |lines| ==> lines[k] != [] && '\n' !in lines[k]
    requires !IsJsSpace(lines[0][0]) && !IsJsSpace(lines[|lines| - 1][|lines[|lines| - 1]| - 1])
    requires forall i :: 0 <= i < |tail| ==> IsJsSpace(tail[i])
    ensures TrimmedLines(Join(lines, "\n") + tail) == lines
  {
    var text := Join(lines, "\n");
    JoinEnds(lines, "\n");
    TrimDropsTrailingSpace(text, tail);
    SplitOfJoin(lines, '\n');
  }

  /** A file holding only whitespace gives one empty line, which JSON.parse
      rejects: the page then reports the error instead of showing nothing. */
  lemma BlankFileFails(text: string, parse: string -> Option<Report>)
    requires forall i :: 0 <= i < |text| ==> IsJsSpace(text[i])
    requires parse("").None?
    ensures LoadReports(Some(text), parse).None?
  {
    assert Trim(text) == "";
    assert TrimmedLines(text) == [""];
  }

  /* ---------------------------------------------------------------------- */
  /* The page                                                                */

  /** The page state script.js reads and writes. */
  class ResultsPage {
    var allReports: seq<Report>
    var filters: Filters
    var options: FilterOptions
    var countText: string
    var cards: seq<Card>
    var errorShown: bool

    /** The page as loaded, before the report file arrives. */
    constructor ()
      ensures allReports == [] && filters == Cleared && options == NoOptions
      ensures countText == "" && cards == [] && !errorShown
    {
      allReports := [];
      filters := Cleared;
      options := NoOptions;
      countText := "";
      cards := [];
      errorShown := false;
    }

    /** `displayResults`: the results container is emptied (so an earlier
        load error goes), then holds one card per shown report, in file
        order; the counter gives the number of shown reports. */
    method DisplayResults()
      modifies this
      ensures cards == CardsFor(Filtered(allReports, filters))
      ensures countText == CountText(|Filtered(allReports, filters)|)
      ensures !errorShown
      ensures allReports == old(allReports) && filters == old(filters) && options == old(options)
    {
      errorShown := false;
      var filteredReports := Filtered(allReports, filters);
      var container: seq<Card> := [];
      countText := CountText(|filteredReports|);
      for i := 0 to |filteredReports|
        invariant |container| == i
        invariant forall j :: 0 <= j < i ==> container[j] == Card(CardId(filteredReports[j]), filteredReports[j])
      {
        var report := filteredReports[i];
        var cardId := "card-" + report.participante + "-" + ReplaceFirst(report.mediaName, '.', '_');
        container := container + [Card(cardId, report)];
      }
      cards := container;
    }

    /** `populateFilters`: each select gets its options after what it holds. */
    method PopulateFilterSelects()
      modifies this
      ensures options == AddOptions(old(options), PopulateFilters(allReports))
      ensures allReports == old(allReports) && filters == old(filters) && cards == old(cards)
      ensures countText == old(countText) && errorShown == old(errorShown)
    {
      options := AddOptions(options, PopulateFilters(allReports));
    }

    /** `loadInitialData`: on a readable file every line becomes a report,
        the selects are filled and the results shown, replacing any earlier
        error; otherwise the results area shows the error and nothing else
        changes. */
    method LoadInitialData(response: Option<string>, parse: string -> Option<Report>)
      modifies this
      ensures LoadReports(response, parse).None? ==>
        && errorShown && cards == []
        && allReports == old(allReports) && filters == old(filters)
        && options == old(options) && countText == old(countText)
      ensures LoadReports(response, parse).Some? ==>
        && allReports == LoadReports(response, parse).value
        && options == AddOptions(old(options), PopulateFilters(allReports))
        && filters == old(filters) && !errorShown
        && cards == CardsFor(Filtered(allReports, filters))
        && countText == CountText(|Filtered(allReports, filters)|)
    {
      var loaded := LoadReports(response, parse);
      if loaded.None? {
        cards := [];
        errorShown := true;
        return;
      }
      allReports := loaded.value;
      PopulateFilterSelects();
      DisplayResults();
    }

    /** A select's change event: the new value, then `displayResults`. */
    method ChangeFilter(k: Field, v: string)
      modifies this
      ensures Selected(filters, k) == v
      ensures forall j :: j != k ==> Selected(filters, j) == Selected(old(filters), j)
      ensures cards == CardsFor(Filtered(allReports, filters))
      ensures countText == CountText(|Filtered(allReports, filters)|)
      ensures !errorShown
      ensures allReports == old(allReports) && options == old(options)
    {
      filters := WithSelected(filters, k, v);
      DisplayResults();
    }

    /** The reset button: every select back to "all", so every report is
        shown again, in file order. */
    method Reset()
      modifies this
      ensures filters == Cleared
      ensures cards == CardsFor(allReports)
      ensures countText == CountText(|allReports|)
      ensures !errorShown
      ensures allReports == old(allReports) && options == old(options)
    {
      filters := Cleared;
      DisplayResults();
      FilteredCleared(allReports);
    }
  }
}
