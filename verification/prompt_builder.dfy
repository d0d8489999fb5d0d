/** The prompt assembly of eyetracking_analyzer/prompt_builder.py: the
    fixation table rendered as one `COLUMN = [v1;v2;...]` line per known
    column, a short quantitative summary, and the fixed prompt template the
    dataset's fields are embedded in. Number formatting (`{:.4f}`, `{:.2f}`,
    `{:.3f}`) and the FPOGD sum and mean are parameters of the model. */
module PromptBuilder {
  import opened Strings

  /** A fixation table: its number of rows and its columns by name. */
  datatype Frame<V> = Frame(height: nat, columns: map<string, seq<V>>)

  predicate WellFormed<V>(df: Frame<V>) {
    forall c :: c in df.columns ==> |df.columns[c]| == df.height
  }

  /** pandas `DataFrame.empty`: no rows or no columns. */
  predicate Empty<V>(df: Frame<V>) {
    df.height == 0 || |df.columns| == 0
  }

  const NoSummaryData := "Nenhum dado ocular disponível."
  const NoFixationData := "Nenhum dado de fixação disponível para formatar."

  /** The columns rendered as lists, in this order, with their format. */
  const FormatOrder: seq<(string, string)> :=
    [("FPOGX", "{:.4f}"), ("FPOGY", "{:.4f}"), ("FPOGS", "{:.4f}"), ("FPOGD", "{:.4f}"), ("FPOGID", "{}")]

  /* ---------------------------------------------------------------------- */
  /* Lists                                                                   */

  /** `[fmt.format(v) for v in column]`; `format` is Python's str.format. */
  function ValueTexts<V>(spec: string, values: seq<V>, format: (string, V) -> string): (texts: seq<string>)
    ensures |texts| == |values|
  {
    seq(|values|, i requires 0 <= i < |values| => format(spec, values[i]))
  }

  const ListOpen := " " + "= ["
  const ListClose := "]"

  /** `f"{col} = [{';'.join(texts)}]"`. */
  function ColumnLine(col: string, texts: seq<string>): string {
    col + (ListOpen + (Join(texts, ";") + ListClose))
  }

  /** The lines for the columns of `formats` the table has, in order. */
  function Lines<V>(df: Frame<V>, formats: seq<(string, string)>, format: (string, V) -> string): (lines: seq<string>)
    ensures |lines| <= |formats|
  {
    if formats == [] then []
    else
      var (col, spec) := formats[|formats| - 1];
      Lines(df, formats[..|formats| - 1], format)
        + (if col in df.columns then [ColumnLine(col, ValueTexts(spec, df.columns[col], format))] else [])
  }

  /** `formatar_dados_oculares_como_listas`: the fixed message for an empty
      table, else the lines of the known columns joined by newlines. */
  method FormatarDadosOcularesComoListas<V>(df: Frame<V>, format: (string, V) -> string) returns (text: string)
    ensures Empty(df) ==> text == NoFixationData
    ensures !Empty(df) ==> text == Join(Lines(df, FormatOrder, format), "\n")
  {
    if df.height == 0 || |df.columns| == 0 {
      return NoFixationData;
    }
    var listasFormatadas: seq<string> := [];
    for k := 0 to |FormatOrder|
      invariant listasFormatadas == Lines(df, FormatOrder[..k], format)
    {
      assert FormatOrder[..k + 1][..k] == FormatOrder[..k];
      var (col, fmt) := FormatOrder[k];
      if col in df.columns {
        var valoresStr := ValueTexts(fmt, df.columns[col], format);
        var valoresJuntos := Join(valoresStr, ";");
        listasFormatadas := listasFormatadas + [col + (ListOpen + (valoresJuntos + ListClose))];
      }
    }
    assert FormatOrder[..|FormatOrder|] == FormatOrder;
    text := Join(listasFormatadas, "\n");
  }

  /** Reading the lists back: each line gives its column name (the text
      before the first space) and its values (the bracketed body split on
      ';'). */
  function DecodeLine(line: string): (string, seq<string>) {
    var name := BeforeFirst(line, ' ');
    (name, if |line| > |name| + |ListOpen| then Split(line[|name| + |ListOpen|..|line| - 1], ';') else [])
  }

  function DecodeLines(lines: seq<string>): seq<(string, seq<string>)> {
    seq(|lines|, i requires 0 <= i < |lines| => DecodeLine(lines[i]))
  }

  function DecodeLists(text: string): seq<(string, seq<string>)> {
    if text == "" then [] else DecodeLines(Split(text, '\n'))
  }

  /** What the lists carry: the known columns the table has, in order, each
      with its formatted values. */
  function Expected<V>(df: Frame<V>, formats: seq<(string, string)>, format: (string, V) -> string): seq<(string, seq<string>)> {
    if formats == [] then []
    else
      var (col, spec) := formats[|formats| - 1];
      Expected(df, formats[..|formats| - 1], format)
        + (if col in df.columns then [(col, ValueTexts(spec, df.columns[col], format))] else [])
  }

  /** A formatted value that neither breaks a list nor a line. */
  predicate Clean(t: string) { ';' !in t && '\n' !in t }

  /** A name without spaces, an opener starting with a space, a body and a
      one-character closer: the name is the text before the first space and
      the body sits between opener and closer. */
  lemma Bracketed(name: string, opener: string, body: string, closer: string)
    requires ' ' !in name && |opener| > 0 && opener[0] == ' ' && |closer| == 1
    ensures var line := name + (opener + (body + closer));
      && |line| == |name| + |opener| + |body| + 1
      && BeforeFirst(line, ' ') == name
      && line[|name| + |opener|..|line| - 1] == body
  {
    var line := name + (opener + (body + closer));
    assert line == name + [' '] + (opener[1..] + (body + closer));
    BeforeFirstOfPrefix(name, ' ', opener[1..] + (body + closer));
    Window(name, opener, body, closer);
  }

  /** Decoding a line reads back its name and the split body. */
  lemma DecodeBracketed(name: string, body: string)
    requires ' ' !in name
    ensures DecodeLine(name + (ListOpen + (body + ListClose))) == (name, Split(body, ';'))
  {
    var line := name + (ListOpen + (body + ListClose));
    assert ListOpen[0] == ' ' && |ListClose| == 1;
    Bracketed(name, ListOpen, body, ListClose);
    DecodeOf(line, name, body);
  }

  /** DecodeLine, given the name and the body it finds. */
  lemma DecodeOf(line: string, name: string, body: string)
    requires BeforeFirst(line, ' ') == name
    requires |line| == |name| + |ListOpen| + |body| + 1
    requires line[|name| + |ListOpen|..|line| - 1] == body
    ensures DecodeLine(line) == (name, Split(body, ';'))
  {
  }

  lemma LineRoundTrip(col: string, texts: seq<string>)
    requires ' ' !in col && '\n' !in col && |texts| >= 1
    requires forall i :: 0 <= i < |texts| ==> Clean(texts[i])
    ensures DecodeLine(ColumnLine(col, texts)) == (col, texts)
    ensures '\n' !in ColumnLine(col, texts)
  {
    var body := Join(texts, ";");
    var line := ColumnLine(col, texts);
    assert '\n' !in line by {
      JoinAvoids(texts, ";", '\n');
      assert '\n' !in ListOpen && '\n' !in ListClose;
    }
    assert DecodeLine(line) == (col, texts) by {
      assert Split(body, ';') == texts by {
        assert forall k :: 0 <= k < |texts| ==> ';' !in texts[k];
        SplitOfJoin(texts, ';');
      }
      DecodeBracketed(col, body);
    }
  }

  lemma {:induction false} LinesRoundTrip<V>(df: Frame<V>, formats: seq<(string, string)>, format: (string, V) -> string)
    requires WellFormed(df) && df.height >= 1
    requires forall k :: 0 <= k < |formats| ==> ' ' !in formats[k].0 && '\n' !in formats[k].0
    requires forall spec: string, v: V :: Clean(format(spec, v))
    ensures DecodeLines(Lines(df, formats, format)) == Expected(df, formats, format)
    ensures forall k :: 0 <= k < |Lines(df, formats, format)| ==>
      Lines(df, formats, format)[k] != "" && '\n' !in Lines(df, formats, format)[k]
  {
    if formats != [] {
      var init := formats[..|formats| - 1];
      var (col, spec) := formats[|formats| - 1];
      LinesRoundTrip(df, init, format);
      var before := Lines(df, init, format);
      if col in df.columns {
        var texts := ValueTexts(spec, df.columns[col], format);
        LineRoundTrip(col, texts);
        var line := ColumnLine(col, texts);
        assert Lines(df, formats, format) == before + [line];
        DecodeAppend(before, line);
      } else {
        assert Lines(df, formats, format) == before;
      }
    }
  }

  lemma DecodeAppend(lines: seq<string>, line: string)
    ensures DecodeLines(lines + [line]) == DecodeLines(lines) + [DecodeLine(line)]
  {
    assert forall i :: 0 <= i < |lines| ==> (lines + [line])[i] == lines[i];
  }

  /** The lists decode back to the known columns and their formatted values,
      as long as no formatted value holds ';' or a newline. */
  lemma ListsRoundTrip<V>(df: Frame<V>, format: (string, V) -> string)
    requires WellFormed(df) && !Empty(df)
    requires forall spec: string, v: V :: Clean(format(spec, v))
    ensures DecodeLists(Join(Lines(df, FormatOrder, format), "\n")) == Expected(df, FormatOrder, format)
  {
    var lines := Lines(df, FormatOrder, format);
    LinesRoundTrip(df, FormatOrder, format);
    if lines != [] {
      SplitOfJoin(lines, '\n');
      assert Join(lines, "\n") != "" by {
        if |lines| == 1 { assert Join(lines, "\n") == lines[0]; }
      }
    }
  }

  function Names<T>(pairs: seq<(string, T)>): seq<string> {
    seq(|pairs|, i requires 0 <= i < |pairs| => pairs[i].0)
  }

  /** Exactly the listed columns the table has are rendered, in the listed
      order; no other column is. */
  lemma {:induction false} ExpectedColumns<V>(df: Frame<V>, formats: seq<(string, string)>, format: (string, V) -> string)
    ensures forall c :: c in Names(Expected(df, formats, format)) <==> c in df.columns && c in Names(formats)
  {
    if formats != [] {
      var init := formats[..|formats| - 1];
      ExpectedColumns(df, init, format);
      var (col, spec) := formats[|formats| - 1];
      var e0 := Expected(df, init, format);
      var e := Expected(df, formats, format);
      assert Names(formats) == Names(init) + [col];
      if col in df.columns {
        assert Names(e) == Names(e0) + [col];
      } else {
        assert Names(e) == Names(e0);
      }
    }
  }

  /* ---------------------------------------------------------------------- */
  /* Summary                                                                 */

  const SummaryHeader := "**Resumo Quantitativo Geral:**\n- Número total de fixações: "

  /** The two duration lines after the count. */
  function SummaryTail(total: string, mean: string): (t: string)
    ensures |t| > 0 && t[0] == '\n'
  {
    var lead := "\n" + "- Duração total de observação (soma das fixações): ";
    assert lead[0] == '\n';
    lead + (total + (" segundos\n- Duração média por fixação: " + (mean + " segundos")))
  }

  /** `sumarizar_dados_oculares`; `total` and `mean` are the formatted FPOGD
      sum and mean. */
  function SumarizarDadosOculares<V>(df: Frame<V>, total: string, mean: string): string {
    if Empty(df) then NoSummaryData
    else SummaryHeader + (NatToString(df.height) + SummaryTail(total, mean))
  }

  /** The fixation count is the line's text after the header and reads back
      as the number of rows. */
  lemma SummaryStatesCount<V>(df: Frame<V>, total: string, mean: string)
    requires !Empty(df)
    ensures var s := SumarizarDadosOculares(df, total, mean);
      && StartsWith(s, SummaryHeader)
      && |s| > |SummaryHeader|
      && AllDigits(BeforeFirst(s[|SummaryHeader|..], '\n'))
      && ParseNat(BeforeFirst(s[|SummaryHeader|..], '\n')) == df.height
  {
    var n := NatToString(df.height);
    var s := SumarizarDadosOculares(df, total, mean);
    assert s[|SummaryHeader|..] == n + SummaryTail(total, mean);
    ReadField(n, SummaryTail(total, mean));
    ParseNatToString(df.height);
  }

  /* ---------------------------------------------------------------------- */
  /* Prompt                                                                  */

  /** The analysis record the prompt is built from. `categoria` is None for a
      NaN category, which Python renders as "nan". */
  datatype AnalysisData<V> = AnalysisData(
    mediaName: string, categoria: Option<string>, participante: string, dadosOculares: Frame<V>)

  /** The column descriptions, line by line. */
  const ContextLines: seq<string> := [
    "**Contexto das Métricas Oculares:**",
    "As listas de dados sequenciais representam:",
    "- **FPOGX**: A sequência de coordenadas X (horizontal) de cada fixação.",
    "- **FPOGY**: A sequência de coordenadas Y (vertical) de cada fixação.",
    "- **FPOGS**: O momento de início de cada fixação em segundos.",
    "- **FPOGD**: A duração de cada fixação em segundos.",
    "- **FPOGID**: O identificador sequencial de cada fixação."
  ]

  /** The requested analysis, line by line. */
  const TaskLines: seq<string> := [
    "**Tarefa de Análise Solicitada:**",
    "Com base na IMAGEM FORNECIDA e nos DADOS OCULARES SEQUENCIAIS acima, realize a seguinte análise:",
    "",
    "1.  **Análise Qualitativa:**",
    "    - Descreva o padrão da trajetória ocular (scanpath) do participante. Use as listas de coordenadas FPOGX e FPOGY para descrever o caminho que o olhar percorreu na imagem (ex: \"começou no centro, moveu-se para o canto superior esquerdo, depois para uma área de texto à direita\").",
    "    - Analise a cena na imagem. Identifique os objetos, textos ou elementos gráficos mais proeminentes.",
    "    - Correlacione a trajetória ocular com os elementos da cena. As sequências de fixações se concentram em áreas específicas da imagem? Essas áreas correspondem aos elementos que você identificou como importantes?",
    "",
    "2.  **Análise Quantitativa:**",
    "    - Analise as listas de FPOGS e FPOGD. Existem fixações de longa duração em pontos específicos da trajetória? O que isso pode indicar sobre o interesse ou dificuldade do participante naqueles pontos da imagem?",
    "    - A sequência de fixações é rápida e dispersa (muitas fixações curtas) ou lenta e focada (poucas fixações longas)? Relacione isso com o tipo de conteúdo da imagem (ex: uma imagem complexa pode gerar mais fixações exploratórias).",
    "",
    "Por favor, estruture sua resposta de forma clara, separando a análise qualitativa da quantitativa."
  ]

  const ColumnContext := "\n" + Join(ContextLines, "\n") + "\n"
  const AnalysisTask := Join(TaskLines, "\n") + "\n"

  /** The fixed text of the prompt around its five slots (media, category,
      participant, summary, lists). */
  datatype Template = Template(
    head: string, categoryLabel: string, participantLabel: string,
    summaryHeading: string, listsHeading: string, tail: string)

  const PromptTemplate := Template(
    "\n**Análise de Comportamento Ocular e Cena**\n\n**Contexto da Tarefa:**\n- Mídia Analisada: ",
    "\n" + "- Categoria: ",
    "\n" + "- Participante: ",
    "\n" + "\n**Dados de Rastreamento Ocular:**\n",
    "\n" + "\n**Sequência de Fixações (formato de lista):**\n",
    "\n\n" + ColumnContext + "\n\n" + AnalysisTask)

  /** The labels after the head each open a new line, so every header field
      is closed by a newline. */
  predicate Delimited(t: Template) {
    && |t.categoryLabel| > 0 && t.categoryLabel[0] == '\n'
    && |t.participantLabel| > 0 && t.participantLabel[0] == '\n'
    && |t.summaryHeading| > 0 && t.summaryHeading[0] == '\n'
  }

  lemma PromptTemplateDelimited()
    ensures Delimited(PromptTemplate)
  {
  }

  /** The template with its slots filled. */
  function Fill(t: Template, media: string, category: string, participant: string, summary: string, lists: string): string {
    t.head + (media + (t.categoryLabel + (category + (t.participantLabel + (participant
      + (t.summaryHeading + (summary + (t.listsHeading + (lists + t.tail)))))))))
  }

  /** What `formatar_dados_oculares_como_listas` returns, as a value. */
  function ListsText<V>(df: Frame<V>, format: (string, V) -> string): string {
    if Empty(df) then NoFixationData else Join(Lines(df, FormatOrder, format), "\n")
  }

  /** The prompt of an analysis record on a template, given its summary and
      its lists. */
  function Prompt<V>(t: Template, d: AnalysisData<V>, summary: string, lists: string): string {
    Fill(t, d.mediaName, CategoryText(d.categoria), d.participante, summary, lists)
  }

  /** `construir_prompt_completo`: the prompt on the fixed template. The
      lemmas below hold for every delimited template, and
      PromptTemplateDelimited shows that this one is. */
  function ConstruirPromptCompleto<V>(d: AnalysisData<V>, format: (string, V) -> string, total: string, mean: string): string {
    Prompt(PromptTemplate, d, SumarizarDadosOculares(d.dadosOculares, total, mean), ListsText(d.dadosOculares, format))
  }

  /** Header fields without newlines read back from their labelled lines:
      each is the text from its position up to the next newline. */
  lemma {:induction false} FillFields(t: Template, media: string, category: string, participant: string, summary: string, lists: string)
    requires Delimited(t)
    requires '\n' !in media && '\n' !in category && '\n' !in participant
    ensures var p := Fill(t, media, category, participant, summary, lists);
      var catAt := |t.head| + |media| + |t.categoryLabel|;
      var partAt := catAt + |category| + |t.participantLabel|;
      && |p| > partAt
      && p[..|t.head|] == t.head
      && BeforeFirst(p[|t.head|..], '\n') == media
      && BeforeFirst(p[catAt..], '\n') == category
      && BeforeFirst(p[partAt..], '\n') == participant
  {
    var rest := t.summaryHeading + (summary + (t.listsHeading + (lists + t.tail)));
    var r3 := t.participantLabel + (participant + rest);
    var r2 := t.categoryLabel + (category + r3);
    var p := t.head + (media + r2);
    assert p == Fill(t, media, category, participant, summary, lists);
    assert p[|t.head|..] == media + r2;
    assert p[|t.head| + |media| + |t.categoryLabel|..] == category + r3;
    assert p[|t.head| + |media| + |t.categoryLabel| + |category| + |t.participantLabel|..] == participant + rest;
    ReadField(media, r2);
    ReadField(category, r3);
    ReadField(participant, rest);
  }

  /** The summary follows its heading, the lists follow theirs, and the
      template's closing text ends the prompt. */
  lemma {:induction false} FillSections(t: Template, media: string, category: string, participant: string, summary: string, lists: string)
    ensures var p := Fill(t, media, category, participant, summary, lists);
      && IsSubstring(t.summaryHeading + summary, p)
      && IsSubstring(t.listsHeading + lists, p)
      && EndsWith(p, t.tail)
  {
    var pre := t.head + (media + (t.categoryLabel + (category + (t.participantLabel + participant))));
    var r5 := t.listsHeading + (lists + t.tail);
    var p := Fill(t, media, category, participant, summary, lists);
    assert p == pre + (t.summaryHeading + summary) + r5;
    InfixOccurs(pre, t.summaryHeading + summary, r5);
    assert p == (pre + t.summaryHeading + summary) + (t.listsHeading + lists) + t.tail;
    InfixOccurs(pre + t.summaryHeading + summary, t.listsHeading + lists, t.tail);
    assert p[|p| - |t.tail|..] == t.tail;
  }

  /** The prompt's header lines give back the dataset's media, category and
      participant, whatever the summary and the lists. */
  lemma PromptEmbedsFields<V>(t: Template, d: AnalysisData<V>, summary: string, lists: string)
    requires Delimited(t)
    requires '\n' !in d.mediaName && '\n' !in CategoryText(d.categoria) && '\n' !in d.participante
    ensures var p := Prompt(t, d, summary, lists);
      var catAt := |t.head| + |d.mediaName| + |t.categoryLabel|;
      var partAt := catAt + |CategoryText(d.categoria)| + |t.participantLabel|;
      && |p| > partAt
      && p[..|t.head|] == t.head
      && BeforeFirst(p[|t.head|..], '\n') == d.mediaName
      && BeforeFirst(p[catAt..], '\n') == CategoryText(d.categoria)
      && BeforeFirst(p[partAt..], '\n') == d.participante
  {
    FillFields(t, d.mediaName, CategoryText(d.categoria), d.participante, summary, lists);
  }

  /** The summary and the lists of the table reach the prompt under their
      headings, and the template's closing text (the column descriptions
      and the requested analysis) ends it. */
  lemma PromptCarriesData<V>(t: Template, d: AnalysisData<V>, format: (string, V) -> string, total: string, mean: string)
    ensures var summary := SumarizarDadosOculares(d.dadosOculares, total, mean);
      var lists := ListsText(d.dadosOculares, format);
      var p := Prompt(t, d, summary, lists);
      && IsSubstring(t.summaryHeading + summary, p)
      && IsSubstring(t.listsHeading + lists, p)
      && EndsWith(p, t.tail)
  {
    FillSections(t, d.mediaName, CategoryText(d.categoria), d.participante,
                 SumarizarDadosOculares(d.dadosOculares, total, mean), ListsText(d.dadosOculares, format));
  }

  /** An empty table still yields a prompt: the summary and the lists carry
      their fixed messages. */
  lemma EmptyTablePrompt<V>(t: Template, d: AnalysisData<V>, format: (string, V) -> string, total: string, mean: string)
    requires Empty(d.dadosOculares)
    ensures var p := Prompt(t, d, SumarizarDadosOculares(d.dadosOculares, total, mean), ListsText(d.dadosOculares, format));
      && IsSubstring(t.summaryHeading + NoSummaryData, p)
      && IsSubstring(t.listsHeading + NoFixationData, p)
  {
    PromptCarriesData(t, d, format, total, mean);
  }
}
