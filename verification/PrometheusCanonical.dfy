/** Whole texts of printed samples: what both parsers make of them, and which label values a
    text can carry at all. */
module PrometheusCanonical {
  import opened Basics
  import opened PrometheusLexer
  import opened PrometheusLabels
  import opened PrometheusText
  import opened PrometheusLines

  /** A sample to print; `word` is the text of its value. */
  datatype Exposition = Exposition(name: string, labels: seq<Label>, word: string)

  function Block(e: Exposition): string {
    "{" + (PrintLabels(e.labels) + "}")
  }

  function PrintSample(e: Exposition): string {
    e.name + (if e.labels == [] then " " + e.word else Block(e) + (" " + e.word))
  }

  /** A sample whose line can be read; its keys and label values may hold anything. */
  ghost predicate Printable(parse: NumberParser, e: Exposition) {
    && e.name != "" && NoSpace(e.name) && '{' !in e.name && e.name[0] != '#'
    && e.word != "" && NoSpace(e.word) && '{' !in e.word && '}' !in e.word && parse(e.word).Some?
    && DistinctKeys(e.labels)
  }

  ghost predicate GoodExposition(parse: NumberParser, e: Exposition) {
    Printable(parse, e) && forall k | 0 <= k < |e.labels| :: GoodKey(e.labels[k].key)
  }

  /** What the scanner makes of the sample's block. */
  function ReadBack(parse: NumberParser, e: Exposition): LabeledSample
    requires parse(e.word).Some?
  {
    LabeledSample(e.name, parse(e.word).value, ParseLabels(PrintLabels(e.labels)))
  }

  function SampleOf(parse: NumberParser, e: Exposition): LabeledSample
    requires parse(e.word).Some?
  {
    LabeledSample(e.name, parse(e.word).value, WithLabels(map[], e.labels, 0))
  }

  lemma OneWord(word: string)
    requires word != "" && NoSpace(word)
    ensures Words(" " + word, 0) == [word]
  {
    var s := " " + word;
    assert forall k | 0 <= k < |word| :: s[1 + k] == word[k];
    assert SkipSpace(IsSpace, s, 0) == 1;
    assert forall k | 2 <= k < |s| :: s[k] == word[k - 1];
    WordEndBeyond(s, 2, |s|);
    assert s[1..|s|] == word;
    WordsStep(s, 0, 1, |s|);
    assert Words(s, |s|) == [];
  }

  lemma NameIsOneWord(name: string)
    requires name != "" && NoSpace(name)
    ensures Words(name, 0) == [name]
  {
    assert SkipSpace(IsSpace, name, 0) == 0;
    WordEndBeyond(name, 1, |name|);
    assert name[0..|name|] == name;
    WordsStep(name, 0, 0, |name|);
    assert Words(name, |name|) == [];
  }

  lemma ListedLabelsParse(e: Exposition)
    requires DistinctKeys(e.labels) && forall k | 0 <= k < |e.labels| :: GoodKey(e.labels[k].key)
    ensures ParseLabels(PrintLabels(e.labels)) == WithLabels(map[], e.labels, 0)
  {
    AtSelf(PrintLabels(e.labels));
    LabelsRead(PrintLabels(e.labels), 0, e.labels, 0);
    ReadsBuild(PrintLabels(e.labels), 0, map[], e.labels, 0);
  }

  lemma PrintedIsLabeledLine(e: Exposition)
    requires e.labels != []
    ensures IsLabeledLine(PrintSample(e), e.name, PrintLabels(e.labels), " " + e.word)
  {
    var block, rest := PrintLabels(e.labels), " " + e.word;
    PutTogether(e.name, block, rest, PrintSample(e));
  }

  lemma PutTogether(name: string, block: string, rest: string, line: string)
    requires line == name + (("{" + (block + "}")) + rest)
    ensures IsLabeledLine(line, name, block, rest)
  {
  }

  lemma BareLineReads(parse: NumberParser, name: string, word: string, line: string)
    requires line == name + (" " + word) && parse(word).Some?
    requires name != "" && NoSpace(name) && '{' !in name && word != "" && NoSpace(word) && '{' !in word
    ensures SplitLabeledSample(parse, line) == Some(LabeledSample(name, parse(word).value, map[]))
    ensures SplitSample(parse, line) == Some(PlainSample(name, parse(word).value))
  {
    OneWord(word);
    NameIsOneWord(name);
    WordsConcat(line, name, " " + word, 0);
    assert Words(line, 0) == [name, word];
    NotFound(line, '{', 0);
    NotFound(name, '{', 0);
  }

  lemma {:induction false} NotFound(s: string, c: char, i: nat)
    requires i <= |s| && c !in s
    ensures Find(s, c, i) == |s|
    decreases |s| - i
  {
    if i < |s| {
      NotFound(s, c, i + 1);
    }
  }

  lemma LabeledValue(parse: NumberParser, name: string, block: string, word: string, labels: map<string, string>)
    requires parse(word).Some? && ParseLabels(block) == labels
    ensures LabeledBy(parse, Braced(name, block, [word])) == Some(LabeledSample(name, parse(word).value, labels))
  {
  }

  lemma BracedLineReads(parse: NumberParser, e: Exposition)
    requires Printable(parse, e) && e.labels != []
    ensures SplitLabeledSample(parse, PrintSample(e)) == Some(ReadBack(parse, e))
  {
    hide SplitLabeledSample, ParseLabels, PrintLabels, WithLabels, Words, LabeledBy, IsLabeledLine, Strip, GoodKey, IsSpace;
    PrintedIsLabeledLine(e);
    OneWord(e.word);
    StripFixpoint(IsSpace, e.name);
    var block := PrintLabels(e.labels);
    LabeledLineReads(parse, PrintSample(e), e.name, block, " " + e.word);
    LabeledValue(parse, e.name, block, e.word, ParseLabels(block));
  }

  lemma BracedLineReadsPlain(parse: NumberParser, e: Exposition)
    requires Printable(parse, e) && e.labels != []
    ensures SplitSample(parse, PrintSample(e)) == Some(PlainSample(e.name, parse(e.word).value))
  {
    PrintedIsLabeledLine(e);
    OneWord(e.word);
    PlainLineReads(parse, PrintSample(e), e.name, PrintLabels(e.labels), " " + e.word);
  }

  lemma EmptyBlock(e: Exposition)
    requires e.labels == []
    ensures ParseLabels(PrintLabels(e.labels)) == map[]
  {
    assert NextLabel("", 0) == None;
  }

  lemma PrintableLineReads(parse: NumberParser, e: Exposition)
    requires Printable(parse, e)
    ensures SplitLabeledSample(parse, PrintSample(e)) == Some(ReadBack(parse, e))
    ensures SplitSample(parse, PrintSample(e)) == Some(PlainSample(e.name, parse(e.word).value))
  {
    if e.labels == [] {
      EmptyBlock(e);
      BareLineReads(parse, e.name, e.word, PrintSample(e));
    } else {
      BracedLineReads(parse, e);
      BracedLineReadsPlain(parse, e);
    }
  }

  /** One printed line: the labelled reader returns exactly the printed sample, and the
      label-free reader its name and value. */
  lemma PrintedLineReads(parse: NumberParser, e: Exposition)
    requires GoodExposition(parse, e)
    ensures SplitLabeledSample(parse, PrintSample(e)) == Some(SampleOf(parse, e))
    ensures SplitSample(parse, PrintSample(e)) == Some(PlainSample(e.name, parse(e.word).value))
  {
    PrintableLineReads(parse, e);
    ListedLabelsParse(e);
  }

  lemma PrintedLineIsData(parse: NumberParser, e: Exposition)
    requires Printable(parse, e)
    ensures Strip(IsSpace, PrintSample(e)) == PrintSample(e) && IsData(PrintSample(e))
  {
    var line := PrintSample(e);
    assert line[0] == e.name[0];
    assert line[|line| - 1] == e.word[|e.word| - 1];
    StripFixpoint(IsSpace, line);
  }

  /** Printed samples, a line each, from index `n` on. */
  function PrintText(es: seq<Exposition>, n: nat): string
    requires n <= |es|
    decreases |es| - n
  {
    if n == |es| then "" else PrintSample(es[n]) + ("\n" + PrintText(es, n + 1))
  }

  ghost predicate BreakFree(s: string) {
    forall k | 0 <= k < |s| :: !IsBreak(s[k])
  }

  lemma {:induction false} BreakFreeLine(line: string, i: nat)
    requires i <= |line| && line != "" && BreakFree(line)
    ensures LinesFrom(line, 0, i) == [line]
    decreases |line| - i
  {
    if i < |line| {
      BreakFreeLine(line, i + 1);
    } else {
      assert line[0..i] == line;
    }
  }

  lemma GatherLine<T>(read: string -> Option<T>, line: string)
    requires line != "" && BreakFree(line)
    ensures GatherText(read, line) == AsSeq(read(line))
  {
    BreakFreeLine(line, 0);
    assert Gather(read, [line], 1) == [] + AsSeq(read(line)) == AsSeq(read(line));
  }

  lemma JoinText<T>(read: string -> Option<T>, a: string, b: string, text: string)
    requires text == a + ("\n" + b) && read("") == None
    ensures GatherText(read, text) == GatherText(read, a) + GatherText(read, b)
  {
    JoinGathers(read, text, a, b, 0, 0);
  }

  /** `xs` from index `n` on. */
  function From<T>(xs: seq<T>, n: nat): seq<T>
    requires n <= |xs|
    decreases |xs| - n
  {
    if n == |xs| then [] else [xs[n]] + From(xs, n + 1)
  }

  lemma {:induction false} FromIsSuffix<T>(xs: seq<T>, n: nat)
    requires n <= |xs|
    ensures From(xs, n) == xs[n..]
    decreases |xs| - n
  {
    if n < |xs| {
      FromIsSuffix(xs, n + 1);
    }
  }

  lemma {:induction false} PrintedLinesGather<T>(read: string -> Option<T>, es: seq<Exposition>, xs: seq<T>, n: nat)
    requires read("") == None && |xs| == |es| && n <= |es|
    requires forall k | 0 <= k < |es| ::
      PrintSample(es[k]) != "" && BreakFree(PrintSample(es[k])) && read(PrintSample(es[k])) == Some(xs[k])
    ensures GatherText(read, PrintText(es, n)) == From(xs, n)
    decreases |es| - n
  {
    if n < |es| {
      PrintedLinesGather(read, es, xs, n + 1);
      GatherLine(read, PrintSample(es[n]));
      JoinText(read, PrintSample(es[n]), PrintText(es, n + 1), PrintText(es, n));
    }
  }

  ghost predicate PrintableText(parse: NumberParser, es: seq<Exposition>) {
    forall k | 0 <= k < |es| :: Printable(parse, es[k]) && BreakFree(PrintSample(es[k]))
  }

  ghost predicate GoodText(parse: NumberParser, es: seq<Exposition>) {
    forall k | 0 <= k < |es| :: GoodExposition(parse, es[k]) && BreakFree(PrintSample(es[k]))
  }

  /** The samples a printed text stands for, and what is read of them. */
  function SamplesOf(parse: NumberParser, es: seq<Exposition>): seq<LabeledSample>
    requires forall k | 0 <= k < |es| :: parse(es[k].word).Some?
  {
    seq(|es|, k requires 0 <= k < |es| => SampleOf(parse, es[k]))
  }

  function ReadsBack(parse: NumberParser, es: seq<Exposition>): seq<LabeledSample>
    requires forall k | 0 <= k < |es| :: parse(es[k].word).Some?
  {
    seq(|es|, k requires 0 <= k < |es| => ReadBack(parse, es[k]))
  }

  function PlainOf(samples: seq<LabeledSample>): seq<PlainSample> {
    seq(|samples|, k requires 0 <= k < |samples| => PlainSample(samples[k].name, samples[k].value))
  }

  lemma DataLineReads(parse: NumberParser, e: Exposition)
    requires Printable(parse, e)
    ensures PrintSample(e) != ""
    ensures LabeledReader(parse)(PrintSample(e)) == Some(ReadBack(parse, e))
    ensures PlainReader(parse)(PrintSample(e)) == Some(PlainSample(e.name, ReadBack(parse, e).value))
  {
    PrintableLineReads(parse, e);
    PrintedLineIsData(parse, e);
  }

  /** A printed text is read sample by sample. */
  lemma PrintedTextReads(parse: NumberParser, es: seq<Exposition>)
    requires PrintableText(parse, es)
    ensures ParseLabeled(parse, PrintText(es, 0)) == ReadsBack(parse, es)
  {
    var samples := ReadsBack(parse, es);
    forall k | 0 <= k < |es|
      ensures PrintSample(es[k]) != "" && LabeledReader(parse)(PrintSample(es[k])) == Some(samples[k])
    {
      DataLineReads(parse, es[k]);
    }
    PrintedLinesGather(LabeledReader(parse), es, samples, 0);
    FromIsSuffix(samples, 0);
  }

  /** A printed text of good samples comes back sample by sample. */
  lemma PrintedTextRoundTrip(parse: NumberParser, es: seq<Exposition>)
    requires GoodText(parse, es)
    ensures ParseLabeled(parse, PrintText(es, 0)) == SamplesOf(parse, es)
  {
    PrintedTextReads(parse, es);
    forall k | 0 <= k < |es|
      ensures ReadBack(parse, es[k]) == SampleOf(parse, es[k])
    {
      ListedLabelsParse(es[k]);
    }
    assert ReadsBack(parse, es) == SamplesOf(parse, es);
  }

  /** The label-free parse of a printed text is the last-value-wins projection of the labelled
      one, whatever its labels hold. */
  lemma PlainParseIsProjection(parse: NumberParser, es: seq<Exposition>)
    requires PrintableText(parse, es)
    ensures var plain := PlainOf(ParseLabeled(parse, PrintText(es, 0)));
      ParsePlain(parse, PrintText(es, 0)) == LastWins(plain, |plain|)
  {
    PrintedTextReads(parse, es);
    var plain := PlainOf(ReadsBack(parse, es));
    forall k | 0 <= k < |es|
      ensures PrintSample(es[k]) != "" && PlainReader(parse)(PrintSample(es[k])) == Some(plain[k])
    {
      DataLineReads(parse, es[k]);
    }
    PrintedLinesGather(PlainReader(parse), es, plain, 0);
    FromIsSuffix(plain, 0);
  }

  // ---- Which samples a text can carry ----

  /** A label whose printed form stays on one line: line feeds in the value are escaped, the
      other line boundaries are not. */
  ghost predicate OneLine(l: Label) {
    && BreakFree(l.key)
    && forall k | 0 <= k < |l.value| :: IsBreak(l.value[k]) ==> l.value[k] == '\n'
  }

  lemma {:induction false} EscapeBreaks(value: string, n: nat)
    requires n <= |value|
    ensures BreakFree(EscapeFrom(value, n)) <==> forall k | n <= k < |value| :: IsBreak(value[k]) ==> value[k] == '\n'
    decreases |value| - n
  {
    if n < |value| {
      EscapeBreaks(value, n + 1);
      BreakFreeConcat(EscapeChar(value[n]), EscapeFrom(value, n + 1), EscapeFrom(value, n));
      var e := EscapeChar(value[n]);
      assert |e| == 1 ==> e[0] == value[n];
    }
  }

  lemma BreakFreeConcat(a: string, b: string, s: string)
    requires s == a + b
    ensures BreakFree(s) <==> BreakFree(a) && BreakFree(b)
  {
    assert forall k | 0 <= k < |a| :: s[k] == a[k];
    assert forall k | 0 <= k < |b| :: s[|a| + k] == b[k];
  }

  lemma LabelBreaks(l: Label)
    ensures BreakFree(PrintLabel(l)) <==> OneLine(l)
  {
    EscapeBreaks(l.value, 0);
    BreakFreeConcat("=\"", EscapeFrom(l.value, 0), "=\"" + EscapeFrom(l.value, 0));
    BreakFreeConcat(l.key, "=\"" + EscapeFrom(l.value, 0), PrintLabel(l));
  }

  lemma {:induction false} LabelsBreaks(labels: seq<Label>, n: nat)
    requires n <= |labels|
    ensures BreakFree(PrintFrom(labels, n)) <==> forall k | n <= k < |labels| :: OneLine(labels[k])
    ensures BreakFree(PrintMore(labels, n)) <==> forall k | n <= k < |labels| :: OneLine(labels[k])
    decreases |labels| - n
  {
    if n < |labels| {
      LabelsBreaks(labels, n + 1);
      LabelBreaks(labels[n]);
      BreakFreeConcat(PrintLabel(labels[n]), PrintMore(labels, n + 1), PrintFrom(labels, n));
      BreakFreeConcat(",", PrintFrom(labels, n), PrintMore(labels, n));
    }
  }

  lemma SampleBreaks(parse: NumberParser, e: Exposition)
    requires Printable(parse, e)
    ensures BreakFree(PrintSample(e)) <==> forall k | 0 <= k < |e.labels| :: OneLine(e.labels[k])
  {
    var rest := " " + e.word;
    BreakFreeConcat(" ", e.word, rest);
    if e.labels == [] {
      BreakFreeConcat(e.name, rest, PrintSample(e));
    } else {
      LabelsBreaks(e.labels, 0);
      BreakFreeConcat(PrintLabels(e.labels), "}", PrintLabels(e.labels) + "}");
      BreakFreeConcat("{", PrintLabels(e.labels) + "}", Block(e));
      BreakFreeConcat(Block(e), rest, Block(e) + rest);
      BreakFreeConcat(e.name, Block(e) + rest, PrintSample(e));
    }
  }
}
