/** Where the text round trip fails, and exactly when. */
module PrometheusExactness {
  import opened Basics
  import opened PrometheusLexer
  import opened PrometheusKeys
  import opened PrometheusLabels
  import opened PrometheusText
  import opened PrometheusCanonical

  // ---- Everything read from a line stays on that line ----

  lemma BreakFreeSlice(s: string, lo: nat, hi: nat)
    requires lo <= hi <= |s| && forall k | lo <= k < hi :: !IsBreak(s[k])
    ensures BreakFree(s[lo..hi])
  {
  }

  lemma {:induction false} LinesAreBreakFree(text: string, start: nat, i: nat)
    requires start <= i <= |text| && forall k | start <= k < i :: !IsBreak(text[k])
    ensures forall n | 0 <= n < |LinesFrom(text, start, i)| :: BreakFree(LinesFrom(text, start, i)[n])
    decreases |text| - i
  {
    BreakFreeSlice(text, start, i);
    if i < |text| {
      if IsBreak(text[i]) {
        LinesAreBreakFree(text, AfterBreak(text, i), AfterBreak(text, i));
      } else {
        LinesAreBreakFree(text, start, i + 1);
      }
    }
  }

  /** Everything gathered was read from some line. */
  lemma {:induction false} GatheredFromALine<T>(read: string -> Option<T>, lines: seq<string>, n: nat, i: nat) returns (k: nat)
    requires n <= |lines| && i < |Gather(read, lines, n)|
    ensures k < n && read(lines[k]) == Some(Gather(read, lines, n)[i])
  {
    if i < |Gather(read, lines, n - 1)| {
      k := GatheredFromALine(read, lines, n - 1, i);
    } else {
      k := n - 1;
    }
  }

  lemma {:induction false} ScannedValueBreaks(raw: string, i: nat)
    requires i <= |raw| && BreakFree(raw)
    ensures forall k | 0 <= k < |ScanValue(raw, i)| :: IsBreak(ScanValue(raw, i)[k]) ==> ScanValue(raw, i)[k] == '\n'
    decreases |raw| - i
  {
    if i < |raw| && raw[i] != '"' {
      if raw[i] == '\\' && i + 1 < |raw| {
        ScannedValueBreaks(raw, i + 2);
      } else {
        ScannedValueBreaks(raw, i + 1);
      }
    }
  }

  lemma FoundIsOneLine(raw: string, i: nat)
    requires i <= |raw| && BreakFree(raw) && NextLabel(raw, i).Some?
    ensures OneLine(Label(NextLabel(raw, i).value.key, NextLabel(raw, i).value.value))
  {
    var start := SkipSeparators(raw, i);
    var eq := Find(raw, '=', start);
    ScannedValueBreaks(raw, eq + 2);
    BreakFreeSlice(raw, start, eq);
    StripIsBreakFree(raw[start..eq]);
  }

  lemma StripIsBreakFree(s: string)
    requires BreakFree(s)
    ensures BreakFree(Strip(IsSpace, s))
  {
    var lo := SkipSpace(IsSpace, s, 0);
    BreakFreeSlice(s, lo, DropSpace(IsSpace, s, lo, |s|));
  }

  ghost predicate OneLineMap(labels: map<string, string>) {
    forall key | key in labels :: OneLine(Label(key, labels[key]))
  }

  lemma {:induction false} ParsedLabelsAreOneLine(raw: string, i: nat, before: map<string, string>)
    requires i <= |raw| && BreakFree(raw) && OneLineMap(before)
    ensures OneLineMap(LabelsFrom(raw, i, before))
    decreases |raw| - i
  {
    var found := NextLabel(raw, i);
    if found.Some? {
      FoundIsOneLine(raw, i);
      ParsedLabelsAreOneLine(raw, found.value.next, AddLabel(before, found.value));
    }
  }

  lemma LineGivesOneLineLabels(parse: NumberParser, raw: string)
    requires BreakFree(raw) && ReadLabeledLine(parse, raw).Some?
    ensures OneLineMap(ReadLabeledLine(parse, raw).value.labels)
  {
    hide IsBreak, IsSpace, Find, AfterLast, Words, LabelsFrom, Strip;
    var line := Strip(IsSpace, raw);
    StripIsBreakFree(raw);
    var brace := Find(line, '{', 0);
    if brace < |line| {
      var after := AfterLast(line, '}', brace + 1, |line|);
      BreakFreeSlice(line, brace + 1, after - 1);
      ParsedLabelsAreOneLine(line[brace + 1..after - 1], 0, map[]);
    }
  }

  /** No label read from any text crosses a line boundary, except through an escaped line feed. */
  lemma ParsedTextIsOneLine(parse: NumberParser, text: string, i: nat)
    requires i < |ParseLabeled(parse, text)|
    ensures OneLineMap(ParseLabeled(parse, text)[i].labels)
  {
    var lines := SplitLines(text);
    LinesAreBreakFree(text, 0, 0);
    var k := GatheredFromALine(LabeledReader(parse), lines, |lines|, i);
    LineGivesOneLineLabels(parse, lines[k]);
  }

  ghost predicate PrintableSamples(parse: NumberParser, es: seq<Exposition>) {
    forall k | 0 <= k < |es| :: parse(es[k].word).Some? && Printable(parse, es[k])
  }

  /** A label that a text can carry. */
  ghost predicate Carried(l: Label) {
    OneLine(l) && GoodKey(l.key)
  }

  lemma LabelsComeBack(parse: NumberParser, e: Exposition)
    requires Printable(parse, e)
    ensures ReadBack(parse, e) == SampleOf(parse, e) <==> forall j | 0 <= j < |e.labels| :: GoodKey(e.labels[j].key)
  {
    hide ParseLabels, PrintLabels, GoodKey;
    var m := WithLabels(map[], e.labels, 0);
    WithLabelsHolds(map[], e.labels, 0);
    assert IsListing(e.labels, m);
    ListingIsExact(e.labels, m);
  }

  lemma OnlyOneLineLabels(parse: NumberParser, es: seq<Exposition>)
    requires PrintableSamples(parse, es) && ParseLabeled(parse, PrintText(es, 0)) == SamplesOf(parse, es)
    ensures forall k, j | 0 <= k < |es| && 0 <= j < |es[k].labels| :: OneLine(es[k].labels[j])
  {
    hide ParseLabeled, PrintText, GoodKey;
    forall k, j | 0 <= k < |es| && 0 <= j < |es[k].labels|
      ensures OneLine(es[k].labels[j])
    {
      ParsedTextIsOneLine(parse, PrintText(es, 0), k);
      WithLabelsHolds(map[], es[k].labels, 0);
      assert ParseLabeled(parse, PrintText(es, 0))[k] == SampleOf(parse, es[k]);
    }
  }

  lemma OneLineIsPrintable(parse: NumberParser, es: seq<Exposition>)
    requires PrintableSamples(parse, es)
    requires forall k, j | 0 <= k < |es| && 0 <= j < |es[k].labels| :: OneLine(es[k].labels[j])
    ensures PrintableText(parse, es)
  {
    hide Printable, BreakFree, OneLine;
    forall k | 0 <= k < |es|
      ensures BreakFree(PrintSample(es[k]))
    {
      SampleBreaks(parse, es[k]);
    }
  }

  lemma SameSamples(parse: NumberParser, es: seq<Exposition>)
    requires PrintableSamples(parse, es)
    ensures ReadsBack(parse, es) == SamplesOf(parse, es)
       <==> forall k, j | 0 <= k < |es| && 0 <= j < |es[k].labels| :: GoodKey(es[k].labels[j].key)
  {
    hide ReadBack, SampleOf, Printable, GoodKey;
    var read, meant := ReadsBack(parse, es), SamplesOf(parse, es);
    forall k | 0 <= k < |es|
      ensures read[k] == meant[k] <==> forall j | 0 <= j < |es[k].labels| :: GoodKey(es[k].labels[j].key)
    {
      LabelsComeBack(parse, es[k]);
    }
  }

  /** The round trip, exactly: printed samples come back if and only if every label has a good key
      and holds no line boundary other than a line feed in its value. */
  lemma TextRoundTripIsExact(parse: NumberParser, es: seq<Exposition>)
    requires PrintableSamples(parse, es)
    ensures ParseLabeled(parse, PrintText(es, 0)) == SamplesOf(parse, es)
       <==> forall k, j | 0 <= k < |es| && 0 <= j < |es[k].labels| :: Carried(es[k].labels[j])
  {
    hide ParseLabeled, PrintText, GoodKey, OneLine, Printable, ReadsBack, SamplesOf;
    SameSamples(parse, es);
    if forall k, j | 0 <= k < |es| && 0 <= j < |es[k].labels| :: OneLine(es[k].labels[j]) {
      OneLineIsPrintable(parse, es);
      PrintedTextReads(parse, es);
    } else if ParseLabeled(parse, PrintText(es, 0)) == SamplesOf(parse, es) {
      OnlyOneLineLabels(parse, es);
    }
  }

  /** A carriage return in a label value is such a boundary: the printed line does not come back. */
  lemma CarriageReturnIsLost(parse: NumberParser)
    requires parse("1").Some?
    ensures var es := [Exposition("up", [Label("job", "a\rb")], "1")];
      PrintableSamples(parse, es) && ParseLabeled(parse, PrintText(es, 0)) != SamplesOf(parse, es)
  {
    var l := Label("job", "a\rb");
    var e := Exposition("up", [l], "1");
    StripFixpoint(IsSpace, "job");
    assert IsBreak(l.value[1]) && !OneLine(e.labels[0]);
    TextRoundTripIsExact(parse, [e]);
  }
}
