/** Comments and blank lines: neither reader makes anything of them, and a text reads the same
    with and without them. */
module PrometheusComments {
  import opened Basics
  import opened PrometheusLexer
  import opened PrometheusText
  import opened PrometheusCanonical

  /** The first `k` characters of `raw` are space, and it ends there or goes on with a `#`. */
  ghost predicate NoiseAt(raw: string, k: nat) {
    && k <= |raw| && (forall j | 0 <= j < k :: IsSpace(raw[j]))
    && (k < |raw| ==> raw[k] == '#')
  }

  /** A line without a character that is not space, or with a `#` as its first such. */
  ghost predicate IsNoise(raw: string) {
    exists k :: NoiseAt(raw, k)
  }

  lemma TrimmedNoise(raw: string, k: nat)
    requires NoiseAt(raw, k)
    ensures var line := Strip(IsSpace, raw); line == "" || line[0] == '#'
  {
    SkippedIsSpace(IsSpace, raw, 0);
    assert !IsSpace('#');
    hide IsSpace;
    var lo := SkipSpace(IsSpace, raw, 0);
    assert lo == k;
  }

  /** Neither reader makes anything of a comment or a blank line, however it is indented. */
  lemma NoiseSaysNothing(parse: NumberParser, raw: string)
    requires IsNoise(raw)
    ensures ReadLabeledLine(parse, raw) == None && ReadPlainLine(parse, raw) == None
  {
    var k :| NoiseAt(raw, k);
    TrimmedNoise(raw, k);
    hide Strip, SplitLabeledSample, SplitSample;
  }

  /** The lines from index `n` on, each with its line feed. */
  function JoinLines(lines: seq<string>, n: nat): string
    requires n <= |lines|
    decreases |lines| - n
  {
    if n == |lines| then "" else lines[n] + ("\n" + JoinLines(lines, n + 1))
  }

  /** Those that are neither blank nor comments. */
  ghost function WithoutNoise(lines: seq<string>): seq<string> {
    if lines == [] then [] else (if IsNoise(lines[0]) then [] else [lines[0]]) + WithoutNoise(lines[1..])
  }

  lemma {:induction false} JoinTail(lines: seq<string>, n: nat)
    requires 0 < n <= |lines|
    ensures JoinLines(lines[1..], n - 1) == JoinLines(lines, n)
    decreases |lines| - n
  {
    if n < |lines| {
      JoinTail(lines, n + 1);
    }
  }

  lemma FirstLineGathers<T>(read: string -> Option<T>, lines: seq<string>)
    requires lines != [] && BreakFree(lines[0]) && read("") == None
    ensures GatherText(read, JoinLines(lines, 0)) == AsSeq(read(lines[0])) + GatherText(read, JoinLines(lines[1..], 0))
  {
    JoinTail(lines, 1);
    JoinText(read, lines[0], JoinLines(lines, 1), JoinLines(lines, 0));
    if lines[0] == "" {
      assert GatherText(read, "") == [];
    } else {
      GatherLine(read, lines[0]);
    }
  }

  ghost predicate AllBreakFree(lines: seq<string>) {
    forall k | 0 <= k < |lines| :: BreakFree(lines[k])
  }

  lemma {:induction false} NoiseIsSkippedBy<T>(read: string -> Option<T>, lines: seq<string>)
    requires AllBreakFree(lines) && read("") == None
    requires forall k | 0 <= k < |lines| && IsNoise(lines[k]) :: read(lines[k]) == None
    ensures GatherText(read, JoinLines(lines, 0)) == GatherText(read, JoinLines(WithoutNoise(lines), 0))
    ensures AllBreakFree(WithoutNoise(lines))
  {
    hide GatherText, JoinLines, IsNoise, BreakFree;
    if lines != [] {
      var rest := WithoutNoise(lines[1..]);
      FirstLineGathers(read, lines);
      NoiseIsSkippedBy(read, lines[1..]);
      if !IsNoise(lines[0]) {
        assert ([lines[0]] + rest)[1..] == rest;
        FirstLineGathers(read, [lines[0]] + rest);
      } else {
        assert [] + rest == rest;
        assert AsSeq(read(lines[0])) == [];
      }
    }
  }

  /** Comments and blank lines anywhere in a text change nothing, for either parser. */
  lemma CommentsAreSkipped(parse: NumberParser, lines: seq<string>)
    requires AllBreakFree(lines)
    ensures ParseLabeled(parse, JoinLines(lines, 0)) == ParseLabeled(parse, JoinLines(WithoutNoise(lines), 0))
    ensures ParsePlain(parse, JoinLines(lines, 0)) == ParsePlain(parse, JoinLines(WithoutNoise(lines), 0))
  {
    forall raw: string | IsNoise(raw)
      ensures LabeledReader(parse)(raw) == None && PlainReader(parse)(raw) == None
    {
      NoiseSaysNothing(parse, raw);
    }
    assert NoiseAt("", 0) && IsNoise("");
    hide IsNoise, GatherText, JoinLines, WithoutNoise, AllBreakFree;
    NoiseIsSkippedBy(LabeledReader(parse), lines);
    NoiseIsSkippedBy(PlainReader(parse), lines);
  }

  function SampleLines(es: seq<Exposition>, n: nat): (lines: seq<string>)
    requires n <= |es|
    decreases |es| - n
  {
    if n == |es| then [] else [PrintSample(es[n])] + SampleLines(es, n + 1)
  }

  lemma {:induction false} SampleLinesPrint(es: seq<Exposition>, n: nat)
    requires n <= |es|
    ensures JoinLines(SampleLines(es, n), 0) == PrintText(es, n)
    decreases |es| - n
  {
    hide PrintSample;
    if n < |es| {
      SampleLinesPrint(es, n + 1);
      var lines := SampleLines(es, n);
      assert lines[1..] == SampleLines(es, n + 1);
      JoinTail(lines, 1);
    }
  }

  /** A printed text of good samples comes back as well with comments and blank lines anywhere
      between them. */
  lemma CommentedTextRoundTrip(parse: NumberParser, es: seq<Exposition>, lines: seq<string>)
    requires GoodText(parse, es) && AllBreakFree(lines) && WithoutNoise(lines) == SampleLines(es, 0)
    ensures ParseLabeled(parse, JoinLines(lines, 0)) == SamplesOf(parse, es)
    ensures ParsePlain(parse, JoinLines(lines, 0)) == ParsePlain(parse, PrintText(es, 0))
  {
    CommentsAreSkipped(parse, lines);
    SampleLinesPrint(es, 0);
    PrintedTextRoundTrip(parse, es);
  }
}
