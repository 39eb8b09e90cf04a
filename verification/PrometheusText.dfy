/** The two readings of a Prometheus text, line by line: with labels, and without. */
module PrometheusText {
  import opened Basics
  import opened PrometheusLexer

  /** Python's `float` on one word. */
  type NumberParser = string -> Option<real>

  datatype PlainSample = PlainSample(name: string, value: real)

  // ---- One line ----

  function WordEnd(s: string, i: nat): (j: nat)
    requires i <= |s|
    ensures i <= j <= |s|
    decreases |s| - i
  {
    if i < |s| && !IsSpace(s[i]) then WordEnd(s, i + 1) else i
  }

  /** The words of `s` from position `i` on, as `str.split` gives them. */
  function Words(s: string, i: nat): seq<string>
    requires i <= |s|
    decreases |s| - i
  {
    var start := SkipSpace(IsSpace, s, i);
    if start == |s| then [] else
    var end := WordEnd(s, start + 1);
    [s[start..end]] + Words(s, end)
  }

  /** The position behind the last `c` in `s[lo..hi]`, or `lo` when there is none. */
  function AfterLast(s: string, c: char, lo: nat, hi: nat): (j: nat)
    requires lo <= hi <= |s|
    ensures lo <= j <= hi
    ensures lo < j ==> s[j - 1] == c
  {
    if lo < hi && s[hi - 1] != c then AfterLast(s, c, lo, hi - 1) else hi
  }

  /** A line cut at its braces: the name, the label block and the words behind it. */
  datatype Braced = Braced(name: string, block: string, words: seq<string>)

  /** Cuts a line at the opening brace `brace` and the last closing brace behind it. */
  function CutAtBraces(line: string, brace: nat): Option<Braced>
    requires brace < |line|
  {
    var after := AfterLast(line, '}', brace + 1, |line|);
    if after == brace + 1 then None else
    Some(Braced(Strip(IsSpace, line[..brace]), line[brace + 1..after - 1], Words(line, after)))
  }

  function LabeledBy(parse: NumberParser, cut: Braced): Option<LabeledSample> {
    if cut.words == [] || parse(cut.words[0]).None? then None
    else Some(LabeledSample(cut.name, parse(cut.words[0]).value, ParseLabels(cut.block)))
  }

  /** Reads a line with its labels: the value is the first word behind the last closing brace,
      so a trailing timestamp is ignored. Without braces it is the second word. */
  function SplitLabeledSample(parse: NumberParser, line: string): Option<LabeledSample> {
    var brace := Find(line, '{', 0);
    if brace < |line| then
      var cut := CutAtBraces(line, brace);
      if cut.None? then None else LabeledBy(parse, cut.value)
    else
      var words := Words(line, 0);
      if |words| < 2 || parse(words[1]).None? then None else
      Some(LabeledSample(words[0], parse(words[1]).value, map[]))
  }

  /** Reads a line without its labels: the value is the last word of the line. */
  function SplitSample(parse: NumberParser, line: string): Option<PlainSample> {
    var words := Words(line, 0);
    if |words| < 2 || parse(words[|words| - 1]).None? then None else
    Some(PlainSample(words[0][..Find(words[0], '{', 0)], parse(words[|words| - 1]).value))
  }

  // ---- A whole text ----

  /** Where the line that ends at the break `i` is followed by the next one: a carriage return
      and a line feed are one break. */
  function AfterBreak(text: string, i: nat): (next: nat)
    requires i < |text|
    ensures i < next <= |text|
  {
    if text[i] == '\r' && i + 1 < |text| && text[i + 1] == '\n' then i + 2 else i + 1
  }

  /** The lines of a text from `start` on; no break lies between `start` and `i`. */
  function LinesFrom(text: string, start: nat, i: nat): seq<string>
    requires start <= i <= |text|
    decreases |text| - i
  {
    if i == |text| then (if start < i then [text[start..i]] else [])
    else if IsBreak(text[i]) then [text[start..i]] + LinesFrom(text, AfterBreak(text, i), AfterBreak(text, i))
    else LinesFrom(text, start, i + 1)
  }

  function SplitLines(text: string): seq<string> {
    LinesFrom(text, 0, 0)
  }

  predicate IsData(line: string) {
    line != "" && line[0] != '#'
  }

  function ReadLabeledLine(parse: NumberParser, raw: string): Option<LabeledSample> {
    var line := Strip(IsSpace, raw);
    if IsData(line) then SplitLabeledSample(parse, line) else None
  }

  function ReadPlainLine(parse: NumberParser, raw: string): Option<PlainSample> {
    var line := Strip(IsSpace, raw);
    if IsData(line) then SplitSample(parse, line) else None
  }

  /** What a line reader makes of the first `n` lines, in order. */
  function Gather<T>(read: string -> Option<T>, lines: seq<string>, n: nat): seq<T>
    requires n <= |lines|
  {
    if n == 0 then [] else Gather(read, lines, n - 1) + AsSeq(read(lines[n - 1]))
  }

  function AsSeq<T>(x: Option<T>): seq<T> {
    if x.Some? then [x.value] else []
  }

  function GatherText<T>(read: string -> Option<T>, text: string): seq<T> {
    var lines := SplitLines(text);
    Gather(read, lines, |lines|)
  }

  function LabeledReader(parse: NumberParser): string -> Option<LabeledSample> {
    line => ReadLabeledLine(parse, line)
  }

  function PlainReader(parse: NumberParser): string -> Option<PlainSample> {
    line => ReadPlainLine(parse, line)
  }

  function ParseLabeled(parse: NumberParser, text: string): seq<LabeledSample> {
    GatherText(LabeledReader(parse), text)
  }

  /** The last value seen for each name among the first `n` samples. */
  function LastWins(samples: seq<PlainSample>, n: nat): map<string, real>
    requires n <= |samples|
  {
    if n == 0 then map[] else LastWins(samples, n - 1)[samples[n - 1].name := samples[n - 1].value]
  }

  function ParsePlain(parse: NumberParser, text: string): map<string, real> {
    var samples := GatherText(PlainReader(parse), text);
    LastWins(samples, |samples|)
  }

  /** The line loop that both parsers run. */
  method ParseLines<T>(read: string -> Option<T>, text: string) returns (found: seq<T>)
    ensures found == GatherText(read, text)
  {
    found := [];
    var lines := SplitLines(text);
    for i := 0 to |lines|
      invariant found == Gather(read, lines, i)
    {
      var sample := read(lines[i]);
      if sample.Some? {
        found := found + [sample.value];
      }
    }
  }

  method ParseLabeledPrometheusText(parse: NumberParser, text: string) returns (samples: seq<LabeledSample>)
    ensures samples == ParseLabeled(parse, text)
  {
    samples := ParseLines(LabeledReader(parse), text);
  }

  method ParsePrometheusText(parse: NumberParser, text: string) returns (metrics: map<string, real>)
    ensures metrics == ParsePlain(parse, text)
  {
    metrics := map[];
    var samples := ParseLines(PlainReader(parse), text);
    for i := 0 to |samples|
      invariant metrics == LastWins(samples, i)
    {
      metrics := metrics[samples[i].name := samples[i].value];
    }
  }

  predicate IsLast(samples: seq<PlainSample>, n: nat, name: string, i: int) {
    0 <= i < n <= |samples| && samples[i].name == name && forall j | i < j < n :: samples[j].name != name
  }

  /** `LastWins` means what it says: a name is kept when it was seen, with its last value. */
  lemma {:induction false} LastWinsMeaning(samples: seq<PlainSample>, n: nat, name: string)
    requires n <= |samples|
    ensures name in LastWins(samples, n) <==> exists i :: 0 <= i < n && samples[i].name == name
    ensures name in LastWins(samples, n) ==> exists i :: IsLast(samples, n, name, i) && samples[i].value == LastWins(samples, n)[name]
  {
    if n > 0 {
      if samples[n - 1].name == name {
        assert IsLast(samples, n, name, n - 1);
      } else {
        LastWinsMeaning(samples, n - 1, name);
        if name in LastWins(samples, n - 1) {
          var i :| IsLast(samples, n - 1, name, i) && samples[i].value == LastWins(samples, n - 1)[name];
          assert IsLast(samples, n, name, i);
        }
      }
    }
  }

  // ---- Texts joined by a line feed ----

  lemma {:induction false} GatherCons<T>(read: string -> Option<T>, line: string, lines: seq<string>, n: nat)
    requires n <= |lines|
    ensures Gather(read, [line] + lines, n + 1) == AsSeq(read(line)) + Gather(read, lines, n)
  {
    if n > 0 {
      GatherCons(read, line, lines, n - 1);
      assert ([line] + lines)[n] == lines[n - 1];
      ConsSnoc(AsSeq(read(line)), Gather(read, lines, n - 1), AsSeq(read(lines[n - 1])));
    }
  }

  lemma ConsSnoc<T>(a: seq<T>, b: seq<T>, c: seq<T>)
    ensures (a + b) + c == a + (b + c)
  {
  }

  /** Lines read far into a text are the lines of the text that starts there. */
  lemma {:induction false} LinesShift(whole: string, part: string, off: nat, start: nat, i: nat)
    requires |whole| == off + |part| && start <= i <= |part|
    requires forall k | 0 <= k < |part| :: whole[off + k] == part[k]
    ensures LinesFrom(whole, off + start, off + i) == LinesFrom(part, start, i)
    decreases |part| - i
  {
    assert whole[off + start..off + i] == part[start..i];
    if i < |part| {
      assert whole[off + i] == part[i];
      if IsBreak(part[i]) {
        var next := AfterBreak(part, i);
        if i + 1 < |part| {
          assert whole[off + (i + 1)] == part[i + 1];
        }
        assert AfterBreak(whole, off + i) == off + next;
        LinesShift(whole, part, off, next, next);
      } else {
        LinesShift(whole, part, off, start, i + 1);
      }
    }
  }

  lemma {:induction false} BreakFreeStart(text: string, n: nat, i: nat)
    requires i <= n <= |text| && forall k | 0 <= k < n :: !IsBreak(text[k])
    ensures LinesFrom(text, 0, i) == LinesFrom(text, 0, n)
    decreases n - i
  {
    if i < n {
      BreakFreeStart(text, n, i + 1);
    }
  }

  /** A line ends at any line boundary, and a carriage return with the line feed behind it is one
      boundary; what is left at the end is a line unless it is empty. */
  lemma LinesAreCut(line: string, brk: string, rest: string, text: string)
    requires text == line + brk + rest && forall k | 0 <= k < |line| :: !IsBreak(line[k])
    requires brk == "\r\n" || (|brk| == 1 && IsBreak(brk[0]) && (brk == "\r" && rest != "" ==> rest[0] != '\n'))
    ensures SplitLines(text) == [line] + SplitLines(rest)
    ensures SplitLines(line) == if line == "" then [] else [line]
  {
    BreakFreeStart(text, |line|, 0);
    BreakFreeStart(line, |line|, 0);
    assert line[0..|line|] == line == text[0..|line|];
    var next := |line| + |brk|;
    assert text[|line|] == brk[0] && text[next..] == rest;
    assert AfterBreak(text, |line|) == next;
    LinesShift(text, rest, next, 0, 0);
  }

  /** What gathering the lines of a text from `start` on gives. */
  function GatherFrom<T>(read: string -> Option<T>, text: string, start: nat, i: nat): seq<T>
    requires start <= i <= |text|
  {
    var lines := LinesFrom(text, start, i);
    Gather(read, lines, |lines|)
  }

  lemma GatherFromStep<T>(read: string -> Option<T>, text: string, start: nat, i: nat)
    requires start <= i <= |text|
    ensures i == |text| ==> GatherFrom(read, text, start, i) == if start < i then AsSeq(read(text[start..i])) else []
    ensures i < |text| && IsBreak(text[i]) ==>
      GatherFrom(read, text, start, i)
        == AsSeq(read(text[start..i])) + GatherFrom(read, text, AfterBreak(text, i), AfterBreak(text, i))
    ensures i < |text| && !IsBreak(text[i]) ==>
      GatherFrom(read, text, start, i) == GatherFrom(read, text, start, i + 1)
  {
    if i == |text| {
      if start < i {
        var line := text[start..i];
        assert Gather(read, [line], 1) == [] + AsSeq(read(line)) == AsSeq(read(line));
      }
    } else if IsBreak(text[i]) {
      var rest := LinesFrom(text, AfterBreak(text, i), AfterBreak(text, i));
      GatherCons(read, text[start..i], rest, |rest|);
    }
  }

  /** `whole` is `a`, a line feed and `b`. */
  ghost predicate Joined(whole: string, a: string, b: string) {
    && |whole| == |a| + 1 + |b|
    && (forall k | 0 <= k < |a| :: whole[k] == a[k])
    && whole[|a|] == '\n'
    && forall k | 0 <= k < |b| :: whole[|a| + 1 + k] == b[k]
  }

  lemma BreakStep<T>(read: string -> Option<T>, text: string, start: nat, i: nat, line: string, rest: seq<T>)
    requires start <= i < |text| && IsBreak(text[i]) && line == text[start..i]
    requires rest == GatherFrom(read, text, AfterBreak(text, i), AfterBreak(text, i))
    ensures GatherFrom(read, text, start, i) == AsSeq(read(line)) + rest
  {
    GatherFromStep(read, text, start, i);
  }

  lemma LastLine<T>(read: string -> Option<T>, text: string, start: nat, line: string)
    requires start <= |text| && line == text[start..] && read("") == None
    ensures GatherFrom(read, text, start, |text|) == AsSeq(read(line))
  {
    GatherFromStep(read, text, start, |text|);
    assert text[start..|text|] == line;
  }

  lemma SecondText<T>(read: string -> Option<T>, whole: string, a: string, b: string)
    requires Joined(whole, a, b)
    ensures GatherFrom(read, whole, |a| + 1, |a| + 1) == GatherText(read, b)
  {
    LinesShift(whole, b, |a| + 1, 0, 0);
  }

  lemma JoinEnd<T>(read: string -> Option<T>, whole: string, a: string, b: string, start: nat)
    requires Joined(whole, a, b) && read("") == None && start <= |a|
    ensures GatherFrom(read, whole, start, |a|) == GatherFrom(read, a, start, |a|) + GatherText(read, b)
  {
    var line := a[start..];
    assert whole[start..|a|] == line;
    LastLine(read, a, start, line);
    SecondText(read, whole, a, b);
    BreakStep(read, whole, start, |a|, line, GatherText(read, b));
  }

  /** A break inside `a` is a break of the whole; when `a` ends with a carriage return, the
      line feed that joins the texts belongs to it. */
  lemma JoinAfterBreak<T>(read: string -> Option<T>, whole: string, a: string, b: string, i: nat)
    requires Joined(whole, a, b) && read("") == None && i < |a|
    requires var next := AfterBreak(a, i);
      GatherFrom(read, whole, next, next) == GatherFrom(read, a, next, next) + GatherText(read, b)
    ensures var next, later := AfterBreak(a, i), AfterBreak(whole, i);
      GatherFrom(read, whole, later, later) == GatherFrom(read, a, next, next) + GatherText(read, b)
  {
    if a[i] == '\r' && i + 1 == |a| {
      SecondText(read, whole, a, b);
      LastLine(read, a, |a|, "");
    }
  }

  lemma {:induction false} JoinGathers<T>(read: string -> Option<T>, whole: string, a: string, b: string, start: nat, i: nat)
    requires Joined(whole, a, b) && read("") == None && start <= i <= |a|
    ensures GatherFrom(read, whole, start, i) == GatherFrom(read, a, start, i) + GatherText(read, b)
    decreases |a| - i
  {
    if i == |a| {
      JoinEnd(read, whole, a, b, start);
    } else if !IsBreak(a[i]) {
      GatherFromStep(read, whole, start, i);
      GatherFromStep(read, a, start, i);
      JoinGathers(read, whole, a, b, start, i + 1);
    } else {
      var next := AfterBreak(a, i);
      JoinGathers(read, whole, a, b, next, next);
      JoinAfterBreak(read, whole, a, b, i);
      var line, restOfA := a[start..i], GatherFrom(read, a, next, next);
      assert whole[start..i] == line;
      BreakStep(read, a, start, i, line, restOfA);
      BreakStep(read, whole, start, i, line, restOfA + GatherText(read, b));
      ConsSnoc(AsSeq(read(line)), restOfA, GatherText(read, b));
    }
  }

  /** The labelled parse of two texts joined by a line feed is the two parses, one after the
      other, whatever the texts are. */
  lemma JoinedTextsParse(parse: NumberParser, a: string, b: string)
    ensures ParseLabeled(parse, a + ("\n" + b)) == ParseLabeled(parse, a) + ParseLabeled(parse, b)
  {
    JoinGathers(LabeledReader(parse), a + ("\n" + b), a, b, 0, 0);
  }
}
