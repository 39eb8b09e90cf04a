/** When the two readers of the exposition format say the same about a line and about a text,
    for every line and whatever `float` makes of its words. */
module PrometheusAgreement {
  import opened Basics
  import opened PrometheusLexer
  import opened PrometheusLabels
  import opened PrometheusText
  import opened PrometheusLines
  import opened PrometheusCanonical

  function Forget(sample: Option<LabeledSample>): Option<PlainSample> {
    if sample.None? then None else Some(PlainSample(sample.value.name, sample.value.value))
  }

  /** A line as both readers get it. */
  ghost predicate IsTrimmed(line: string) {
    line != "" && !IsSpace(line[0]) && !IsSpace(line[|line| - 1])
  }

  // ---- The first and the last word of a line ----

  lemma {:induction false} SkipSpaceMeaning(s: string, i: nat)
    requires i <= |s|
    ensures forall k | i <= k < SkipSpace(IsSpace, s, i) :: IsSpace(s[k])
    decreases |s| - i
  {
    if i < |s| && IsSpace(s[i]) {
      SkipSpaceMeaning(s, i + 1);
    }
  }

  lemma {:induction false} WordEndMeaning(s: string, i: nat)
    requires i <= |s|
    ensures forall k | i <= k < WordEnd(s, i) :: !IsSpace(s[k])
    ensures WordEnd(s, i) < |s| ==> IsSpace(s[WordEnd(s, i)])
    decreases |s| - i
  {
    if i < |s| && !IsSpace(s[i]) {
      WordEndMeaning(s, i + 1);
    }
  }

  /** The last word of `s[i..]` begins at `b`. */
  ghost predicate LastBegins(s: string, i: nat, b: nat) {
    && i <= b < |s| && (b == i || IsSpace(s[b - 1]))
    && forall k | b <= k < |s| :: !IsSpace(s[k])
  }

  lemma {:induction false} LastWord(s: string, i: nat) returns (b: nat)
    requires i < |s| && !IsSpace(s[|s| - 1])
    ensures LastBegins(s, i, b) && Words(s, i) != [] && Words(s, i)[|Words(s, i)| - 1] == s[b..]
    decreases |s| - i
  {
    hide IsSpace, Words, WordEnd, SkipSpace;
    SkipSpaceMeaning(s, i);
    var start := SkipSpace(IsSpace, s, i);
    WordEndMeaning(s, start + 1);
    var end := WordEnd(s, start + 1);
    WordsStep(s, i, start, end);
    if end == |s| {
      NoMoreWords(s);
      b := start;
    } else {
      b := LastWord(s, end);
    }
  }

  lemma NoMoreWords(s: string)
    ensures Words(s, |s|) == []
  {
  }

  lemma FirstWord(s: string, i: nat)
    requires i < |s| && !IsSpace(s[i]) && !IsSpace(s[|s| - 1])
    ensures Words(s, i) != [] && Words(s, i)[0] == s[i..WordEnd(s, i + 1)]
    ensures |Words(s, i)| < 2 <==> WordEnd(s, i + 1) == |s|
  {
    var end := WordEnd(s, i + 1);
    assert SkipSpace(IsSpace, s, i) == i;
    WordsStep(s, i, i, end);
    hide Words, IsSpace, WordEnd, SkipSpace;
    if end == |s| {
      NoMoreWords(s);
    } else {
      var b := LastWord(s, end);
    }
  }

  /** With a space behind the label block, the last word of the line lies behind it. */
  lemma LastIsShared(line: string, after: nat)
    requires IsTrimmed(line) && after < |line| && !NoSpace(line[after..])
    ensures Words(line, 0) != [] && Words(line, after) != []
    ensures Words(line, 0)[|Words(line, 0)| - 1] == Words(line, after)[|Words(line, after)| - 1]
  {
    hide Words, IsSpace;
    var b := LastWord(line, 0);
    var c := LastWord(line, after);
    var k :| 0 <= k < |line| - after && IsSpace(line[after..][k]);
    assert IsSpace(line[after + k]);
  }

  lemma {:induction false} DropSpaceMeaning(s: string, lo: nat, j: nat)
    requires lo <= j <= |s|
    ensures forall k | DropSpace(IsSpace, s, lo, j) <= k < j :: IsSpace(s[k])
    decreases j
  {
    if lo < j && IsSpace(s[j - 1]) {
      DropSpaceMeaning(s, lo, j - 1);
    }
  }

  /** What is in front of the brace, trimmed; only its end can lose space. */
  lemma Head(line: string, brace: nat) returns (hi: nat)
    requires IsTrimmed(line) && brace < |line|
    ensures hi <= brace && Strip(IsSpace, line[..brace]) == line[..hi]
    ensures forall k | hi <= k < brace :: IsSpace(line[k])
  {
    var front := line[..brace];
    assert brace > 0 ==> front[0] == line[0];
    assert SkipSpace(IsSpace, front, 0) == 0;
    hi := DropSpace(IsSpace, front, 0, brace);
    DropSpaceMeaning(front, 0, brace);
    hide IsSpace;
    assert forall k | hi <= k < brace :: line[k] == front[k];
  }

  /** The name the label-free reader finds ends at the first space or at the brace. */
  lemma PlainName(line: string) returns (end: nat)
    requires IsTrimmed(line)
    ensures end <= |line| && Words(line, 0) != []
    ensures var first := Words(line, 0)[0];
      first[..Find(first, '{', 0)] == line[..if Find(line, '{', 0) < end then Find(line, '{', 0) else end]
    ensures forall k | 0 <= k < end :: !IsSpace(line[k])
    ensures end < |line| ==> IsSpace(line[end])
  {
    FirstWord(line, 0);
    WordEndMeaning(line, 1);
    hide IsSpace, Words, WordEnd;
    end := WordEnd(line, 1);
    var first, brace := line[0..end], Find(line, '{', 0);
    FindIsFirst(line, '{', 0);
    if brace < end {
      FindTo(first, '{', 0, brace);
    } else {
      assert '{' !in first;
      NotFound(first, '{', 0);
    }
  }

  /** The two readers find the same name exactly when there is no space inside the text before
      the brace. */
  lemma NamesAgree(line: string)
    requires IsTrimmed(line) && Find(line, '{', 0) < |line|
    ensures Words(line, 0) != []
    ensures var head := Strip(IsSpace, line[..Find(line, '{', 0)]);
      var first := Words(line, 0)[0];
      first[..Find(first, '{', 0)] == head <==> NoSpace(head)
  {
    hide IsSpace, Words, Find, Strip, NoSpace;
    var brace := Find(line, '{', 0);
    var end := PlainName(line);
    var hi := Head(line, brace);
    SameSlice(line, brace, end, hi);
  }

  lemma SameSlice(line: string, brace: nat, end: nat, hi: nat)
    requires hi <= brace < |line| && end <= |line|
    requires forall k | hi <= k < brace :: IsSpace(line[k])
    requires (forall k | 0 <= k < end :: !IsSpace(line[k])) && (end < |line| ==> IsSpace(line[end]))
    ensures line[..if brace < end then brace else end] == line[..hi] <==> NoSpace(line[..hi])
  {
    hide IsSpace;
    var head, name := line[..hi], line[..if brace < end then brace else end];
    if NoSpace(head) {
      forall k | 0 <= k < hi
        ensures !IsSpace(line[k])
      {
        assert line[k] == head[k];
      }
      assert hi < brace ==> IsSpace(line[hi]);
    } else {
      var k :| 0 <= k < hi && IsSpace(head[k]);
      assert IsSpace(line[k]);
      assert |name| <= end <= k;
    }
  }

  // ---- One line ----

  function FirstNumber(parse: NumberParser, words: seq<string>): Option<real> {
    if words == [] then None else parse(words[0])
  }

  function LastNumber(parse: NumberParser, words: seq<string>): Option<real> {
    if words == [] then None else parse(words[|words| - 1])
  }

  /** The value the label-free reader finds on a line of these words. */
  function PlainNumber(parse: NumberParser, words: seq<string>): Option<real> {
    if |words| < 2 then None else LastNumber(parse, words)
  }

  /** The condition on what stands in front of and behind a label block: with a space behind
      it, first and last word of the rest denote the same number; without one, the rest is one
      word and denotes the number that the last word of the line does. And the name has no
      space, unless there is no number. */
  ghost predicate AlikeAround(parse: NumberParser, head: string, rest: string, words: seq<string>) {
    && (if NoSpace(rest) then parse(rest) == PlainNumber(parse, words)
        else FirstNumber(parse, Words(rest, 0)) == LastNumber(parse, Words(rest, 0)))
    && (FirstNumber(parse, Words(rest, 0)).None? || NoSpace(head))
  }

  /** The condition under which the readers agree on a line: without a brace, second and last
      word denote the same number; with a brace that is not closed, or with nothing behind the
      block, the line does not end in a number. */
  ghost predicate ReadAlike(parse: NumberParser, line: string) {
    var words, brace := Words(line, 0), Find(line, '{', 0);
    if brace == |line| then
      |words| < 2 || parse(words[1]) == LastNumber(parse, words)
    else
      var after := AfterLast(line, '}', brace + 1, |line|);
      if after == brace + 1 || after == |line| then PlainNumber(parse, words).None?
      else AlikeAround(parse, Strip(IsSpace, line[..brace]), line[after..], words)
  }

  /** What the two readers make of a line with a closed label block and something behind it. */
  lemma AroundBlock(parse: NumberParser, line: string, brace: nat, after: nat)
    requires IsTrimmed(line) && brace == Find(line, '{', 0) && brace + 1 < after < |line|
    requires after == AfterLast(line, '}', brace + 1, |line|)
    ensures var head, values := Strip(IsSpace, line[..brace]), Words(line[after..], 0);
      values != []
      && SplitLabeledSample(parse, line) == LabeledBy(parse, Braced(head, line[brace + 1..after - 1], values))
      && (NoSpace(line[after..]) ==> values == [line[after..]])
      && (!NoSpace(line[after..]) ==> LastNumber(parse, values) == PlainNumber(parse, Words(line, 0)))
  {
    hide *;
    SameWordsBehind(line, after);
    CutLine(parse, line, brace, after, Words(line[after..], 0));
    WordsAround(line, after);
    NumbersAround(parse, Words(line[after..], 0), Words(line, 0), NoSpace(line[after..]));
  }

  lemma CutLine(parse: NumberParser, line: string, brace: nat, after: nat, values: seq<string>)
    requires brace == Find(line, '{', 0) && brace + 1 < after < |line| && values == Words(line, after)
    requires after == AfterLast(line, '}', brace + 1, |line|)
    ensures SplitLabeledSample(parse, line)
         == LabeledBy(parse, Braced(Strip(IsSpace, line[..brace]), line[brace + 1..after - 1], values))
  {
    hide Words, AfterLast, Find, LabeledBy;
    CutAt(line, brace, after, Braced(Strip(IsSpace, line[..brace]), line[brace + 1..after - 1], values));
  }

  lemma WordsAround(line: string, after: nat)
    requires IsTrimmed(line) && after < |line|
    ensures var values, words := Words(line[after..], 0), Words(line, 0);
      && values != []
      && (NoSpace(line[after..]) ==> values == [line[after..]])
      && (!NoSpace(line[after..]) ==> |words| >= 2 && values[|values| - 1] == words[|words| - 1])
  {
    hide Words, IsSpace, NoSpace;
    SameWordsBehind(line, after);
    var b := LastWord(line, after);
    if NoSpace(line[after..]) {
      NameIsOneWord(line[after..]);
    } else {
      LastIsShared(line, after);
      SpaceMeansTwoWords(line, after);
    }
  }

  lemma NumbersAround(parse: NumberParser, values: seq<string>, words: seq<string>, glued: bool)
    requires values != [] && (!glued ==> |words| >= 2 && values[|values| - 1] == words[|words| - 1])
    ensures !glued ==> LastNumber(parse, values) == PlainNumber(parse, words)
  {
  }

  lemma SameWordsBehind(line: string, after: nat)
    requires after <= |line|
    ensures Words(line[after..], 0) == Words(line, after)
  {
    assert IsConcat(line, line[..after], line[after..]);
    WordsShift(line, line[..after], line[after..], 0);
  }

  lemma SpaceMeansTwoWords(line: string, after: nat)
    requires IsTrimmed(line) && after < |line| && !NoSpace(line[after..])
    ensures |Words(line, 0)| >= 2
  {
    hide Words, IsSpace, WordEnd;
    FirstWord(line, 0);
    WordEndMeaning(line, 1);
    var k :| 0 <= k < |line| - after && IsSpace(line[after..][k]);
    assert IsSpace(line[after + k]);
  }

  lemma NoBraceName(line: string)
    requires IsTrimmed(line) && Find(line, '{', 0) == |line|
    ensures Words(line, 0) != [] && Find(Words(line, 0)[0], '{', 0) == |Words(line, 0)[0]|
  {
    FirstWord(line, 0);
    FindIsFirst(line, '{', 0);
    hide Words, IsSpace, Find;
    NotFound(Words(line, 0)[0], '{', 0);
  }

  lemma AgreeOnBareLine(parse: NumberParser, line: string)
    requires IsTrimmed(line) && Find(line, '{', 0) == |line|
    ensures Forget(SplitLabeledSample(parse, line)) == SplitSample(parse, line) <==> ReadAlike(parse, line)
  {
    hide Words, IsSpace, Find, IsTrimmed;
    NoBraceName(line);
    var first := Words(line, 0)[0];
    assert first[..|first|] == first;
  }

  lemma AgreeWithoutBlock(parse: NumberParser, line: string, brace: nat, after: nat)
    requires IsTrimmed(line) && brace == Find(line, '{', 0) < |line|
    requires after == AfterLast(line, '}', brace + 1, |line|) && after in {brace + 1, |line|}
    ensures Forget(SplitLabeledSample(parse, line)) == SplitSample(parse, line) <==> ReadAlike(parse, line)
  {
    NoMoreWords(line);
    hide Words, IsSpace, Find, IsTrimmed, AfterLast, Strip, ParseLabels, NoSpace, AlikeAround;
  }

  lemma AgreeAroundBlock(parse: NumberParser, line: string, brace: nat, after: nat)
    requires IsTrimmed(line) && brace == Find(line, '{', 0) && brace + 1 < after < |line|
    requires after == AfterLast(line, '}', brace + 1, |line|)
    ensures Forget(SplitLabeledSample(parse, line)) == SplitSample(parse, line) <==> ReadAlike(parse, line)
  {
    hide Words, IsSpace, Find, IsTrimmed, AfterLast, Strip, ParseLabels, NoSpace, SplitLabeledSample;
    NamesAgree(line);
    AroundBlock(parse, line, brace, after);
  }

  /** The two readers agree on a line exactly when `ReadAlike` holds of it. */
  lemma AgreeOnLine(parse: NumberParser, line: string)
    requires IsTrimmed(line)
    ensures Forget(SplitLabeledSample(parse, line)) == SplitSample(parse, line) <==> ReadAlike(parse, line)
  {
    hide *;
    var brace := Find(line, '{', 0);
    if brace == |line| {
      AgreeOnBareLine(parse, line);
    } else {
      var after := AfterLast(line, '}', brace + 1, |line|);
      if after in {brace + 1, |line|} {
        AgreeWithoutBlock(parse, line, brace, after);
      } else {
        AgreeAroundBlock(parse, line, brace, after);
      }
    }
  }

  /** The readers agree on a raw line of a text exactly when it is blank, a comment, or
      `ReadAlike` once trimmed. */
  lemma ReadersAgree(parse: NumberParser, raw: string)
    ensures Forget(ReadLabeledLine(parse, raw)) == ReadPlainLine(parse, raw)
       <==> !IsData(Strip(IsSpace, raw)) || ReadAlike(parse, Strip(IsSpace, raw))
  {
    var line := Strip(IsSpace, raw);
    hide IsSpace, ReadAlike;
    if IsData(line) {
      AgreeOnLine(parse, line);
    }
  }

  // ---- One line, for a parser that knows no braces ----

  /** Python's `float` is one: no number is spelled with a brace. */
  ghost predicate RejectsBraces(parse: NumberParser) {
    forall word | '{' in word || '}' in word :: parse(word).None?
  }

  /** Every word such a parser takes for a number is free of braces. */
  lemma NumbersHaveNoBrace(parse: NumberParser)
    ensures RejectsBraces(parse) <==> forall word | parse(word).Some? :: forall c | c in word :: c != '{' && c != '}'
  {
  }

  /** The same condition, for such a parser. With a block that has something behind it: a space
      there and the same number first and last, with no space in the name; or no number there
      at all. */
  ghost predicate AlikeByNumbers(parse: NumberParser, line: string) {
    var words, brace := Words(line, 0), Find(line, '{', 0);
    if brace == |line| then
      |words| < 2 || parse(words[1]) == LastNumber(parse, words)
    else
      var after := AfterLast(line, '}', brace + 1, |line|);
      if after == brace + 1 then PlainNumber(parse, words).None?
      else
        var values := Words(line[after..], 0);
        || FirstNumber(parse, values) == LastNumber(parse, values) == None
        || (&& !NoSpace(line[after..]) && FirstNumber(parse, values) == LastNumber(parse, values)
            && NoSpace(Strip(IsSpace, line[..brace])))
  }

  /** With no space behind the block the last word of the line holds its closing brace. */
  lemma LastHoldsBrace(parse: NumberParser, line: string, after: nat)
    requires IsTrimmed(line) && 0 < after <= |line| && line[after - 1] == '}' && NoSpace(line[after..])
    requires RejectsBraces(parse)
    ensures PlainNumber(parse, Words(line, 0)).None?
  {
    assert !IsSpace('}');
    hide Words, IsSpace;
    var b := LastWord(line, 0);
    forall k | after <= k < |line|
      ensures !IsSpace(line[k])
    {
      assert line[k] == line[after..][k - after];
    }
    assert b < after;
    assert line[b..][after - 1 - b] == '}';
  }

  lemma NothingBehind()
    ensures NoSpace("") && Words("", 0) == []
  {
  }

  lemma AlikeByNumbersBehind(parse: NumberParser, line: string, brace: nat, after: nat)
    requires IsTrimmed(line) && RejectsBraces(parse) && brace == Find(line, '{', 0) && brace + 1 < after <= |line|
    requires after == AfterLast(line, '}', brace + 1, |line|)
    ensures ReadAlike(parse, line) <==> AlikeByNumbers(parse, line)
  {
    hide Words, IsSpace, Find, AfterLast, Strip, RejectsBraces, SplitLabeledSample, NoSpace, IsTrimmed;
    if after < |line| {
      AroundBlock(parse, line, brace, after);
    } else {
      assert line[after..] == "";
      NothingBehind();
    }
    if NoSpace(line[after..]) {
      LastHoldsBrace(parse, line, after);
    }
  }

  lemma AlikeByNumbersHolds(parse: NumberParser, line: string)
    requires IsTrimmed(line) && RejectsBraces(parse)
    ensures ReadAlike(parse, line) <==> AlikeByNumbers(parse, line)
  {
    hide Words, IsSpace, Find, AfterLast, Strip, RejectsBraces, NoSpace, IsTrimmed, AlikeAround, FirstNumber, LastNumber, PlainNumber;
    var brace := Find(line, '{', 0);
    if brace < |line| {
      var after := AfterLast(line, '}', brace + 1, |line|);
      if brace + 1 < after {
        AlikeByNumbersBehind(parse, line, brace, after);
      }
    }
  }

  /** The readers of a raw line, for such a parser. */
  lemma ReadersAgreeByNumbers(parse: NumberParser, raw: string)
    requires RejectsBraces(parse)
    ensures Forget(ReadLabeledLine(parse, raw)) == ReadPlainLine(parse, raw)
       <==> !IsData(Strip(IsSpace, raw)) || AlikeByNumbers(parse, Strip(IsSpace, raw))
  {
    ReadersAgree(parse, raw);
    var line := Strip(IsSpace, raw);
    hide IsSpace, ReadAlike, AlikeByNumbers;
    if IsData(line) {
      AlikeByNumbersHolds(parse, line);
    }
  }

  /** With no space behind the label block the label-free reader loses exactly the sample that
      the labelled reader returns. */
  lemma UnspacedValueIsLost(parse: NumberParser, line: string, brace: nat, after: nat)
    requires IsTrimmed(line) && RejectsBraces(parse) && brace == Find(line, '{', 0) && brace + 1 < after < |line|
    requires after == AfterLast(line, '}', brace + 1, |line|) && NoSpace(line[after..])
    ensures SplitSample(parse, line) == None
    ensures SplitLabeledSample(parse, line) == match parse(line[after..])
      case None => None
      case Some(value) =>
        Some(LabeledSample(Strip(IsSpace, line[..brace]), value, ParseLabels(line[brace + 1..after - 1])))
  {
    hide Words, IsSpace, Find, AfterLast, Strip, RejectsBraces, SplitLabeledSample, ParseLabels;
    AroundBlock(parse, line, brace, after);
    LastHoldsBrace(parse, line, after);
  }

  // ---- Lines on which they differ ----

  lemma ThreeWords(name: string, word: string, stamp: string, line: string)
    requires line == name + (" " + word + (" " + stamp))
    requires name != "" && word != "" && stamp != "" && NoSpace(name) && NoSpace(word) && NoSpace(stamp)
    ensures Words(line, 0) == [name, word, stamp]
  {
    hide Words;
    OneWord(word);
    OneWord(stamp);
    NameIsOneWord(name);
    WordsConcat(" " + word + (" " + stamp), " " + word, " " + stamp, 0);
    WordsConcat(line, name, " " + word + (" " + stamp), 0);
    assert Words(line, 0) == [name, word, stamp];
  }

  /** A timestamp on a line without labels is what the label-free reader takes for the value. */
  lemma TimestampIsTaken(parse: NumberParser, name: string, word: string, stamp: string, line: string)
    requires line == name + (" " + word + (" " + stamp)) && '{' !in line
    requires name != "" && word != "" && stamp != "" && NoSpace(name) && NoSpace(word) && NoSpace(stamp)
    requires parse(word).Some? && parse(stamp).Some?
    ensures SplitLabeledSample(parse, line) == Some(LabeledSample(name, parse(word).value, map[]))
    ensures SplitSample(parse, line) == Some(PlainSample(name, parse(stamp).value))
  {
    hide Words, NoSpace;
    ThreeWords(name, word, stamp, line);
    NotFound(line, '{', 0);
    assert forall k | 0 <= k < |name| :: name[k] == line[k];
    NotFound(name, '{', 0);
    assert name[..|name|] == name;
  }

  /** Such a line. */
  lemma TimestampLine(parse: NumberParser)
    requires parse("1") == Some(1.0) && parse("1700000000000") == Some(1700000000000.0)
    ensures SplitLabeledSample(parse, "up 1 1700000000000") == Some(LabeledSample("up", 1.0, map[]))
    ensures SplitSample(parse, "up 1 1700000000000") == Some(PlainSample("up", 1700000000000.0))
  {
    assert "up 1 1700000000000" == "up" + (" " + "1" + (" " + "1700000000000"));
    TimestampIsTaken(parse, "up", "1", "1700000000000", "up 1 1700000000000");
  }

  lemma UnclosedWords(name: string, word: string, line: string)
    requires line == name + "{" + (" " + word) && name != "" && NoSpace(name)
    requires word != "" && NoSpace(word)
    ensures Words(line, 0) == [name + "{", word]
  {
    var first := name + "{";
    assert !IsSpace('{') && IsSpace(' ');
    hide Words, IsSpace;
    NameIsOneWord(first);
    OneWord(word);
    WordsConcat(line, first, " " + word, 0);
    assert Words(line, 0) == [first] + [word];
  }

  /** On a line with an unclosed brace only the label-free reader finds a sample. */
  lemma UnclosedBraceIsRead(parse: NumberParser, name: string, word: string, line: string)
    requires line == name + "{" + (" " + word) && name != "" && NoSpace(name) && '{' !in name
    requires word != "" && NoSpace(word) && '}' !in line && parse(word).Some?
    ensures SplitLabeledSample(parse, line) == None
    ensures SplitSample(parse, line) == Some(PlainSample(name, parse(word).value))
  {
    hide Words, NoSpace;
    UnclosedWords(name, word, line);
    FindTo(name + "{", '{', 0, |name|);
    assert (name + "{")[..|name|] == name;
    assert forall k | 0 <= k < |name| :: line[k] == name[k];
    FindTo(line, '{', 0, |name|);
  }

  // ---- A whole text ----

  lemma {:induction false} GatheredAlike(parse: NumberParser, lines: seq<string>, n: nat)
    requires n <= |lines|
    requires forall k | 0 <= k < n :: Forget(ReadLabeledLine(parse, lines[k])) == ReadPlainLine(parse, lines[k])
    ensures Gather(PlainReader(parse), lines, n) == PlainOf(Gather(LabeledReader(parse), lines, n))
  {
    hide ReadLabeledLine, ReadPlainLine;
    if n > 0 {
      GatheredAlike(parse, lines, n - 1);
    }
  }

  /** When the readers agree on every line, the label-free parse of a text is the
      last-value-wins projection of the labelled one. */
  lemma TextsReadAlike(parse: NumberParser, text: string)
    requires forall k | 0 <= k < |SplitLines(text)| ::
      var line := Strip(IsSpace, SplitLines(text)[k]);
      !IsData(line) || ReadAlike(parse, line)
    ensures var plain := PlainOf(ParseLabeled(parse, text));
      ParsePlain(parse, text) == LastWins(plain, |plain|)
  {
    var lines := SplitLines(text);
    forall k | 0 <= k < |lines|
      ensures Forget(ReadLabeledLine(parse, lines[k])) == ReadPlainLine(parse, lines[k])
    {
      ReadersAgree(parse, lines[k]);
    }
    GatheredAlike(parse, lines, |lines|);
  }
}
