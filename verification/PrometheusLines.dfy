/** The words of texts that are put together from parts, and what the two line readers find on a
    line of the form `name{block}rest`. */
module PrometheusLines {
  import opened Basics
  import opened PrometheusLexer
  import opened PrometheusLabels
  import opened PrometheusText

  // ---- Words of a text that is put together from two parts ----

  ghost predicate IsConcat(s: string, a: string, b: string) {
    && |s| == |a| + |b|
    && (forall k | 0 <= k < |a| :: s[k] == a[k])
    && forall k | 0 <= k < |b| :: s[|a| + k] == b[k]
  }

  lemma {:induction false} SkipSpaceShift(s: string, a: string, b: string, i: nat)
    requires IsConcat(s, a, b) && i <= |b|
    ensures SkipSpace(IsSpace, s, |a| + i) == |a| + SkipSpace(IsSpace, b, i)
    decreases |b| - i
  {
    if i < |b| {
      assert s[|a| + i] == b[i];
      if IsSpace(b[i]) {
        SkipSpaceShift(s, a, b, i + 1);
      }
    }
  }

  lemma {:induction false} WordEndShift(s: string, a: string, b: string, i: nat)
    requires IsConcat(s, a, b) && i <= |b|
    ensures WordEnd(s, |a| + i) == |a| + WordEnd(b, i)
    decreases |b| - i
  {
    if i < |b| {
      assert s[|a| + i] == b[i];
      if !IsSpace(b[i]) {
        WordEndShift(s, a, b, i + 1);
      }
    }
  }

  lemma SliceShift(s: string, a: string, b: string, lo: nat, hi: nat)
    requires IsConcat(s, a, b) && lo <= hi <= |b|
    ensures s[|a| + lo..|a| + hi] == b[lo..hi]
  {
    forall k | 0 <= k < hi - lo
      ensures s[|a| + lo..|a| + hi][k] == b[lo..hi][k]
    {
      assert s[|a| + (lo + k)] == b[lo + k];
    }
  }

  lemma SliceFront(s: string, a: string, b: string, lo: nat, hi: nat)
    requires IsConcat(s, a, b) && lo <= hi <= |a|
    ensures s[lo..hi] == a[lo..hi]
  {
  }

  lemma WordsStep(s: string, i: nat, start: nat, end: nat)
    requires i <= start < end <= |s| && SkipSpace(IsSpace, s, i) == start && WordEnd(s, start + 1) == end
    ensures Words(s, i) == [s[start..end]] + Words(s, end)
  {
  }

  /** The first word found far into a text is the first word of the part that starts there. */
  lemma FirstWordShift(s: string, a: string, b: string, i: nat, start: nat, end: nat)
    requires IsConcat(s, a, b) && i <= start < end <= |b|
    requires SkipSpace(IsSpace, b, i) == start && WordEnd(b, start + 1) == end
    ensures Words(s, |a| + i) == [b[start..end]] + Words(s, |a| + end)
  {
    hide Words, SkipSpace, WordEnd, IsSpace;
    SkipSpaceShift(s, a, b, i);
    WordEndShift(s, a, b, start + 1);
    SliceShift(s, a, b, start, end);
    WordsStep(s, |a| + i, |a| + start, |a| + end);
  }

  lemma NoWords(s: string, i: nat)
    requires i <= |s| && SkipSpace(IsSpace, s, i) == |s|
    ensures Words(s, i) == []
  {
  }

  lemma {:induction false} WordsShift(s: string, a: string, b: string, i: nat)
    requires IsConcat(s, a, b) && i <= |b|
    ensures Words(s, |a| + i) == Words(b, i)
    decreases |b| - i
  {
    hide Words, SkipSpace, WordEnd, IsSpace;
    var start := SkipSpace(IsSpace, b, i);
    if start == |b| {
      SkipSpaceShift(s, a, b, i);
      NoWords(s, |a| + i);
      NoWords(b, i);
    } else {
      var end := WordEnd(b, start + 1);
      WordsShift(s, a, b, end);
      FirstWordShift(s, a, b, i, start, end);
      WordsStep(b, i, start, end);
    }
  }

  lemma {:induction false} SkipSpaceFront(s: string, a: string, b: string, i: nat)
    requires IsConcat(s, a, b) && i <= |a|
    ensures SkipSpace(IsSpace, s, i) ==
      if SkipSpace(IsSpace, a, i) < |a| then SkipSpace(IsSpace, a, i) else |a| + SkipSpace(IsSpace, b, 0)
    decreases |a| - i
  {
    if i == |a| {
      SkipSpaceShift(s, a, b, 0);
    } else {
      assert s[i] == a[i];
      if IsSpace(a[i]) {
        SkipSpaceFront(s, a, b, i + 1);
      }
    }
  }

  lemma {:induction false} WordEndFront(s: string, a: string, b: string, i: nat)
    requires IsConcat(s, a, b) && i <= |a| && (b == "" || IsSpace(b[0]))
    ensures WordEnd(s, i) == WordEnd(a, i)
    decreases |a| - i
  {
    if i == |a| {
      assert b != "" ==> s[|a| + 0] == b[0];
    } else {
      assert s[i] == a[i];
      if !IsSpace(a[i]) {
        WordEndFront(s, a, b, i + 1);
      }
    }
  }

  /** Words do not run across a space. */
  lemma {:induction false} WordsConcat(s: string, a: string, b: string, i: nat)
    requires IsConcat(s, a, b) && i <= |a| && (b == "" || IsSpace(b[0]))
    ensures Words(s, i) == Words(a, i) + Words(b, 0)
    decreases |a| - i
  {
    SkipSpaceFront(s, a, b, i);
    var start := SkipSpace(IsSpace, a, i);
    if start == |a| {
      WordsBehind(s, a, b, i);
    } else {
      WordEndFront(s, a, b, start + 1);
      var end := WordEnd(a, start + 1);
      SliceFront(s, a, b, start, end);
      WordsConcat(s, a, b, end);
      WordsStep(s, i, start, end);
      WordsStep(a, i, start, end);
      ConsSnoc([a[start..end]], Words(a, end), Words(b, 0));
    }
  }

  lemma WordsBehind(s: string, a: string, b: string, i: nat)
    requires IsConcat(s, a, b) && i <= |a| && SkipSpace(IsSpace, a, i) == |a|
    ensures Words(s, i) == Words(b, 0) && Words(a, i) == []
  {
    hide Words, SkipSpace, WordEnd, IsSpace;
    SkipSpaceFront(s, a, b, i);
    NoWords(a, i);
    WordsSkip(s, i);
    WordsSkip(b, 0);
    WordsShift(s, a, b, SkipSpace(IsSpace, b, 0));
  }

  lemma {:induction false} SkipSpaceIdempotent(s: string, i: nat)
    requires i <= |s|
    ensures SkipSpace(IsSpace, s, SkipSpace(IsSpace, s, i)) == SkipSpace(IsSpace, s, i)
  {
  }

  lemma WordsSkip(s: string, i: nat)
    requires i <= |s|
    ensures Words(s, i) == Words(s, SkipSpace(IsSpace, s, i))
  {
    SkipSpaceIdempotent(s, i);
  }

  lemma {:induction false} WordEndBeyond(s: string, i: nat, j: nat)
    requires i <= j <= |s| && forall k | i <= k < j :: !IsSpace(s[k])
    ensures WordEnd(s, i) >= j
    decreases j - i
  {
    if i < j {
      WordEndBeyond(s, i + 1, j);
    }
  }

  // ---- One line with a label block ----

  ghost predicate NoSpace(s: string) {
    forall k | 0 <= k < |s| :: !IsSpace(s[k])
  }

  /** `line` is `name{block}rest`. */
  ghost predicate IsLabeledLine(line: string, name: string, block: string, rest: string) {
    var open := |name|;
    var close := open + 1 + |block|;
    && |line| == close + 1 + |rest|
    && (forall k | 0 <= k < |name| :: line[k] == name[k])
    && line[open] == '{' && line[close] == '}'
    && (forall k | 0 <= k < |block| :: line[open + 1 + k] == block[k])
    && forall k | 0 <= k < |rest| :: line[close + 1 + k] == rest[k]
  }

  lemma {:induction false} AfterLastTo(s: string, c: char, lo: nat, at: nat, hi: nat)
    requires lo <= at < hi <= |s| && s[at] == c && forall k | at < k < hi :: s[k] != c
    ensures AfterLast(s, c, lo, hi) == at + 1
  {
    if at + 1 < hi {
      AfterLastTo(s, c, lo, at, hi - 1);
    }
  }

  lemma LinePositions(line: string, name: string, block: string, rest: string)
    requires IsLabeledLine(line, name, block, rest) && '{' !in name && '}' !in rest
    ensures Find(line, '{', 0) == |name|
    ensures AfterLast(line, '}', |name| + 1, |line|) == |name| + 1 + |block| + 1
  {
    FindTo(line, '{', 0, |name|);
    var close := |name| + 1 + |block|;
    forall k | close < k < |line|
      ensures line[k] != '}'
    {
      assert line[close + 1 + (k - close - 1)] == rest[k - close - 1];
    }
    AfterLastTo(line, '}', |name| + 1, close, |line|);
  }

  lemma LineParts(line: string, name: string, block: string, rest: string)
    requires IsLabeledLine(line, name, block, rest)
    ensures var close := |name| + 1 + |block|;
      line[..|name|] == name && line[|name| + 1..close] == block && Words(line, close + 1) == Words(rest, 0)
  {
    hide Words;
    var front := line[..|name| + 1 + |block| + 1];
    assert IsConcat(line, front, rest);
    WordsShift(line, front, rest, 0);
  }

  lemma CutAt(line: string, brace: nat, after: nat, cut: Braced)
    requires brace + 1 < after <= |line| && AfterLast(line, '}', brace + 1, |line|) == after
    requires Strip(IsSpace, line[..brace]) == cut.name && line[brace + 1..after - 1] == cut.block
    requires Words(line, after) == cut.words
    ensures CutAtBraces(line, brace) == Some(cut)
  {
  }

  /** The labelled reader finds the name, the block up to the last closing brace - whatever
      braces and quotes the block holds - and the first word of the rest. */
  lemma LabeledLineReads(parse: NumberParser, line: string, name: string, block: string, rest: string)
    requires IsLabeledLine(line, name, block, rest) && '{' !in name && '}' !in rest
    ensures SplitLabeledSample(parse, line) == LabeledBy(parse, Braced(Strip(IsSpace, name), block, Words(rest, 0)))
  {
    LinePositions(line, name, block, rest);
    LineParts(line, name, block, rest);
    CutAt(line, |name|, |name| + 1 + |block| + 1, Braced(Strip(IsSpace, name), block, Words(rest, 0)));
  }

  /** The label-free reader finds the same name, but the last word of the rest. */
  lemma PlainLineReads(parse: NumberParser, line: string, name: string, block: string, rest: string)
    requires IsLabeledLine(line, name, block, rest) && '{' !in name && NoSpace(name)
    requires rest != "" && IsSpace(rest[0]) && Words(rest, 0) != []
    ensures var words := Words(rest, 0);
      var last := parse(words[|words| - 1]);
      SplitSample(parse, line) == if last.None? then None else Some(PlainSample(name, last.value))
  {
    var front := line[..|name| + 2 + |block|];
    assert IsConcat(line, front, rest);
    WordsConcat(line, front, rest, 0);
    FirstWordOfFront(front, name);
  }

  lemma FirstWordOfFront(front: string, name: string)
    requires |name| < |front| && front[|name|] == '{' && forall k | 0 <= k < |name| :: front[k] == name[k]
    requires NoSpace(name) && '{' !in name
    ensures var words := Words(front, 0);
      words != [] && Find(words[0], '{', 0) == |name| && words[0][..|name|] == name
  {
    forall k | 0 <= k < |name| + 1
      ensures !IsSpace(front[k])
    {
      assert k < |name| ==> front[k] == name[k];
    }
    assert SkipSpace(IsSpace, front, 0) == 0;
    WordEndBeyond(front, 1, |name| + 1);
    var first := front[0..WordEnd(front, 1)];
    FindTo(first, '{', 0, |name|);
  }
}
