/** The scanner of one label block of the Prometheus exposition format: separators, keys, quoted
    values with their escapes, and the loops of the scanner proved against that reading. */
module PrometheusLexer {
  import opened Basics

  datatype LabeledSample = LabeledSample(name: string, value: real, labels: map<string, string>)

  /** Where `str.splitlines` ends a line. */
  predicate IsBreak(c: char) {
    || '\U{A}' <= c <= '\U{D}' || '\U{1C}' <= c <= '\U{1E}'
    || c == '\U{85}' || c == '\U{2028}' || c == '\U{2029}'
  }

  /** What `str.split` and `str.strip` treat as white space. */
  predicate IsSpace(c: char) {
    || IsBreak(c) || c == '\t' || c == ' ' || c == '\U{1F}' || c == '\U{A0}' || c == '\U{1680}'
    || '\U{2000}' <= c <= '\U{200A}' || c == '\U{202F}' || c == '\U{205F}' || c == '\U{3000}'
  }

  predicate IsSeparator(c: char) {
    c == ' ' || c == ',' || c == '\t'
  }

  /** The characters of the three classes, by code point. */
  lemma CharacterClasses(c: char)
    ensures IsBreak(c) <==> c as int in {10, 11, 12, 13, 28, 29, 30, 133, 8232, 8233}
    ensures IsSpace(c) <==> (
      || 9 <= c as int <= 13 || 28 <= c as int <= 32 || 8192 <= c as int <= 8202
      || c as int in {133, 160, 5760, 8232, 8233, 8239, 8287, 12288})
    ensures IsSeparator(c) <==> c as int in {9, 32, 44}
  {
  }

  // ---- The label block ----

  function SkipSeparators(raw: string, i: nat): (j: nat)
    requires i <= |raw|
    ensures i <= j <= |raw|
    ensures j < |raw| ==> !IsSeparator(raw[j])
    decreases |raw| - i
  {
    if i < |raw| && IsSeparator(raw[i]) then SkipSeparators(raw, i + 1) else i
  }

  /** First position of `c` from `i` on, or the length when there is none. */
  function Find(s: string, c: char, i: nat): (j: nat)
    requires i <= |s|
    ensures i <= j <= |s|
    ensures j < |s| ==> s[j] == c
    decreases |s| - i
  {
    if i < |s| && s[i] != c then Find(s, c, i + 1) else i
  }

  function Unescape(c: char): char {
    if c == 'n' then '\n' else c
  }

  /** The value that starts at `i`, up to its closing quote or the end of the block. */
  function ScanValue(raw: string, i: nat): string
    requires i <= |raw|
    decreases |raw| - i
  {
    if i == |raw| || raw[i] == '"' then ""
    else if raw[i] == '\\' && i + 1 < |raw| then [Unescape(raw[i + 1])] + ScanValue(raw, i + 2)
    else [raw[i]] + ScanValue(raw, i + 1)
  }

  /** Where scanning goes on after that value. */
  function ValueEnd(raw: string, i: nat): (j: nat)
    requires i <= |raw|
    ensures i <= j <= |raw|
    decreases |raw| - i
  {
    if i == |raw| then i
    else if raw[i] == '"' then i + 1
    else if raw[i] == '\\' && i + 1 < |raw| then ValueEnd(raw, i + 2)
    else ValueEnd(raw, i + 1)
  }

  /** One label of the block and where scanning goes on after it. */
  datatype Found = Found(key: string, value: string, next: nat)

  /** The label that starts at or after `i`; `None` when scanning gives up. */
  function NextLabel(raw: string, i: nat): (found: Option<Found>)
    requires i <= |raw|
    ensures found.Some? ==> i < found.value.next <= |raw|
  {
    var start := SkipSeparators(raw, i);
    var eq := Find(raw, '=', start);
    if eq == |raw| || eq + 1 == |raw| || raw[eq + 1] != '"' then None else
    Some(Found(Strip(IsSpace, raw[start..eq]), ScanValue(raw, eq + 2), ValueEnd(raw, eq + 2)))
  }

  function AddLabel(labels: map<string, string>, found: Found): map<string, string> {
    if found.key == "" then labels else labels[found.key := found.value]
  }

  /** The labels found from `i` on, added to those found before. */
  function LabelsFrom(raw: string, i: nat, labels: map<string, string>): map<string, string>
    requires i <= |raw|
    decreases |raw| - i
  {
    match NextLabel(raw, i)
    case None => labels
    case Some(found) => LabelsFrom(raw, found.next, AddLabel(labels, found))
  }

  function ParseLabels(raw: string): map<string, string> {
    LabelsFrom(raw, 0, map[])
  }

  lemma ScanStep(raw: string, i: nat)
    requires i < |raw| && raw[i] != '"'
    ensures raw[i] == '\\' && i + 1 < |raw| ==>
      ScanValue(raw, i) == [Unescape(raw[i + 1])] + ScanValue(raw, i + 2) && ValueEnd(raw, i) == ValueEnd(raw, i + 2)
    ensures raw[i] != '\\' || i + 1 == |raw| ==>
      ScanValue(raw, i) == [raw[i]] + ScanValue(raw, i + 1) && ValueEnd(raw, i) == ValueEnd(raw, i + 1)
  {
  }

  lemma ScanEnd(raw: string, i: nat)
    requires i <= |raw| && (i < |raw| ==> raw[i] == '"')
    ensures ScanValue(raw, i) == "" && ValueEnd(raw, i) == if i < |raw| then i + 1 else i
  {
  }

  lemma AppendOne(value: string, c: char, rest: string)
    ensures value + ([c] + rest) == (value + [c]) + rest
  {
  }

  /** Reads the quoted value whose text starts at `open`. */
  method ReadValue(raw: string, open: nat) returns (value: string, i: nat)
    requires open <= |raw|
    ensures value == ScanValue(raw, open) && i == ValueEnd(raw, open)
  {
    hide ScanValue, ValueEnd;
    value, i := "", open;
    while i < |raw|
      invariant open <= i <= |raw|
      invariant value + ScanValue(raw, i) == ScanValue(raw, open)
      invariant ValueEnd(raw, i) == ValueEnd(raw, open)
      decreases |raw| - i
    {
      var c := raw[i];
      if c == '\\' && i + 1 < |raw| {
        var next := raw[i + 1];
        ScanStep(raw, i);
        AppendOne(value, Unescape(next), ScanValue(raw, i + 2));
        value := value + [if next == 'n' then '\n' else next];
        i := i + 2;
        continue;
      }
      if c == '"' {
        ScanEnd(raw, i);
        i := i + 1;
        return;
      }
      ScanStep(raw, i);
      AppendOne(value, c, ScanValue(raw, i + 1));
      value := value + [c];
      i := i + 1;
    }
    ScanEnd(raw, i);
  }

  /** Reads the next label of the block. */
  method ReadLabel(raw: string, from: nat) returns (found: Option<Found>)
    requires from <= |raw|
    ensures found == NextLabel(raw, from)
  {
    var i := from;
    while i < |raw| && IsSeparator(raw[i])
      invariant from <= i <= |raw|
      invariant SkipSeparators(raw, i) == SkipSeparators(raw, from)
    {
      i := i + 1;
    }
    var keyStart := i;
    assert keyStart == SkipSeparators(raw, from);
    while i < |raw| && raw[i] != '='
      invariant keyStart <= i <= |raw|
      invariant Find(raw, '=', i) == Find(raw, '=', keyStart)
    {
      i := i + 1;
    }
    assert i == Find(raw, '=', keyStart);
    if i >= |raw| {
      return None;
    }
    var key := Strip(IsSpace, raw[keyStart..i]);
    i := i + 1;
    if i >= |raw| || raw[i] != '"' {
      return None;
    }
    var value, next := ReadValue(raw, i + 1);
    return Some(Found(key, value, next));
  }

  /** The scanner. It terminates on every input. */
  method ParseLabelBlock(raw: string) returns (labels: map<string, string>)
    ensures labels == ParseLabels(raw)
  {
    labels := map[];
    var i := 0;
    while i < |raw|
      invariant 0 <= i <= |raw|
      invariant LabelsFrom(raw, i, labels) == ParseLabels(raw)
      decreases |raw| - i
    {
      var found := ReadLabel(raw, i);
      if found.None? {
        return;
      }
      if found.value.key != "" {
        labels := labels[found.value.key := found.value.value];
      }
      i := found.value.next;
    }
    assert NextLabel(raw, |raw|) == None;
  }
}
