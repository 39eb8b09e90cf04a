/** Printing label blocks, and the proof that the scanner undoes it. Printed texts are located
    by position (`At`), and lists are walked by index. */
module PrometheusLabels {
  import opened Basics
  import opened PrometheusLexer

  /** The characters of `s` from index `k` on stand in `raw`, where `s` starts at position `i`. */
  predicate AtFrom(raw: string, i: nat, s: string, k: nat)
    requires k <= |s|
    decreases |s| - k
  {
    if k == |s| then i + k <= |raw| else i + k < |raw| && raw[i + k] == s[k] && AtFrom(raw, i, s, k + 1)
  }

  predicate At(raw: string, i: nat, s: string) {
    AtFrom(raw, i, s, 0)
  }

  lemma {:induction false} AtFromEach(raw: string, i: nat, s: string, k: nat)
    requires k <= |s|
    ensures AtFrom(raw, i, s, k) <==> i + |s| <= |raw| && forall j | k <= j < |s| :: raw[i + j] == s[j]
    decreases |s| - k
  {
    if k < |s| {
      AtFromEach(raw, i, s, k + 1);
    }
  }

  lemma AtSlice(raw: string, i: nat, s: string)
    requires At(raw, i, s)
    ensures i + |s| <= |raw| && raw[i..i + |s|] == s
  {
    AtFromEach(raw, i, s, 0);
  }

  lemma AtSplit(raw: string, i: nat, a: string, b: string)
    requires At(raw, i, a + b)
    ensures At(raw, i, a) && At(raw, i + |a|, b)
  {
    AtFromEach(raw, i, a + b, 0);
    forall k | 0 <= k < |a|
      ensures raw[i + k] == a[k]
    {
      assert (a + b)[k] == a[k];
    }
    AtFromEach(raw, i, a, 0);
    forall k | 0 <= k < |b|
      ensures raw[i + |a| + k] == b[k]
    {
      assert (a + b)[|a| + k] == b[k];
    }
    AtFromEach(raw, i + |a|, b, 0);
  }

  lemma AtSplit3(raw: string, i: nat, a: string, b: string, c: string)
    requires At(raw, i, a + (b + c))
    ensures At(raw, i, a) && At(raw, i + |a|, b) && At(raw, i + |a| + |b|, c)
  {
    AtSplit(raw, i, a, b + c);
    AtSplit(raw, i + |a|, b, c);
  }

  lemma AtChar(raw: string, i: nat, s: string, k: nat)
    requires At(raw, i, s) && k < |s|
    ensures i + |s| <= |raw| && raw[i + k] == s[k]
  {
    AtFromEach(raw, i, s, 0);
  }

  lemma AtSelf(s: string)
    ensures At(s, 0, s)
  {
    AtFromEach(s, 0, s, 0);
  }

  /** The escapes of the text format: backslash, double quote and line feed. */
  function EscapeChar(c: char): string {
    if c == '\\' then "\\\\" else if c == '"' then "\\\"" else if c == '\n' then "\\n" else [c]
  }

  /** The escaped text of `value` from position `n` on, and the closing quote. */
  function EscapeFrom(value: string, n: nat): (s: string)
    requires n <= |value|
    ensures s != ""
    decreases |value| - n
  {
    if n == |value| then "\"" else EscapeChar(value[n]) + EscapeFrom(value, n + 1)
  }

  /** `value` from position `n` on. */
  function Rest(value: string, n: nat): string
    requires n <= |value|
    decreases |value| - n
  {
    if n == |value| then "" else [value[n]] + Rest(value, n + 1)
  }

  lemma {:induction false} RestIsSuffix(value: string, n: nat)
    requires n <= |value|
    ensures Rest(value, n) == value[n..]
    decreases |value| - n
  {
    if n < |value| {
      RestIsSuffix(value, n + 1);
    }
  }

  lemma ScanEscape(raw: string, i: nat, c: char)
    requires At(raw, i, EscapeChar(c)) && i + |EscapeChar(c)| <= |raw|
    ensures var next := i + |EscapeChar(c)|;
      ScanValue(raw, i) == [c] + ScanValue(raw, next) && ValueEnd(raw, i) == ValueEnd(raw, next)
  {
    var e := EscapeChar(c);
    AtChar(raw, i, e, 0);
    AtChar(raw, i, e, |e| - 1);
  }

  lemma {:induction false} ScanEscaped(raw: string, i: nat, value: string, n: nat)
    requires n <= |value| && At(raw, i, EscapeFrom(value, n))
    ensures i + |EscapeFrom(value, n)| <= |raw|
    ensures ScanValue(raw, i) == Rest(value, n) && ValueEnd(raw, i) == i + |EscapeFrom(value, n)|
    decreases |value| - n
  {
    hide ScanValue, ValueEnd, AtFrom;
    if n == |value| {
      AtChar(raw, i, "\"", 0);
      ScanEnd(raw, i);
    } else {
      AtSplit(raw, i, EscapeChar(value[n]), EscapeFrom(value, n + 1));
      ScanEscaped(raw, i + |EscapeChar(value[n])|, value, n + 1);
      ScanEscape(raw, i, value[n]);
    }
  }

  datatype Label = Label(key: string, value: string)

  function PrintLabel(l: Label): string {
    l.key + ("=\"" + EscapeFrom(l.value, 0))
  }

  /** A key the scanner reads back. */
  predicate GoodKey(key: string) {
    key != "" && '=' !in key && !IsSeparator(key[0]) && Strip(IsSpace, key) == key
  }

  lemma LabelParts(raw: string, i: nat, l: Label)
    requires At(raw, i, PrintLabel(l))
    ensures var eq := i + |l.key|;
      && At(raw, i, l.key) && eq + 1 < |raw|
      && raw[eq] == '=' && raw[eq + 1] == '"'
      && ScanValue(raw, eq + 2) == l.value
      && ValueEnd(raw, eq + 2) == i + |PrintLabel(l)|
  {
    AtSplit3(raw, i, l.key, "=\"", EscapeFrom(l.value, 0));
    var eq := i + |l.key|;
    AtChar(raw, eq, "=\"", 0);
    AtChar(raw, eq, "=\"", 1);
    ScanEscaped(raw, eq + 2, l.value, 0);
    RestIsSuffix(l.value, 0);
  }

  lemma {:induction false} FindTo(s: string, c: char, i: nat, j: nat)
    requires i <= j < |s| && s[j] == c && forall k | i <= k < j :: s[k] != c
    ensures Find(s, c, i) == j
    decreases j - i
  {
    if i < j {
      FindTo(s, c, i + 1, j);
    }
  }

  lemma KeyFound(raw: string, i: nat, key: string)
    requires At(raw, i, key) && '=' !in key && i + |key| < |raw| && raw[i + |key|] == '='
    ensures forall start | i <= start <= i + |key| :: Find(raw, '=', start) == i + |key|
  {
    AtFromEach(raw, i, key, 0);
    forall start | i <= start <= i + |key|
      ensures Find(raw, '=', start) == i + |key|
    {
      assert forall k | start <= k < i + |key| :: raw[k] == key[k - i];
      FindTo(raw, '=', start, i + |key|);
    }
  }

  lemma NextLabelAt(raw: string, i: nat, l: Label)
    requires At(raw, i, PrintLabel(l)) && GoodKey(l.key)
    ensures i + |PrintLabel(l)| <= |raw|
    ensures NextLabel(raw, i) == Some(Found(l.key, l.value, i + |PrintLabel(l)|))
  {
    LabelParts(raw, i, l);
    AtChar(raw, i, l.key, 0);
    assert SkipSeparators(raw, i) == i;
    KeyFound(raw, i, l.key);
    AtSlice(raw, i, l.key);
  }

  /** The labels from index `n` on, separated by commas. */
  function PrintFrom(labels: seq<Label>, n: nat): string
    requires n <= |labels|
    decreases |labels| - n, 0
  {
    if n == |labels| then "" else PrintLabel(labels[n]) + PrintMore(labels, n + 1)
  }

  /** The same behind a comma, or nothing when no label is left. */
  function PrintMore(labels: seq<Label>, n: nat): string
    requires n <= |labels|
    decreases |labels| - n, 1
  {
    if n == |labels| then "" else "," + PrintFrom(labels, n)
  }

  function PrintLabels(labels: seq<Label>): string {
    PrintFrom(labels, 0)
  }

  /** Scanning from `i` on finds the labels from index `n` on, and then the end. */
  ghost predicate Reads(raw: string, i: nat, labels: seq<Label>, n: nat)
    requires i <= |raw| && n <= |labels|
    decreases |labels| - n
  {
    match NextLabel(raw, i)
    case None => n == |labels|
    case Some(found) =>
      && n < |labels| && labels[n] == Label(found.key, found.value) && found.key != ""
      && Reads(raw, found.next, labels, n + 1)
  }

  lemma MoreSplit(raw: string, i: nat, labels: seq<Label>, n: nat)
    requires n < |labels| && At(raw, i, PrintMore(labels, n))
    ensures i < |raw| && raw[i] == ',' && At(raw, i + 1, PrintFrom(labels, n))
    ensures |PrintMore(labels, n)| == 1 + |PrintFrom(labels, n)|
  {
    AtSplit(raw, i, ",", PrintFrom(labels, n));
    AtChar(raw, i, ",", 0);
  }

  lemma FromSplit(raw: string, i: nat, labels: seq<Label>, n: nat, printed: string, more: string)
    requires n < |labels| && At(raw, i, PrintFrom(labels, n))
    requires printed == PrintLabel(labels[n]) && more == PrintMore(labels, n + 1)
    ensures At(raw, i, printed) && At(raw, i + |printed|, more) && |PrintFrom(labels, n)| == |printed| + |more|
  {
    AtSplit(raw, i, printed, more);
  }

  lemma NextLabelAfterComma(raw: string, i: nat)
    requires i < |raw| && raw[i] == ','
    ensures NextLabel(raw, i) == NextLabel(raw, i + 1)
  {
    assert SkipSeparators(raw, i) == SkipSeparators(raw, i + 1);
  }

  lemma ReadsOne(raw: string, i: nat, labels: seq<Label>, n: nat, next: nat)
    requires n < |labels| && i <= |raw| && next <= |raw| && labels[n].key != ""
    requires NextLabel(raw, i) == Some(Found(labels[n].key, labels[n].value, next))
    requires Reads(raw, next, labels, n + 1)
    ensures Reads(raw, i, labels, n)
  {
  }

  lemma ReadsLabel(raw: string, i: nat, labels: seq<Label>, n: nat, next: nat)
    requires n < |labels| && At(raw, i, PrintLabel(labels[n])) && GoodKey(labels[n].key)
    requires next == i + |PrintLabel(labels[n])| <= |raw| && Reads(raw, next, labels, n + 1)
    ensures i <= |raw| && Reads(raw, i, labels, n)
  {
    hide NextLabel, AtFrom;
    NextLabelAt(raw, i, labels[n]);
    ReadsOne(raw, i, labels, n, next);
  }

  lemma ReadsComma(raw: string, i: nat, labels: seq<Label>, n: nat)
    requires n < |labels| && i < |raw| && raw[i] == ',' && Reads(raw, i + 1, labels, n)
    ensures Reads(raw, i, labels, n)
  {
    NextLabelAfterComma(raw, i);
  }

  lemma EndReads(raw: string, labels: seq<Label>)
    ensures Reads(raw, |raw|, labels, |labels|)
  {
    assert NextLabel(raw, |raw|) == None;
  }

  lemma {:induction false} MoreReads(raw: string, i: nat, labels: seq<Label>, n: nat)
    requires n <= |labels| && At(raw, i, PrintMore(labels, n)) && i + |PrintMore(labels, n)| == |raw|
    requires forall k | 0 <= k < |labels| :: GoodKey(labels[k].key)
    ensures Reads(raw, i, labels, n)
    decreases |labels| - n, 1
  {
    if n == |labels| {
      EndReads(raw, labels);
    } else {
      MoreSplit(raw, i, labels, n);
      LabelsRead(raw, i + 1, labels, n);
      ReadsComma(raw, i, labels, n);
    }
  }

  lemma {:induction false} LabelsRead(raw: string, i: nat, labels: seq<Label>, n: nat)
    requires n <= |labels| && At(raw, i, PrintFrom(labels, n)) && i + |PrintFrom(labels, n)| == |raw|
    requires forall k | 0 <= k < |labels| :: GoodKey(labels[k].key)
    ensures Reads(raw, i, labels, n)
    decreases |labels| - n, 0
  {
    if n == |labels| {
      EndReads(raw, labels);
    } else {
      FromSplit(raw, i, labels, n, PrintLabel(labels[n]), PrintMore(labels, n + 1));
      var next := i + |PrintLabel(labels[n])|;
      MoreReads(raw, next, labels, n + 1);
      ReadsLabel(raw, i, labels, n, next);
    }
  }

  /** The labels from index `n` on, added to a map one after the other. */
  function WithLabels(before: map<string, string>, labels: seq<Label>, n: nat): map<string, string>
    requires n <= |labels|
    decreases |labels| - n
  {
    if n == |labels| then before else WithLabels(before[labels[n].key := labels[n].value], labels, n + 1)
  }

  lemma {:induction false} ReadsBuild(raw: string, i: nat, before: map<string, string>, labels: seq<Label>, n: nat)
    requires i <= |raw| && n <= |labels| && Reads(raw, i, labels, n)
    ensures LabelsFrom(raw, i, before) == WithLabels(before, labels, n)
    decreases |labels| - n
  {
    if n < |labels| {
      ReadsBuild(raw, NextLabel(raw, i).value.next, before[labels[n].key := labels[n].value], labels, n + 1);
    }
  }

  predicate DistinctKeys(labels: seq<Label>) {
    forall i, j | 0 <= i < j < |labels| :: labels[i].key != labels[j].key
  }

  /** `labels` lists the entries of `m`, each once, in some order. */
  ghost predicate IsListing(labels: seq<Label>, m: map<string, string>) {
    && DistinctKeys(labels)
    && (forall i | 0 <= i < |labels| :: labels[i].key in m && m[labels[i].key] == labels[i].value)
    && forall key | key in m :: exists i :: 0 <= i < |labels| && labels[i].key == key
  }

  /** Every label map has a listing, so every label map can be printed. */
  lemma {:induction false} ListingExists(m: map<string, string>) returns (labels: seq<Label>)
    ensures IsListing(labels, m)
    decreases |m|
  {
    if m == map[] {
      labels := [];
    } else {
      var key :| key in m;
      var rest := map k | k in m && k != key :: m[k];
      assert rest.Keys == m.Keys - {key};
      labels := ListingExists(rest);
      labels := ListingExtends(labels, rest, key, m[key]);
      assert rest[key := m[key]] == m;
    }
  }

  lemma ListingExtends(labels: seq<Label>, m: map<string, string>, key: string, value: string)
    returns (longer: seq<Label>)
    requires IsListing(labels, m) && key !in m
    ensures IsListing(longer, m[key := value])
  {
    longer := labels + [Label(key, value)];
    assert longer[|labels|].key == key;
    assert forall i | 0 <= i < |labels| :: longer[i] == labels[i] && longer[i].key != key;
    var grown := m[key := value];
    forall k | k in grown
      ensures exists i :: 0 <= i < |longer| && longer[i].key == k
    {
      if k != key {
        var i :| 0 <= i < |labels| && labels[i].key == k;
        assert longer[i].key == k;
      }
    }
  }

  lemma {:induction false} WithLabelsHolds(before: map<string, string>, labels: seq<Label>, n: nat)
    requires n <= |labels| && DistinctKeys(labels)
    ensures var m := WithLabels(before, labels, n);
      && (forall i | n <= i < |labels| :: labels[i].key in m && m[labels[i].key] == labels[i].value)
      && (forall key | key in before && (forall i | n <= i < |labels| :: labels[i].key != key) ::
            key in m && m[key] == before[key])
      && (forall key | key in m :: key in before || exists i :: n <= i < |labels| && labels[i].key == key)
    decreases |labels| - n
  {
    if n < |labels| {
      WithLabelsHolds(before[labels[n].key := labels[n].value], labels, n + 1);
    }
  }

  lemma ListingIsMap(labels: seq<Label>, m: map<string, string>)
    requires IsListing(labels, m)
    ensures WithLabels(map[], labels, 0) == m
  {
    WithLabelsHolds(map[], labels, 0);
    var built := WithLabels(map[], labels, 0);
    assert forall key | key in m :: key in built && built[key] == m[key];
    assert forall key | key in built :: key in m;
  }

  /** Round trip: whatever the label values hold - quotes, backslashes, line feeds, braces - and
      in whatever order the labels are printed, the scanner returns exactly the printed map. */
  lemma LabelsRoundTrip(labels: seq<Label>, m: map<string, string>)
    requires IsListing(labels, m) && forall k | 0 <= k < |labels| :: GoodKey(labels[k].key)
    ensures ParseLabels(PrintLabels(labels)) == m
  {
    var raw := PrintLabels(labels);
    AtSelf(raw);
    LabelsRead(raw, 0, labels, 0);
    ReadsBuild(raw, 0, map[], labels, 0);
    ListingIsMap(labels, m);
  }

  // ---- Which keys survive ----

  predicate CleanKey(key: string) {
    key != "" && '=' !in key && Strip(IsSpace, key) == key
  }

  lemma {:induction false} ParsedKeysAreClean(raw: string, i: nat, before: map<string, string>)
    requires i <= |raw| && forall key | key in before :: CleanKey(key)
    ensures forall key | key in LabelsFrom(raw, i, before) :: CleanKey(key)
    decreases |raw| - i
  {
    var found := NextLabel(raw, i);
    if found.Some? {
      KeyIsStripped(raw, i);
      ParsedKeysAreClean(raw, found.value.next, AddLabel(before, found.value));
    }
  }

  lemma KeyIsStripped(raw: string, i: nat)
    requires i <= |raw| && NextLabel(raw, i).Some?
    ensures var key := NextLabel(raw, i).value.key;
      '=' !in key && Strip(IsSpace, key) == key
  {
    var start := SkipSeparators(raw, i);
    var eq := Find(raw, '=', start);
    FindIsFirst(raw, '=', start);
    assert '=' !in raw[start..eq];
    StripFixpoint(IsSpace, Strip(IsSpace, raw[start..eq]));
  }

  lemma {:induction false} FindIsFirst(s: string, c: char, i: nat)
    requires i <= |s|
    ensures forall k | i <= k < Find(s, c, i) :: s[k] != c
    decreases |s| - i
  {
    if i < |s| && s[i] != c {
      FindIsFirst(s, c, i + 1);
    }
  }

  lemma {:induction false} SkipStopsBefore(raw: string, i: nat, stop: nat)
    requires i <= stop < |raw| && !IsSeparator(raw[stop])
    ensures SkipSeparators(raw, i) <= stop
    decreases stop - i
  {
    if i < stop && IsSeparator(raw[i]) {
      SkipStopsBefore(raw, i + 1, stop);
    }
  }
}
