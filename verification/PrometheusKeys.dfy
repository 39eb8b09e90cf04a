/** Which label maps survive printing and scanning, exactly: a listing comes back if and only if
    all its keys are good, and every map of good keys has a listing. */
module PrometheusKeys {
  import opened Basics
  import opened PrometheusLexer
  import opened PrometheusLabels

  /** What a printed key can be read as: itself when it is good; otherwise it loses the separators
      in front. */
  predicate ReadsAs(printed: string, key: string) {
    if GoodKey(printed) then key == printed else |key| < |printed|
  }

  lemma ReadKey(raw: string, i: nat, key: string, start: nat)
    requires i + |key| <= |raw| && raw[i..i + |key|] == key && CleanKey(key)
    requires i <= start <= i + |key| && (start == i <==> !IsSeparator(key[0]))
    ensures ReadsAs(key, Strip(IsSpace, raw[start..i + |key|]))
  {
    hide Strip, IsSpace, IsSeparator;
    assert |Strip(IsSpace, raw[start..i + |key|])| <= i + |key| - start;
  }

  lemma SkipStops(raw: string, i: nat)
    requires i < |raw|
    ensures SkipSeparators(raw, i) == i <==> !IsSeparator(raw[i])
  {
  }

  lemma FoundAt(raw: string, i: nat, start: nat, eq: nat)
    requires i <= |raw| && start == SkipSeparators(raw, i) && eq == Find(raw, '=', start)
    requires eq + 1 < |raw| && raw[eq + 1] == '"'
    ensures NextLabel(raw, i) == Some(Found(Strip(IsSpace, raw[start..eq]), ScanValue(raw, eq + 2), ValueEnd(raw, eq + 2)))
  {
  }

  lemma CleanLabelAt(raw: string, i: nat, l: Label)
    requires At(raw, i, PrintLabel(l)) && CleanKey(l.key)
    ensures i + |PrintLabel(l)| <= |raw| && NextLabel(raw, i).Some?
    ensures NextLabel(raw, i).value.next == i + |PrintLabel(l)| && ReadsAs(l.key, NextLabel(raw, i).value.key)
  {
    hide At, ScanValue, ValueEnd, Find, Strip, PrintLabel, NextLabel, IsSeparator, IsSpace, SkipSeparators, ReadsAs;
    var eq := i + |l.key|;
    LabelParts(raw, i, l);
    AtChar(raw, i, l.key, 0);
    KeyFound(raw, i, l.key);
    EqualsIsNoSeparator();
    SkipStopsBefore(raw, i, eq);
    SkipStops(raw, i);
    AtSlice(raw, i, l.key);
    FoundAt(raw, i, SkipSeparators(raw, i), eq);
    ReadKey(raw, i, l.key, SkipSeparators(raw, i));
  }

  lemma EqualsIsNoSeparator()
    ensures !IsSeparator('=')
  {
  }

  ghost predicate AllClean(labels: seq<Label>) {
    forall k | 0 <= k < |labels| :: CleanKey(labels[k].key)
  }

  lemma ScanOne(raw: string, i: nat, before: map<string, string>, found: Found)
    requires i <= |raw| && NextLabel(raw, i) == Some(found)
    ensures LabelsFrom(raw, i, before) == LabelsFrom(raw, found.next, AddLabel(before, found))
  {
  }

  lemma ScanNothing(raw: string, before: map<string, string>)
    ensures LabelsFrom(raw, |raw|, before) == before
  {
    assert NextLabel(raw, |raw|) == None;
  }

  lemma ScanComma(raw: string, i: nat, before: map<string, string>)
    requires i < |raw| && raw[i] == ','
    ensures LabelsFrom(raw, i, before) == LabelsFrom(raw, i + 1, before)
  {
    NextLabelAfterComma(raw, i);
  }

  ghost predicate IsReadingOf(labels: seq<Label>, n: nat, key: string) {
    exists j :: n <= j < |labels| && ReadsAs(labels[j].key, key)
  }

  lemma {:induction false} MoreScanned(raw: string, i: nat, labels: seq<Label>, n: nat, before: map<string, string>, key: string)
    requires n <= |labels| && At(raw, i, PrintMore(labels, n)) && i + |PrintMore(labels, n)| == |raw|
    requires AllClean(labels) && key in LabelsFrom(raw, i, before)
    ensures key in before || IsReadingOf(labels, n, key)
    decreases |labels| - n, 1
  {
    hide LabelsFrom, AtFrom, IsReadingOf, AllClean;
    if n == |labels| {
      ScanNothing(raw, before);
    } else {
      MoreSplit(raw, i, labels, n);
      ScanComma(raw, i, before);
      LabelsScanned(raw, i + 1, labels, n, before, key);
    }
  }

  /** Every key the scanner finds is what some printed key is read as. */
  lemma {:induction false} LabelsScanned(raw: string, i: nat, labels: seq<Label>, n: nat, before: map<string, string>, key: string)
    requires n <= |labels| && At(raw, i, PrintFrom(labels, n)) && i + |PrintFrom(labels, n)| == |raw|
    requires AllClean(labels) && key in LabelsFrom(raw, i, before)
    ensures key in before || IsReadingOf(labels, n, key)
    decreases |labels| - n, 0
  {
    hide LabelsFrom, AtFrom, NextLabel, ReadsAs, CleanKey, PrintLabel;
    if n == |labels| {
      ScanNothing(raw, before);
    } else {
      FromSplit(raw, i, labels, n, PrintLabel(labels[n]), PrintMore(labels, n + 1));
      CleanLabelAt(raw, i, labels[n]);
      var found := NextLabel(raw, i).value;
      ScanOne(raw, i, before, found);
      MoreScanned(raw, found.next, labels, n + 1, AddLabel(before, found), key);
      assert key == found.key ==> ReadsAs(labels[n].key, key);
    }
  }

  function Longest(labels: seq<Label>, n: nat): (bound: nat)
    requires n <= |labels|
    ensures forall k | 0 <= k < n :: |labels[k].key| <= bound
  {
    if n == 0 then 0 else
    var bound := Longest(labels, n - 1);
    if |labels[n - 1].key| < bound then bound else |labels[n - 1].key|
  }

  /** Of a listing that comes back no key is bad: it would have to be read off a longer one. */
  lemma {:induction false} NoKeyIsBad(labels: seq<Label>, m: map<string, string>, i: nat, bound: nat)
    requires IsListing(labels, m) && ParseLabels(PrintLabels(labels)) == m && AllClean(labels)
    requires i < |labels| && forall k | 0 <= k < |labels| :: |labels[k].key| <= bound
    ensures GoodKey(labels[i].key)
    decreases bound - |labels[i].key|
  {
    if !GoodKey(labels[i].key) {
      var raw, key := PrintLabels(labels), labels[i].key;
      AtSelf(raw);
      LabelsScanned(raw, 0, labels, 0, map[], key);
      var j :| 0 <= j < |labels| && ReadsAs(labels[j].key, key);
      NoKeyIsBad(labels, m, j, bound);
    }
  }

  /** A listing comes back if and only if all its keys are good. */
  lemma ListingIsExact(labels: seq<Label>, m: map<string, string>)
    requires IsListing(labels, m)
    ensures ParseLabels(PrintLabels(labels)) == m <==> forall k | 0 <= k < |labels| :: GoodKey(labels[k].key)
  {
    if forall k | 0 <= k < |labels| :: GoodKey(labels[k].key) {
      LabelsRoundTrip(labels, m);
    } else if ParseLabels(PrintLabels(labels)) == m {
      ParsedKeysAreClean(PrintLabels(labels), 0, map[]);
      hide LabelsFrom, PrintFrom, GoodKey, CleanKey;
      assert AllClean(labels);
      forall k | 0 <= k < |labels|
        ensures GoodKey(labels[k].key)
      {
        NoKeyIsBad(labels, m, k, Longest(labels, |labels|));
      }
    }
  }

  /** In particular a single printed label comes back if and only if its key is non-empty, holds
      no '=', starts with no separator and has no space at either end. */
  lemma KeyConditionIsExact(l: Label)
    ensures ParseLabels(PrintLabel(l)) == map[l.key := l.value] <==> GoodKey(l.key)
  {
    assert PrintMore([l], 1) == "";
    assert PrintLabels([l]) == PrintLabel(l);
    hide GoodKey, ParseLabels, PrintLabels;
    assert [l][0].key == l.key;
    ListingIsExact([l], map[l.key := l.value]);
  }

  /** A label map can be printed in some order that is read back if and only if its keys are good. */
  lemma MapIsPrintableExactly(m: map<string, string>)
    ensures (exists labels: seq<Label> :: IsListing(labels, m) && ParseLabels(PrintLabels(labels)) == m)
       <==> forall key | key in m :: GoodKey(key)
  {
    hide GoodKey, ParseLabels, PrintLabels;
    if forall key | key in m :: GoodKey(key) {
      var labels := ListingExists(m);
      ListingIsExact(labels, m);
      assert IsListing(labels, m) && ParseLabels(PrintLabels(labels)) == m;
    }
    forall labels: seq<Label> | IsListing(labels, m) && ParseLabels(PrintLabels(labels)) == m
      ensures forall key | key in m :: GoodKey(key)
    {
      ListingIsExact(labels, m);
    }
  }

  // ---- Irregular blocks ----

  /** Space, comma and tab are skipped in front of a label, any number of them. */
  lemma SeparatorIsSkipped(raw: string, i: nat, before: map<string, string>)
    requires i < |raw| && raw[i] in {' ', ',', '\t'}
    ensures LabelsFrom(raw, i, before) == LabelsFrom(raw, i + 1, before)
  {
    assert SkipSeparators(raw, i) == SkipSeparators(raw, i + 1);
    assert NextLabel(raw, i) == NextLabel(raw, i + 1);
  }

  /** Scanning gives up where no label follows: no `=`, or one without a quote. */
  lemma ScanningGivesUp(raw: string, i: nat, eq: nat, before: map<string, string>)
    requires i <= eq <= |raw| && (forall k | i <= k < eq :: raw[k] != '=')
    requires eq < |raw| ==> raw[eq] == '=' && (eq + 1 == |raw| || raw[eq + 1] != '"')
    ensures LabelsFrom(raw, i, before) == before
  {
    var start := SkipSeparators(raw, i);
    if eq < |raw| {
      EqualsIsNoSeparator();
      SkipStopsBefore(raw, i, eq);
      FindTo(raw, '=', start, eq);
    }
  }

  lemma KeyOfBlock(raw: string, value: string, end: nat)
    requires |raw| >= 3 && raw[0] == 'k' && raw[1] == '=' && raw[2] == '"'
    requires ScanValue(raw, 3) == value && ValueEnd(raw, 3) == end == |raw|
    ensures ParseLabels(raw) == map["k" := value]
  {
    assert SkipSeparators(raw, 0) == 0 && Find(raw, '=', 0) == 1;
    assert raw[0..1] == "k";
    StripFixpoint(IsSpace, "k");
    FoundAt(raw, 0, 0, 1);
    ScanOne(raw, 0, map[], Found("k", value, |raw|));
    hide LabelsFrom, NextLabel;
    ScanNothing(raw, AddLabel(map[], Found("k", value, |raw|)));
  }

  /** A backslash stands for the character behind it, whichever that is, except that `n` makes a
      line feed. */
  lemma EscapeMeaning(c: char)
    ensures ParseLabels("k=\"\\" + [c] + "\"") == map["k" := [if c == 'n' then '\n' else c]]
  {
    var raw := "k=\"\\" + [c] + "\"";
    assert raw[3] == '\\' && raw[4] == c && raw[5] == '"' && |raw| == 6;
    assert ScanValue(raw, 5) == "" && ValueEnd(raw, 5) == 6;
    assert ScanValue(raw, 3) == [Unescape(c)] + ScanValue(raw, 5);
    assert ValueEnd(raw, 3) == ValueEnd(raw, 5);
    KeyOfBlock(raw, [Unescape(c)], 6);
  }

  lemma {:induction false} PlainScan(raw: string, i: nat)
    requires i <= |raw| && forall k | i <= k < |raw| :: raw[k] != '"' && (raw[k] == '\\' ==> k == |raw| - 1)
    ensures ScanValue(raw, i) == raw[i..] && ValueEnd(raw, i) == |raw|
    decreases |raw| - i
  {
    if i < |raw| {
      PlainScan(raw, i + 1);
      assert raw[i..] == [raw[i]] + raw[i + 1..];
    }
  }

  /** A value whose quote is never closed goes to the end of the block, a last backslash included. */
  lemma UnclosedValue(value: string)
    requires forall k | 0 <= k < |value| :: value[k] != '"' && (value[k] == '\\' ==> k == |value| - 1)
    ensures ParseLabels("k=\"" + value) == map["k" := value]
  {
    var raw := "k=\"" + value;
    assert forall k | 3 <= k < |raw| :: raw[k] == value[k - 3];
    assert raw[3..] == value;
    PlainScan(raw, 3);
    KeyOfBlock(raw, value, |raw|);
  }

  /** Of two labels with one key the later one counts. */
  lemma LaterLabelWins(key: string, v: string, w: string)
    requires GoodKey(key)
    ensures ParseLabels(PrintLabels([Label(key, v), Label(key, w)])) == map[key := w]
  {
    var labels := [Label(key, v), Label(key, w)];
    AtSelf(PrintLabels(labels));
    hide GoodKey, LabelsFrom, PrintFrom;
    LabelsRead(PrintLabels(labels), 0, labels, 0);
    ReadsBuild(PrintLabels(labels), 0, map[], labels, 0);
    assert WithLabels(map[], labels, 0) == WithLabels(map[key := v], labels, 1) == WithLabels(map[key := w], labels, 2);
  }
}
