/** Evidence from LMCache trace replays: what one JSONL file gives, and how the evidence of the
    files of a directory is merged. Each line arrives decoded. */
module TraceReplaySummaries {
  import opened Basics
  import opened Counts
  import opened LatencySummary

  datatype Line =
    | Blank
    | NotJson
    | NotObject
    | Row(qualname: string, failed: bool, latency: Option<real>)

  datatype Evidence = Evidence(
    rowsSeen: nat, failedRows: nat, opCounts: map<string, int>, opErrors: map<string, int>, latency: map<string, Summary>)

  const NO_EVIDENCE := Evidence(0, 0, map[], map[], map[])

  // ---- Merging ----

  function CountAt(target: map<string, int>, source: map<string, int>, key: string): int {
    Get(target, key) + Get(source, key)
  }

  /** Pointwise sums. */
  function MergeCounts(target: map<string, int>, source: map<string, int>): map<string, int> {
    map key | key in target.Keys + source.Keys :: CountAt(target, source, key)
  }

  function MergeAt(target: map<string, Summary>, source: map<string, Summary>, key: string): Summary
    requires key in target || key in source
  {
    if key !in target then source[key] else if key !in source then target[key] else Merge(target[key], source[key])
  }

  function MergeSummaries(target: map<string, Summary>, source: map<string, Summary>): map<string, Summary> {
    map key | key in target.Keys + source.Keys :: MergeAt(target, source, key)
  }

  function Join(e: Evidence, child: Evidence): Evidence {
    Evidence(e.rowsSeen + child.rowsSeen, e.failedRows + child.failedRows, MergeCounts(e.opCounts, child.opCounts),
             MergeCounts(e.opErrors, child.opErrors), MergeSummaries(e.latency, child.latency))
  }

  /** The counts once the entries outside `todo` are merged. */
  function PartlyMerged(target: map<string, int>, source: map<string, int>, todo: set<string>): map<string, int> {
    map key | key in target.Keys + (source.Keys - todo) ::
      if key in source && key !in todo then CountAt(target, source, key) else target[key]
  }

  lemma MergeNext(target: map<string, int>, source: map<string, int>, todo: set<string>, key: string)
    requires key in todo && key in source
    ensures Bump(PartlyMerged(target, source, todo), key, source[key]) == PartlyMerged(target, source, todo - {key})
  {
  }

  lemma MergeEnds(target: map<string, int>, source: map<string, int>)
    ensures PartlyMerged(target, source, source.Keys) == target
    ensures PartlyMerged(target, source, {}) == MergeCounts(target, source)
  {
  }

  /** The loop over the entries of a source dictionary; its order is left open. */
  method MergeCountsInto(target: map<string, int>, source: map<string, int>) returns (merged: map<string, int>)
    ensures merged == MergeCounts(target, source)
  {
    hide Bump, PartlyMerged, MergeCounts;
    MergeEnds(target, source);
    merged := target;
    var todo := source.Keys;
    while todo != {}
      invariant todo <= source.Keys && merged == PartlyMerged(target, source, todo)
      decreases |todo|
    {
      var key :| key in todo;
      MergeNext(target, source, todo, key);
      merged := Bump(merged, key, source[key]);
      todo := todo - {key};
    }
  }

  /** The summaries once the entries outside `todo` are merged. */
  function PartlySummarized(target: map<string, Summary>, source: map<string, Summary>, todo: set<string>): map<string, Summary> {
    map key | key in target.Keys + (source.Keys - todo) ::
      if key in source && key !in todo then MergeAt(target, source, key) else target[key]
  }

  /** What the loop makes of one entry: a new key is copied, a known one is merged. */
  function PutSummary(merged: map<string, Summary>, key: string, incoming: Summary): map<string, Summary> {
    merged[key := if key !in merged then incoming else Merge(merged[key], incoming)]
  }

  lemma SummarizeNext(target: map<string, Summary>, source: map<string, Summary>, todo: set<string>, key: string)
    requires key in todo && key in source
    ensures PutSummary(PartlySummarized(target, source, todo), key, source[key])
         == PartlySummarized(target, source, todo - {key})
  {
    hide Merge;
  }

  lemma SummarizeEnds(target: map<string, Summary>, source: map<string, Summary>)
    ensures PartlySummarized(target, source, source.Keys) == target
    ensures PartlySummarized(target, source, {}) == MergeSummaries(target, source)
  {
    hide Merge;
  }

  /** The same for summaries. */
  method MergeLatencySummaries(target: map<string, Summary>, source: map<string, Summary>)
    returns (merged: map<string, Summary>)
    ensures merged == MergeSummaries(target, source)
  {
    hide PutSummary, PartlySummarized, MergeSummaries;
    SummarizeEnds(target, source);
    merged := target;
    var todo := source.Keys;
    while todo != {}
      invariant todo <= source.Keys && merged == PartlySummarized(target, source, todo)
      decreases |todo|
    {
      var key :| key in todo;
      SummarizeNext(target, source, todo, key);
      merged := PutSummary(merged, key, source[key]);
      todo := todo - {key};
    }
  }

  /** The evidence of the children, merged one after the other. */
  function Merged(children: seq<Evidence>): Evidence {
    if children == [] then NO_EVIDENCE else Join(Merged(children[..|children| - 1]), children[|children| - 1])
  }

  method ParseReplayDirectory(children: seq<Evidence>) returns (evidence: Evidence)
    ensures evidence == Merged(children)
  {
    hide MergeCounts, MergeSummaries;
    evidence := NO_EVIDENCE;
    for i := 0 to |children|
      invariant evidence == Merged(children[..i])
    {
      var child := children[i];
      var counts := MergeCountsInto(evidence.opCounts, child.opCounts);
      var errors := MergeCountsInto(evidence.opErrors, child.opErrors);
      var latency := MergeLatencySummaries(evidence.latency, child.latency);
      evidence := Evidence(evidence.rowsSeen + child.rowsSeen, evidence.failedRows + child.failedRows, counts, errors, latency);
      assert children[..i + 1][..i] == children[..i];
    }
    assert children[..|children|] == children;
  }

  // ---- The order of the files ----

  /** Every summary counts something, as the summary of a list that is not empty does. */
  ghost predicate Counted(e: Evidence) {
    forall key | key in e.latency :: e.latency[key].count > 0
  }

  lemma MergeCountsOrder(e: map<string, int>, a: map<string, int>, b: map<string, int>)
    ensures MergeCounts(MergeCounts(e, a), b) == MergeCounts(MergeCounts(e, b), a)
  {
  }

  lemma MergeSummariesOrder(e: map<string, Summary>, a: map<string, Summary>, b: map<string, Summary>)
    requires forall key | key in a :: a[key].count > 0
    requires forall key | key in b :: b[key].count > 0
    ensures MergeSummaries(MergeSummaries(e, a), b) == MergeSummaries(MergeSummaries(e, b), a)
  {
    hide Merge;
    var left, right := MergeSummaries(MergeSummaries(e, a), b), MergeSummaries(MergeSummaries(e, b), a);
    assert left.Keys == e.Keys + a.Keys + b.Keys == right.Keys;
    forall key | key in left
      ensures left[key] == right[key]
    {
      if key in a && key in b {
        if key in e {
          MergeOrder(e[key], a[key], b[key]);
        } else {
          MergeCommutes(a[key], b[key]);
        }
      }
    }
  }

  lemma JoinOrder(e: Evidence, a: Evidence, b: Evidence)
    requires Counted(a) && Counted(b)
    ensures Join(Join(e, a), b) == Join(Join(e, b), a)
  {
    hide MergeCounts, MergeSummaries;
    MergeCountsOrder(e.opCounts, a.opCounts, b.opCounts);
    MergeCountsOrder(e.opErrors, a.opErrors, b.opErrors);
    MergeSummariesOrder(e.latency, a.latency, b.latency);
  }

  function Without<T>(children: seq<T>, i: nat): seq<T>
    requires i < |children|
  {
    children[..i] + children[i + 1..]
  }

  lemma WithoutOne<T>(children: seq<T>, i: nat)
    requires i < |children|
    ensures multiset(Without(children, i)) + multiset{children[i]} == multiset(children)
  {
    assert children == children[..i] + ([children[i]] + children[i + 1..]);
  }

  /** The last element of one order can be taken out of another. */
  lemma TakeOutLast<T>(xs: seq<T>, ys: seq<T>) returns (i: nat)
    requires multiset(xs) == multiset(ys) && xs != []
    ensures i < |ys| && ys[i] == xs[|xs| - 1] && multiset(xs[..|xs| - 1]) == multiset(Without(ys, i))
  {
    var front, last := xs[..|xs| - 1], xs[|xs| - 1];
    assert xs == front + [last];
    assert last in multiset(ys);
    i :| 0 <= i < |ys| && ys[i] == last;
    WithoutOne(ys, i);
    assert multiset(front) + multiset{last} == multiset(xs);
    assert multiset(Without(ys, i)) == multiset(ys) - multiset{last} == multiset(front);
  }

  lemma MergedSnoc(children: seq<Evidence>, child: Evidence)
    ensures Merged(children + [child]) == Join(Merged(children), child)
  {
    hide Join;
    assert (children + [child])[..|children|] == children;
  }

  /** Any child may be taken last. */
  lemma {:induction false} TakenLast(children: seq<Evidence>, i: nat)
    requires i < |children| && forall c | c in children :: Counted(c)
    ensures Merged(children) == Join(Merged(Without(children, i)), children[i])
    decreases |children|
  {
    hide Join, Merged, Counted;
    var front, last := children[..|children| - 1], children[|children| - 1];
    assert children == front + [last];
    MergedSnoc(front, last);
    if i < |front| {
      TakenLast(front, i);
      var rest := Without(front, i);
      assert Without(children, i) == rest + [last];
      MergedSnoc(rest, last);
      JoinOrder(Merged(rest), children[i], last);
    } else {
      assert Without(children, i) == front;
    }
  }

  /** The merged evidence of a directory does not depend on the order of its files. */
  lemma {:induction false} DirectoryOrderIsIrrelevant(xs: seq<Evidence>, ys: seq<Evidence>)
    requires multiset(xs) == multiset(ys) && forall c | c in xs :: Counted(c)
    ensures Merged(xs) == Merged(ys)
    decreases |xs|
  {
    hide Join, Merged, Counted;
    assert |xs| == |multiset(xs)| == |multiset(ys)| == |ys|;
    if xs == [] {
      assert ys == [];
    } else {
      var front, last := xs[..|xs| - 1], xs[|xs| - 1];
      assert xs == front + [last];
      MergedSnoc(front, last);
      var i := TakeOutLast(xs, ys);
      forall c | c in ys
        ensures Counted(c)
      {
        assert c in multiset(xs);
      }
      DirectoryOrderIsIrrelevant(front, Without(ys, i));
      TakenLast(ys, i);
    }
  }

  // ---- One JSONL file ----

  /** What the line loop has gathered: the counters, and for each call its latencies in order. */
  datatype Gathered = Gathered(
    rowsSeen: nat, failedRows: nat, opCounts: map<string, int>, opErrors: map<string, int>, lists: map<string, seq<real>>)

  const NOTHING := Gathered(0, 0, map[], map[], map[])

  datatype LineError = LineError(line: nat, reason: string)

  predicate IsData(line: Line) {
    line.Row? && line.qualname != ""
  }

  function ListAt(lists: map<string, seq<real>>, key: string): seq<real> {
    if key in lists then lists[key] else []
  }

  function AddLatency(lists: map<string, seq<real>>, key: string, latency: Option<real>): map<string, seq<real>> {
    if latency.None? then lists else lists[key := ListAt(lists, key) + [latency.value]]
  }

  function AddLine(g: Gathered, line: Line): Gathered {
    if !IsData(line) then g else
    Gathered(
      g.rowsSeen + 1,
      if line.failed then g.failedRows + 1 else g.failedRows,
      Bump(g.opCounts, line.qualname, 1),
      if line.failed then Bump(g.opErrors, line.qualname, 1) else g.opErrors,
      AddLatency(g.lists, line.qualname, line.latency))
  }

  function Gather(lines: seq<Line>, n: nat): Gathered
    requires n <= |lines|
  {
    if n == 0 then NOTHING else AddLine(Gather(lines, n - 1), lines[n - 1])
  }

  predicate NoEmptyList(lists: map<string, seq<real>>) {
    forall key | key in lists :: lists[key] != []
  }

  function Summaries(lists: map<string, seq<real>>): map<string, Summary>
    requires NoEmptyList(lists)
  {
    map key | key in lists :: DurationSummary(lists[key])
  }

  function Finish(g: Gathered): Evidence
    requires NoEmptyList(g.lists)
  {
    Evidence(g.rowsSeen, g.failedRows, g.opCounts, g.opErrors, Summaries(g.lists))
  }

  lemma {:induction false} GatheredListsHoldValues(lines: seq<Line>, n: nat)
    requires n <= |lines|
    ensures NoEmptyList(Gather(lines, n).lists)
  {
    if n > 0 {
      GatheredListsHoldValues(lines, n - 1);
    }
  }

  /** The evidence of one file. */
  function ParseJsonl(lines: seq<Line>): Evidence {
    GatheredListsHoldValues(lines, |lines|);
    Finish(Gather(lines, |lines|))
  }

  function ErrorOf(line: Line, number: nat): seq<LineError> {
    match line
    case Blank => []
    case NotJson => [LineError(number, "not JSON")]
    case NotObject => [LineError(number, "expected object")]
    case Row(qualname, _, _) => if qualname == "" then [LineError(number, "missing qualname")] else []
  }

  function ErrorsUpTo(lines: seq<Line>, n: nat): seq<LineError>
    requires n <= |lines|
  {
    if n == 0 then [] else ErrorsUpTo(lines, n - 1) + ErrorOf(lines[n - 1], n)
  }

  method SummarizeLists(lists: map<string, seq<real>>) returns (summaries: map<string, Summary>)
    requires NoEmptyList(lists)
    ensures summaries == Summaries(lists)
  {
    hide DurationSummary;
    summaries := map[];
    var todo := lists.Keys;
    while todo != {}
      invariant todo <= lists.Keys && summaries.Keys == lists.Keys - todo
      invariant forall key | key in summaries :: summaries[key] == DurationSummary(lists[key])
      decreases |todo|
    {
      var key :| key in todo;
      summaries := summaries[key := DurationSummary(lists[key])];
      todo := todo - {key};
    }
  }

  /** The line loop: bad lines are reported by number and skipped. */
  method ParseReplayJsonl(lines: seq<Line>) returns (evidence: Evidence, errors: seq<LineError>)
    ensures evidence == ParseJsonl(lines)
    ensures errors == ErrorsUpTo(lines, |lines|)
  {
    hide Summaries;
    errors := [];
    var rowsSeen, failedRows := 0, 0;
    var opCounts: map<string, int>, opErrors: map<string, int> := map[], map[];
    var lists: map<string, seq<real>> := map[];
    for i := 0 to |lines|
      invariant Gathered(rowsSeen, failedRows, opCounts, opErrors, lists) == Gather(lines, i)
      invariant errors == ErrorsUpTo(lines, i)
    {
      match lines[i] {
        case Blank =>
        case NotJson => errors := errors + [LineError(i + 1, "not JSON")];
        case NotObject => errors := errors + [LineError(i + 1, "expected object")];
        case Row(qualname, failed, latency) =>
          if qualname == "" {
            errors := errors + [LineError(i + 1, "missing qualname")];
          } else {
            rowsSeen := rowsSeen + 1;
            opCounts := Bump(opCounts, qualname, 1);
            if failed {
              failedRows := failedRows + 1;
              opErrors := Bump(opErrors, qualname, 1);
            }
            if latency.Some? {
              lists := lists[qualname := ListAt(lists, qualname) + [latency.value]];
            }
          }
      }
    }
    GatheredListsHoldValues(lines, |lines|);
    var latency := SummarizeLists(lists);
    evidence := Evidence(rowsSeen, failedRows, opCounts, opErrors, latency);
  }

  /** The counters account for every row and every failed row. */
  lemma {:induction false} JsonlTotals(lines: seq<Line>, n: nat)
    requires n <= |lines|
    ensures Total(Gather(lines, n).opCounts) == Gather(lines, n).rowsSeen
    ensures Total(Gather(lines, n).opErrors) == Gather(lines, n).failedRows
  {
    hide Bump;
    if n > 0 {
      JsonlTotals(lines, n - 1);
      if IsData(lines[n - 1]) {
        TotalOfBump(Gather(lines, n - 1).opCounts, lines[n - 1].qualname, 1);
        TotalOfBump(Gather(lines, n - 1).opErrors, lines[n - 1].qualname, 1);
      }
    }
  }

  // ---- A directory of files is one long file ----

  function MergeLists(target: map<string, seq<real>>, source: map<string, seq<real>>): map<string, seq<real>> {
    map key | key in target.Keys + source.Keys :: ListAt(target, key) + ListAt(source, key)
  }

  function JoinGathered(g: Gathered, h: Gathered): Gathered {
    Gathered(g.rowsSeen + h.rowsSeen, g.failedRows + h.failedRows, MergeCounts(g.opCounts, h.opCounts),
             MergeCounts(g.opErrors, h.opErrors), MergeLists(g.lists, h.lists))
  }

  lemma BumpInMerge(target: map<string, int>, source: map<string, int>, key: string, amount: int)
    ensures MergeCounts(target, Bump(source, key, amount)) == Bump(MergeCounts(target, source), key, amount)
  {
    var left, right := MergeCounts(target, Bump(source, key, amount)), Bump(MergeCounts(target, source), key, amount);
    assert left.Keys == right.Keys;
    assert forall k | k in left :: left[k] == right[k];
  }

  lemma LatencyInMerge(target: map<string, seq<real>>, source: map<string, seq<real>>, key: string, latency: Option<real>)
    ensures MergeLists(target, AddLatency(source, key, latency)) == AddLatency(MergeLists(target, source), key, latency)
  {
    if latency.Some? {
      var left, right := MergeLists(target, AddLatency(source, key, latency)), AddLatency(MergeLists(target, source), key, latency);
      assert left.Keys == right.Keys;
      AppendLast(ListAt(target, key), ListAt(source, key), latency.value);
      assert forall k | k in left :: left[k] == right[k];
    }
  }

  lemma AppendLast(a: seq<real>, b: seq<real>, x: real)
    ensures a + (b + [x]) == (a + b) + [x]
  {
  }

  lemma LineInJoin(g: Gathered, h: Gathered, line: Line)
    ensures JoinGathered(g, AddLine(h, line)) == AddLine(JoinGathered(g, h), line)
  {
    hide Bump, AddLatency, MergeCounts, MergeLists;
    if IsData(line) {
      BumpInMerge(g.opCounts, h.opCounts, line.qualname, 1);
      BumpInMerge(g.opErrors, h.opErrors, line.qualname, 1);
      LatencyInMerge(g.lists, h.lists, line.qualname, line.latency);
    }
  }

  lemma JoinNothing(g: Gathered)
    ensures JoinGathered(g, NOTHING) == g
  {
    assert forall key | key in g.lists :: g.lists[key] + [] == g.lists[key];
  }

  lemma {:induction false} GatherPrefix(a: seq<Line>, b: seq<Line>, n: nat)
    requires n <= |a|
    ensures Gather(a + b, n) == Gather(a, n)
  {
    hide AddLine;
    if n > 0 {
      GatherPrefix(a, b, n - 1);
    }
  }

  lemma {:induction false} GatherJoined(a: seq<Line>, b: seq<Line>, n: nat)
    requires n <= |b|
    ensures Gather(a + b, |a| + n) == JoinGathered(Gather(a, |a|), Gather(b, n))
  {
    hide AddLine, JoinGathered;
    if n == 0 {
      GatherPrefix(a, b, |a|);
      JoinNothing(Gather(a, |a|));
    } else {
      GatherJoined(a, b, n - 1);
      LineInJoin(Gather(a, |a|), Gather(b, n - 1), b[n - 1]);
      assert (a + b)[|a| + n - 1] == b[n - 1];
    }
  }

  lemma SummariesOfMerge(target: map<string, seq<real>>, source: map<string, seq<real>>)
    requires NoEmptyList(target) && NoEmptyList(source)
    ensures NoEmptyList(MergeLists(target, source))
    ensures Summaries(MergeLists(target, source)) == MergeSummaries(Summaries(target), Summaries(source))
  {
    hide DurationSummary, Merge;
    var left, right := Summaries(MergeLists(target, source)), MergeSummaries(Summaries(target), Summaries(source));
    assert left.Keys == right.Keys;
    forall key | key in left
      ensures left[key] == right[key]
    {
      SummaryOfMergeAt(target, source, key);
    }
  }

  lemma SummaryOfMergeAt(target: map<string, seq<real>>, source: map<string, seq<real>>, key: string)
    requires NoEmptyList(target) && NoEmptyList(source) && (key in target || key in source)
    ensures ListAt(target, key) + ListAt(source, key) != []
    ensures DurationSummary(ListAt(target, key) + ListAt(source, key)) == MergeAt(Summaries(target), Summaries(source), key)
  {
    hide DurationSummary, Merge;
    if key !in target {
      assert [] + source[key] == source[key];
    } else if key !in source {
      assert target[key] + [] == target[key];
    } else {
      MergeIsConcatenation(target[key], source[key]);
    }
  }

  /** The evidence of two files one after the other is their merged evidence. */
  lemma JoinedFilesMerge(a: seq<Line>, b: seq<Line>)
    ensures ParseJsonl(a + b) == Join(ParseJsonl(a), ParseJsonl(b))
  {
    hide Gather, MergeCounts, MergeLists, Summaries, MergeSummaries, NoEmptyList;
    GatherJoined(a, b, |b|);
    GatheredListsHoldValues(a, |a|);
    GatheredListsHoldValues(b, |b|);
    GatheredListsHoldValues(a + b, |a + b|);
    SummariesOfMerge(Gather(a, |a|).lists, Gather(b, |b|).lists);
  }

  function Parsed(files: seq<seq<Line>>): seq<Evidence> {
    seq(|files|, i requires 0 <= i < |files| => ParseJsonl(files[i]))
  }

  function Concatenated(files: seq<seq<Line>>): seq<Line> {
    if files == [] then [] else Concatenated(files[..|files| - 1]) + files[|files| - 1]
  }

  lemma EmptyFile()
    ensures ParseJsonl([]) == NO_EVIDENCE
  {
  }

  /** Merging the evidence of all files of a directory gives the evidence of all their lines:
      every counter and every summary is what one long file would have given. */
  lemma {:induction false} DirectoryIsOneFile(files: seq<seq<Line>>)
    ensures Merged(Parsed(files)) == ParseJsonl(Concatenated(files))
  {
    hide ParseJsonl, Join;
    if files == [] {
      EmptyFile();
    } else {
      var front, last := files[..|files| - 1], files[|files| - 1];
      DirectoryIsOneFile(front);
      JoinedFilesMerge(Concatenated(front), last);
      assert Parsed(files) == Parsed(front) + [ParseJsonl(last)];
      MergedSnoc(Parsed(front), ParseJsonl(last));
    }
  }

  lemma ParsedIsCounted(lines: seq<Line>)
    ensures Counted(ParseJsonl(lines))
  {
    GatheredListsHoldValues(lines, |lines|);
    var lists := Gather(lines, |lines|).lists;
    forall key | key in lists
      ensures DurationSummary(lists[key]).count > 0
    {
      SummaryMeans(lists[key]);
    }
  }

  lemma {:induction false} ParsedPermutes(xs: seq<seq<Line>>, ys: seq<seq<Line>>)
    requires multiset(xs) == multiset(ys)
    ensures multiset(Parsed(xs)) == multiset(Parsed(ys))
    decreases |xs|
  {
    hide ParseJsonl, Parsed;
    assert |xs| == |multiset(xs)| == |multiset(ys)| == |ys|;
    if xs == [] {
      assert ys == [];
    } else {
      var i := TakeOutLast(xs, ys);
      ParsedPermutes(xs[..|xs| - 1], Without(ys, i));
      ParsedWithout(xs, |xs| - 1);
      ParsedWithout(ys, i);
      assert Without(xs, |xs| - 1) == xs[..|xs| - 1];
    }
  }

  lemma ParsedWithout(files: seq<seq<Line>>, i: nat)
    requires i < |files|
    ensures multiset(Parsed(files)) == multiset(Parsed(Without(files, i))) + multiset{ParseJsonl(files[i])}
  {
    hide ParseJsonl;
    WithoutOne(Parsed(files), i);
    assert Parsed(Without(files, i)) == Without(Parsed(files), i);
  }

  /** From files to merged evidence: the order in which a directory lists its files does not
      matter. */
  lemma FileOrderIsIrrelevant(xs: seq<seq<Line>>, ys: seq<seq<Line>>)
    requires multiset(xs) == multiset(ys)
    ensures Merged(Parsed(xs)) == Merged(Parsed(ys))
  {
    hide ParseJsonl, Counted, Merged;
    forall c | c in Parsed(xs)
      ensures Counted(c)
    {
      var i :| 0 <= i < |xs| && Parsed(xs)[i] == c;
      ParsedIsCounted(xs[i]);
    }
    ParsedPermutes(xs, ys);
    DirectoryOrderIsIrrelevant(Parsed(xs), Parsed(ys));
  }

  // ---- What the evidence of a file says about one call ----

  /** The rows among the first `n` lines that name the call `key`. */
  function RowsOf(lines: seq<Line>, n: nat, key: string): seq<Line>
    requires n <= |lines|
  {
    if n == 0 then [] else
    RowsOf(lines, n - 1, key) + if lines[n - 1].Row? && lines[n - 1].qualname == key then [lines[n - 1]] else []
  }

  function FailedRows(lines: seq<Line>, n: nat, key: string): nat
    requires n <= |lines|
  {
    if n == 0 then 0 else
    FailedRows(lines, n - 1, key)
      + if lines[n - 1].Row? && lines[n - 1].qualname == key && lines[n - 1].failed then 1 else 0
  }

  function LatenciesOf(lines: seq<Line>, n: nat, key: string): seq<real>
    requires n <= |lines|
  {
    if n == 0 then [] else
    LatenciesOf(lines, n - 1, key) +
      if lines[n - 1].Row? && lines[n - 1].qualname == key && lines[n - 1].latency.Some? then [lines[n - 1].latency.value] else []
  }

  /** What one line adds to the counters and latencies of one call. */
  lemma LinePerCall(g: Gathered, line: Line, key: string)
    requires key != ""
    ensures var h, names := AddLine(g, line), line.Row? && line.qualname == key;
      && Get(h.opCounts, key) == Get(g.opCounts, key) + (if names then 1 else 0)
      && (key in h.opCounts <==> key in g.opCounts || names)
      && Get(h.opErrors, key) == Get(g.opErrors, key) + (if names && line.failed then 1 else 0)
      && (key in h.opErrors <==> key in g.opErrors || (names && line.failed))
      && ListAt(h.lists, key) == ListAt(g.lists, key) + (if names && line.latency.Some? then [line.latency.value] else [])
      && (key in h.lists <==> key in g.lists || (names && line.latency.Some?))
  {
  }

  lemma {:induction false} CountsPerCall(lines: seq<Line>, n: nat, key: string)
    requires n <= |lines| && key != ""
    ensures Get(Gather(lines, n).opCounts, key) == |RowsOf(lines, n, key)|
    ensures key in Gather(lines, n).opCounts <==> RowsOf(lines, n, key) != []
  {
    hide AddLine, ListAt, Get;
    if n == 0 {
      NothingGathered(key);
    } else {
      CountsPerCall(lines, n - 1, key);
      LinePerCall(Gather(lines, n - 1), lines[n - 1], key);
    }
  }

  lemma {:induction false} ErrorsPerCall(lines: seq<Line>, n: nat, key: string)
    requires n <= |lines| && key != ""
    ensures Get(Gather(lines, n).opErrors, key) == FailedRows(lines, n, key)
    ensures key in Gather(lines, n).opErrors <==> FailedRows(lines, n, key) > 0
  {
    hide AddLine, ListAt, Get;
    if n == 0 {
      NothingGathered(key);
    } else {
      ErrorsPerCall(lines, n - 1, key);
      LinePerCall(Gather(lines, n - 1), lines[n - 1], key);
    }
  }

  lemma {:induction false} LatenciesPerCall(lines: seq<Line>, n: nat, key: string)
    requires n <= |lines| && key != ""
    ensures ListAt(Gather(lines, n).lists, key) == LatenciesOf(lines, n, key)
    ensures key in Gather(lines, n).lists <==> LatenciesOf(lines, n, key) != []
  {
    hide AddLine, ListAt, Get;
    if n == 0 {
      NothingGathered(key);
    } else {
      LatenciesPerCall(lines, n - 1, key);
      LinePerCall(Gather(lines, n - 1), lines[n - 1], key);
    }
  }

  lemma NothingGathered(key: string)
    ensures Get(map[], key) == 0 && ListAt(map[], key) == []
  {
  }

  lemma {:induction false} NothingUnnamed(lines: seq<Line>, n: nat)
    requires n <= |lines|
    ensures "" !in Gather(lines, n).opCounts && "" !in Gather(lines, n).opErrors && "" !in Gather(lines, n).lists
  {
    if n > 0 {
      NothingUnnamed(lines, n - 1);
    }
  }

  /** Call by call: it is counted once for each row that names it, its errors once for each of
      those that failed, and summarized over their latencies, in order. A row without a name
      counts for nothing. */
  lemma EvidencePerCall(lines: seq<Line>, key: string)
    requires key != ""
    ensures var e, n := ParseJsonl(lines), |lines|;
      && Get(e.opCounts, key) == |RowsOf(lines, n, key)| && (key in e.opCounts <==> RowsOf(lines, n, key) != [])
      && Get(e.opErrors, key) == FailedRows(lines, n, key) && (key in e.opErrors <==> FailedRows(lines, n, key) > 0)
      && (key in e.latency <==> LatenciesOf(lines, n, key) != [])
      && (key in e.latency ==> e.latency[key] == DurationSummary(LatenciesOf(lines, n, key)))
      && "" !in e.opCounts && "" !in e.opErrors && "" !in e.latency
  {
    CountsPerCall(lines, |lines|, key);
    ErrorsPerCall(lines, |lines|, key);
    LatenciesPerCall(lines, |lines|, key);
    NothingUnnamed(lines, |lines|);
    GatheredListsHoldValues(lines, |lines|);
    hide DurationSummary, RowsOf, FailedRows, LatenciesOf;
  }

  /** `error` is what is wrong with `line`. */
  predicate IsFaultOf(line: Line, error: LineError) {
    match line
    case Blank => false
    case NotJson => error.reason == "not JSON"
    case NotObject => error.reason == "expected object"
    case Row(qualname, _, _) => qualname == "" && error.reason == "missing qualname"
  }

  lemma ErrorOfLine(line: Line, number: nat, error: LineError)
    ensures error in ErrorOf(line, number) <==> error.line == number && IsFaultOf(line, error)
  {
  }

  /** The errors: one for each line that cannot be used, with its number and the reason. */
  lemma {:induction false} ErrorsMeaning(lines: seq<Line>, n: nat, error: LineError)
    requires n <= |lines|
    ensures error in ErrorsUpTo(lines, n) <==> 1 <= error.line <= n && IsFaultOf(lines[error.line - 1], error)
  {
    hide ErrorOf, IsFaultOf;
    if n > 0 {
      ErrorsMeaning(lines, n - 1, error);
      ErrorOfLine(lines[n - 1], n, error);
    }
  }
}
