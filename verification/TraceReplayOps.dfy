/** Evidence from JSON replay files, a list of operations or an object that holds one, whose
    operations arrive already aggregated: where the law that joined files give merged evidence
    holds, and exactly where it fails. */
module TraceReplayOps {
  import opened Basics
  import opened Counts
  import opened LatencySummary
  import opened TraceReplaySummaries

  /** One operation: the numbers it has under the names of a count, of errors and of latencies.
      An object may also give a bare count for a name. */
  datatype Item =
    | NotAnOp
    | Op(qualname: string, count: Option<int>, errors: Option<int>, latencies: seq<real>)
    | BareCount(name: string, number: Option<int>)

  predicate IsOp(item: Item) {
    item.Op? && item.qualname != ""
  }

  /** Python's `number or fallback`. */
  function OrElse(number: Option<int>, fallback: int): int {
    if number.None? || number.value == 0 then fallback else number.value
  }

  /** The summary of an operation takes the place of an earlier one. */
  function PutLatency(latency: map<string, Summary>, key: string, values: seq<real>): map<string, Summary> {
    if values == [] then latency else latency[key := DurationSummary(values)]
  }

  function CountErrors(opErrors: map<string, int>, key: string, errors: int): map<string, int> {
    if errors == 0 then opErrors else Bump(opErrors, key, errors)
  }

  function AddItem(e: Evidence, item: Item): Evidence {
    if item.BareCount? && item.number.Some? then e.(opCounts := Bump(e.opCounts, item.name, item.number.value))
    else if !IsOp(item) then e else
    Evidence(e.rowsSeen, e.failedRows, Bump(e.opCounts, item.qualname, OrElse(item.count, 1)),
             CountErrors(e.opErrors, item.qualname, OrElse(item.errors, 0)),
             PutLatency(e.latency, item.qualname, item.latencies))
  }

  function ItemsUpTo(items: seq<Item>, n: nat): Evidence
    requires n <= |items|
  {
    if n == 0 then NO_EVIDENCE else AddItem(ItemsUpTo(items, n - 1), items[n - 1])
  }

  function ParseItems(items: seq<Item>): Evidence {
    ItemsUpTo(items, |items|)
  }

  method ParseReplayJson(items: seq<Item>) returns (evidence: Evidence)
    ensures evidence == ParseItems(items)
  {
    evidence := NO_EVIDENCE;
    for i := 0 to |items|
      invariant evidence == ItemsUpTo(items, i)
    {
      var item := items[i];
      if item.BareCount? {
        if item.number.Some? {
          evidence := evidence.(opCounts := Bump(evidence.opCounts, item.name, item.number.value));
        }
      } else if IsOp(item) {
        var count, errors := OrElse(item.count, 1), OrElse(item.errors, 0);
        evidence := evidence.(opCounts := Bump(evidence.opCounts, item.qualname, count));
        if errors != 0 {
          evidence := evidence.(opErrors := Bump(evidence.opErrors, item.qualname, errors));
        }
        if item.latencies != [] {
          evidence := evidence.(latency := evidence.latency[item.qualname := DurationSummary(item.latencies)]);
        }
      }
    }
  }

  /** Item `i` gives latencies for `key`. */
  predicate Times(items: seq<Item>, i: nat, key: string) {
    i < |items| && IsOp(items[i]) && items[i].qualname == key && items[i].latencies != []
  }

  predicate HasLatency(items: seq<Item>, key: string) {
    exists i :: 0 <= i < |items| && Times(items, i, key)
  }

  /** What is summarized, and that no summary is empty. */
  lemma {:induction false} SummarizedKeys(items: seq<Item>, n: nat, key: string)
    requires n <= |items|
    ensures key in ItemsUpTo(items, n).latency <==> exists i :: 0 <= i < n && Times(items, i, key)
    ensures key in ItemsUpTo(items, n).latency ==> ItemsUpTo(items, n).latency[key].count > 0
  {
    hide Bump, CountErrors, DurationSummary, OrElse;
    if n > 0 {
      SummarizedKeys(items, n - 1, key);
      assert Times(items, n - 1, key) ==> key in ItemsUpTo(items, n).latency;
      if items[n - 1].Op? && items[n - 1].latencies != [] {
        SummaryMeans(items[n - 1].latencies);
      }
    }
  }

  /** The order theorem of directories applies to JSON files too. */
  lemma ItemsAreCounted(items: seq<Item>)
    ensures Counted(ParseItems(items))
  {
    forall key | key in ParseItems(items).latency
      ensures ParseItems(items).latency[key].count > 0
    {
      SummarizedKeys(items, |items|, key);
    }
  }

  // ---- Two files ----

  lemma {:induction false} ItemsPrefix(a: seq<Item>, b: seq<Item>, n: nat)
    requires n <= |a|
    ensures ItemsUpTo(a + b, n) == ItemsUpTo(a, n)
  {
    hide AddItem;
    if n > 0 {
      ItemsPrefix(a, b, n - 1);
    }
  }

  lemma PutInMerge(target: map<string, Summary>, source: map<string, Summary>, key: string, values: seq<real>)
    requires values != [] ==> key !in target
    ensures MergeSummaries(target, PutLatency(source, key, values)) == PutLatency(MergeSummaries(target, source), key, values)
  {
    hide DurationSummary, Merge;
    var left, right := MergeSummaries(target, PutLatency(source, key, values)), PutLatency(MergeSummaries(target, source), key, values);
    assert left.Keys == right.Keys;
    assert forall k | k in left :: left[k] == right[k];
  }

  lemma ItemInJoin(e: Evidence, f: Evidence, item: Item)
    requires IsOp(item) && item.latencies != [] ==> item.qualname !in e.latency
    ensures Join(e, AddItem(f, item)) == AddItem(Join(e, f), item)
  {
    hide Bump, PutLatency, MergeCounts, MergeSummaries, OrElse;
    if item.BareCount? && item.number.Some? {
      BumpInMerge(e.opCounts, f.opCounts, item.name, item.number.value);
    } else if IsOp(item) {
      BumpInMerge(e.opCounts, f.opCounts, item.qualname, OrElse(item.count, 1));
      BumpInMerge(e.opErrors, f.opErrors, item.qualname, OrElse(item.errors, 0));
      PutInMerge(e.latency, f.latency, item.qualname, item.latencies);
    }
  }

  lemma JoinNoEvidence(e: Evidence)
    ensures Join(e, NO_EVIDENCE) == e
  {
  }

  lemma {:induction false} ItemsJoined(a: seq<Item>, b: seq<Item>, n: nat)
    requires n <= |b| && forall key | HasLatency(b, key) :: !HasLatency(a, key)
    ensures ItemsUpTo(a + b, |a| + n) == Join(ParseItems(a), ItemsUpTo(b, n))
  {
    hide AddItem, Join;
    if n == 0 {
      ItemsPrefix(a, b, |a|);
      JoinNoEvidence(ParseItems(a));
    } else {
      ItemsJoined(a, b, n - 1);
      assert (a + b)[|a| + n - 1] == b[n - 1];
      var item := b[n - 1];
      if IsOp(item) && item.latencies != [] {
        assert Times(b, n - 1, item.qualname) && HasLatency(b, item.qualname);
        SummarizedKeys(a, |a|, item.qualname);
      }
      ItemInJoin(ParseItems(a), ItemsUpTo(b, n - 1), item);
    }
  }

  /** The later file has the last word on a name it gives latencies for. */
  lemma {:induction false} LaterFileWins(a: seq<Item>, b: seq<Item>, n: nat, key: string)
    requires n <= |b| && key in ItemsUpTo(b, n).latency
    ensures key in ItemsUpTo(a + b, |a| + n).latency
    ensures ItemsUpTo(a + b, |a| + n).latency[key] == ItemsUpTo(b, n).latency[key]
  {
    hide Bump, CountErrors, DurationSummary, OrElse;
    assert (a + b)[|a| + n - 1] == b[n - 1];
    if key in ItemsUpTo(b, n - 1).latency {
      LaterFileWins(a, b, n - 1, key);
    }
  }

  /** The evidence of two files one after the other is their merged evidence if and only if no
      operation has latencies in both: a later summary replaces an earlier one of the same
      file, but is merged with one of another file. */
  lemma JoinedListsMergeExactly(a: seq<Item>, b: seq<Item>)
    ensures ParseItems(a + b) == Join(ParseItems(a), ParseItems(b))
       <==> forall key | HasLatency(b, key) :: !HasLatency(a, key)
  {
    if forall key | HasLatency(b, key) :: !HasLatency(a, key) {
      ItemsJoined(a, b, |b|);
    } else {
      var key :| HasLatency(b, key) && HasLatency(a, key);
      SummarizedKeys(a, |a|, key);
      SummarizedKeys(b, |b|, key);
      LaterFileWins(a, b, |b|, key);
      CountsDiffer(ParseItems(a), ParseItems(b), key);
    }
  }

  lemma CountsDiffer(e: Evidence, f: Evidence, key: string)
    requires key in e.latency && key in f.latency && e.latency[key].count > 0 && f.latency[key].count > 0
    ensures key in Join(e, f).latency && Join(e, f).latency[key].count != f.latency[key].count
  {
  }

  // ---- One operation more ----

  /** What an item adds: its count, 1 when that is absent or zero; its errors, none when they are
      absent or zero; its latencies in place of earlier ones. An object's bare counts are added
      as they are, and everything else is passed over. */
  lemma ItemMeaning(items: seq<Item>, item: Item, key: string)
    ensures var before, after := ParseItems(items), ParseItems(items + [item]);
      var isOp := item.Op? && item.qualname == key && key != "";
      var count := if item.Op? && item.count.Some? && item.count.value != 0 then item.count.value else 1;
      var errors := if item.Op? && item.errors.Some? then item.errors.value else 0;
      && Get(after.opCounts, key) == Get(before.opCounts, key)
           + (if isOp then count else if item.BareCount? && item.name == key && item.number.Some? then item.number.value else 0)
      && Get(after.opErrors, key) == Get(before.opErrors, key) + (if isOp then errors else 0)
      && (isOp && errors != 0 ==> key in after.opErrors)
      && (!isOp || errors == 0 ==> (key in after.opErrors <==> key in before.opErrors))
      && (isOp && item.latencies != [] ==> key in after.latency && after.latency[key] == DurationSummary(item.latencies))
      && (!isOp || item.latencies == [] ==> (key in after.latency <==> key in before.latency))
      && ((!isOp || item.latencies == []) && key in before.latency ==> after.latency[key] == before.latency[key])
      && after.rowsSeen == before.rowsSeen && after.failedRows == before.failedRows
    ensures ParseItems([]) == Evidence(0, 0, map[], map[], map[])
  {
    ItemsPrefix(items, [item], |items|);
    hide DurationSummary, ItemsUpTo;
    assert ItemsUpTo(items + [item], |items| + 1) == AddItem(ItemsUpTo(items + [item], |items|), item) by {
      LastItem(items, item);
    }
    LastItem(items, item);
    NoItems();
  }

  lemma LastItem(items: seq<Item>, item: Item)
    ensures ItemsUpTo(items + [item], |items| + 1) == AddItem(ItemsUpTo(items + [item], |items|), item)
  {
    hide AddItem;
  }

  lemma NoItems()
    ensures ItemsUpTo([], 0) == Evidence(0, 0, map[], map[], map[])
  {
  }
}
