/** Dictionaries of counters, and the sum of all their entries. */
module Counts {

  /** Python's `counts.get(key, 0)`. */
  function Get(counts: map<string, int>, key: string): int {
    if key in counts then counts[key] else 0
  }

  function Bump(counts: map<string, int>, key: string, amount: int): map<string, int> {
    counts[key := Get(counts, key) + amount]
  }

  ghost function Total(counts: map<string, int>): int
    decreases |counts|
  {
    if counts == map[] then 0 else
    var key :| key in counts;
    counts[key] + Total(counts - {key})
  }

  /** The total does not depend on the order in which the entries are taken. */
  lemma {:induction false} TotalWithout(counts: map<string, int>, key: string)
    requires key in counts
    ensures Total(counts) == counts[key] + Total(counts - {key})
    decreases |counts|
  {
    var taken :| taken in counts && Total(counts) == counts[taken] + Total(counts - {taken});
    if taken != key {
      TotalWithout(counts - {taken}, key);
      TotalWithout(counts - {key}, taken);
      assert counts - {taken} - {key} == counts - {key} - {taken};
    }
  }

  /** Bumping a counter raises the total by the same amount. */
  lemma TotalOfBump(counts: map<string, int>, key: string, amount: int)
    ensures Total(Bump(counts, key, amount)) == Total(counts) + amount
  {
    var bumped := Bump(counts, key, amount);
    TotalWithout(bumped, key);
    if key in counts {
      TotalWithout(counts, key);
      assert bumped - {key} == counts - {key};
    } else {
      assert bumped - {key} == counts;
    }
  }
}
