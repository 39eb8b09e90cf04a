/** Small vocabulary shared by the other modules: optional values, bytes and the
    trimming that Python's `strip` does for a given notion of white space. */
module Basics {

  datatype Option<+T> = None | Some(value: T)

  predicate StartsWith(s: string, prefix: string) {
    |prefix| <= |s| && s[..|prefix|] == prefix
  }

  type byte = b: int | 0 <= b < 256

  /** Position of the first element from `i` on that is not a space. */
  function SkipSpace<T>(space: T -> bool, s: seq<T>, i: nat): (lo: nat)
    requires i <= |s|
    ensures i <= lo <= |s|
    ensures lo < |s| ==> !space(s[lo])
    decreases |s| - i
  {
    if i < |s| && space(s[i]) then SkipSpace(space, s, i + 1) else i
  }

  /** End of the text between `lo` and `j` once its trailing space is dropped. */
  function DropSpace<T>(space: T -> bool, s: seq<T>, lo: nat, j: nat): (hi: nat)
    requires lo <= j <= |s|
    ensures lo <= hi <= j
    ensures lo < hi ==> !space(s[hi - 1])
    decreases j
  {
    if lo < j && space(s[j - 1]) then DropSpace(space, s, lo, j - 1) else j
  }

  /** Python's `strip`: no space is left at either end. */
  function Strip<T>(space: T -> bool, s: seq<T>): (r: seq<T>)
    ensures r != [] ==> !space(r[0]) && !space(r[|r| - 1])
    ensures |r| <= |s|
  {
    var lo := SkipSpace(space, s, 0);
    s[lo..DropSpace(space, s, lo, |s|)]
  }

  /** Trimming leaves a text alone exactly when it has no space at either end. */
  lemma StripFixpoint<T>(space: T -> bool, s: seq<T>)
    ensures Strip(space, s) == s <==> s == [] || (!space(s[0]) && !space(s[|s| - 1]))
  {
  }

  ghost predicate AllSpace<T>(space: T -> bool, s: seq<T>) {
    forall k | 0 <= k < |s| :: space(s[k])
  }

  lemma {:induction false} SkippedIsSpace<T>(space: T -> bool, s: seq<T>, i: nat)
    requires i <= |s|
    ensures forall k | i <= k < SkipSpace(space, s, i) :: space(s[k])
    decreases |s| - i
  {
    if i < |s| && space(s[i]) {
      SkippedIsSpace(space, s, i + 1);
    }
  }

  lemma {:induction false} DroppedIsSpace<T>(space: T -> bool, s: seq<T>, lo: nat, j: nat)
    requires lo <= j <= |s|
    ensures forall k | DropSpace(space, s, lo, j) <= k < j :: space(s[k])
    decreases j
  {
    if lo < j && space(s[j - 1]) {
      DroppedIsSpace(space, s, lo, j - 1);
    }
  }

  lemma CutTwice<T>(s: seq<T>, lo: nat, hi: nat)
    requires lo <= hi <= |s|
    ensures s == s[..lo] + s[lo..hi] + s[hi..]
  {
  }

  /** What is trimmed off is space. */
  lemma StripIsTrim<T>(space: T -> bool, s: seq<T>) returns (before: seq<T>, behind: seq<T>)
    ensures s == before + Strip(space, s) + behind && AllSpace(space, before) && AllSpace(space, behind)
  {
    var lo := SkipSpace(space, s, 0);
    var hi := DropSpace(space, s, lo, |s|);
    SkippedIsSpace(space, s, 0);
    DroppedIsSpace(space, s, lo, |s|);
    CutTwice(s, lo, hi);
    before, behind := s[..lo], s[hi..];
  }

  lemma SplitAt<T>(s: seq<T>, a: seq<T>, r: seq<T>, b: seq<T>)
    requires s == a + r + b
    ensures |s| == |a| + |r| + |b|
    ensures forall k | 0 <= k < |a| :: s[k] == a[k]
    ensures forall k | 0 <= k < |r| :: s[|a| + k] == r[k]
    ensures forall k | 0 <= k < |b| :: s[|a| + |r| + k] == b[k]
  {
  }

  /** There is only one way to trim. */
  lemma TrimIsUnique<T>(space: T -> bool, s: seq<T>, a: seq<T>, r: seq<T>, b: seq<T>)
    requires s == a + r + b && AllSpace(space, a) && AllSpace(space, b)
    requires r == [] || (!space(r[0]) && !space(r[|r| - 1]))
    ensures Strip(space, s) == r
  {
    SplitAt(s, a, r, b);
    var lo := SkipSpace(space, s, 0);
    var hi := DropSpace(space, s, lo, |s|);
    SkippedIsSpace(space, s, 0);
    DroppedIsSpace(space, s, lo, |s|);
    if r == [] {
      assert forall k | 0 <= k < |s| :: space(s[k]) by {
        assert forall k | 0 <= k < |b| :: s[|a| + k] == b[k];
        assert forall k | |a| <= k < |s| :: s[k] == b[k - |a|];
      }
      assert lo == |s|;
    } else {
      assert !space(s[|a| + 0]) && !space(s[|a| + (|r| - 1)]);
      assert lo == |a|;
      assert forall k | |a| + |r| <= k < |s| :: s[k] == b[k - |a| - |r|];
      assert hi == |a| + |r|;
      assert s[lo..hi] == r;
    }
  }
}
