/** Rolling family rows up into surfaces, as both reports do it, and what the reports complain
    about: failures and coverage gaps. */
module SurfaceRollup {
  import opened Basics
  import opened Counts
  import opened FamilyStatus

  datatype SurfaceStatus = Complete | Partial | ZeroOnly | AllMissing | NoneApplicable

  datatype Tally = Tally(
    familyCount: int, populated: int, zero: int, missing: int, notApplicable: int,
    requiredCount: int, requiredPopulated: int, requiredZero: int, requiredMissing: int)

  datatype SurfaceRow = SurfaceRow(tally: Tally, status: SurfaceStatus)

  const NO_FAMILIES := Tally(0, 0, 0, 0, 0, 0, 0, 0, 0)

  // ---- Counting ----

  predicate IsRequired(family: FamilyRow) {
    family.applicable && family.requiredWhen != Optional && family.status != NotApplicable
  }

  function One(b: bool): int {
    if b then 1 else 0
  }

  function AddFamily(t: Tally, family: FamilyRow): Tally {
    var required := IsRequired(family);
    Tally(
      t.familyCount + 1,
      t.populated + One(family.status == Populated),
      t.zero + One(family.status == Zero),
      t.missing + One(family.status == Missing),
      t.notApplicable + One(family.status == NotApplicable),
      t.requiredCount + One(required),
      t.requiredPopulated + One(required && family.status == Populated),
      t.requiredZero + One(required && family.status == Zero),
      t.requiredMissing + One(required && family.status == Missing))
  }

  function TallyAt(tallies: map<string, Tally>, surface: string): Tally {
    if surface in tallies then tallies[surface] else NO_FAMILIES
  }

  /** What the counting loop has built after `n` families. */
  function TalliesUpTo(families: seq<FamilyRow>, n: nat): map<string, Tally>
    requires n <= |families|
  {
    if n == 0 then map[] else
    var before := TalliesUpTo(families, n - 1);
    var family := families[n - 1];
    before[family.surface := AddFamily(TallyAt(before, family.surface), family)]
  }

  function Tallies(families: seq<FamilyRow>): map<string, Tally> {
    TalliesUpTo(families, |families|)
  }

  // ---- The two rules ----

  function WithoutRequired(t: Tally): SurfaceStatus {
    if t.populated != 0 then Complete else if t.zero != 0 then ZeroOnly else NoneApplicable
  }

  function CompatStatus(t: Tally): SurfaceStatus {
    if t.requiredCount == 0 then WithoutRequired(t)
    else if t.requiredPopulated != 0 then (if t.requiredMissing != 0 || t.requiredZero != 0 then Partial else Complete)
    else if t.requiredZero != 0 then ZeroOnly
    else AllMissing
  }

  function CoverageStatus(t: Tally): SurfaceStatus {
    if t.requiredCount == 0 then WithoutRequired(t)
    else if t.requiredMissing != 0 then (if t.requiredPopulated != 0 || t.requiredZero != 0 then Partial else AllMissing)
    else if t.requiredZero != 0 then (if t.requiredPopulated == 0 then ZeroOnly else Partial)
    else Complete
  }

  datatype Rule = CompatRule | CoverageRule

  function StatusBy(rule: Rule, t: Tally): SurfaceStatus {
    match rule
    case CompatRule => CompatStatus(t)
    case CoverageRule => CoverageStatus(t)
  }

  function SurfaceRowsOf(rule: Rule, families: seq<FamilyRow>): map<string, SurfaceRow> {
    var tallies := Tallies(families);
    map surface | surface in tallies :: SurfaceRow(tallies[surface], StatusBy(rule, tallies[surface]))
  }

  /** The two loops: counting family by family, then one status per surface. */
  method SurfaceRows(rule: Rule, families: seq<FamilyRow>) returns (rows: map<string, SurfaceRow>)
    ensures rows == SurfaceRowsOf(rule, families)
  {
    hide AddFamily, StatusBy;
    var tallies: map<string, Tally> := map[];
    for i := 0 to |families|
      invariant tallies == TalliesUpTo(families, i)
    {
      var family := families[i];
      if family.surface !in tallies {
        tallies := tallies[family.surface := NO_FAMILIES];
      }
      tallies := tallies[family.surface := AddFamily(tallies[family.surface], family)];
    }
    rows := map[];
    var todo := tallies.Keys;
    while todo != {}
      invariant todo <= tallies.Keys && rows.Keys == tallies.Keys - todo
      invariant forall surface | surface in rows ::
        rows[surface] == SurfaceRow(tallies[surface], StatusBy(rule, tallies[surface]))
      decreases |todo|
    {
      var surface :| surface in todo;
      rows := rows[surface := SurfaceRow(tallies[surface], StatusBy(rule, tallies[surface]))];
      todo := todo - {surface};
    }
  }

  // ---- What a tally counts ----

  datatype Query = Every | HasStatus(status: Status) | Required | RequiredWith(status: Status)

  predicate Meets(family: FamilyRow, q: Query) {
    match q
    case Every => true
    case HasStatus(status) => family.status == status
    case Required => IsRequired(family)
    case RequiredWith(status) => IsRequired(family) && family.status == status
  }

  /** The families of a surface that meet a query, among the first `n`. */
  function Matching(families: seq<FamilyRow>, n: nat, surface: string, q: Query): multiset<FamilyRow>
    requires n <= |families|
  {
    if n == 0 then multiset{} else
    Matching(families, n - 1, surface, q)
      + if families[n - 1].surface == surface && Meets(families[n - 1], q) then multiset{families[n - 1]} else multiset{}
  }

  function Count(families: seq<FamilyRow>, n: nat, surface: string, q: Query): nat
    requires n <= |families|
  {
    |Matching(families, n, surface, q)|
  }

  ghost predicate CountsFamilies(t: Tally, families: seq<FamilyRow>, n: nat, surface: string)
    requires n <= |families|
  {
    && t.familyCount == Count(families, n, surface, Every)
    && t.populated == Count(families, n, surface, HasStatus(Populated))
    && t.zero == Count(families, n, surface, HasStatus(Zero))
    && t.missing == Count(families, n, surface, HasStatus(Missing))
    && t.notApplicable == Count(families, n, surface, HasStatus(NotApplicable))
    && t.requiredCount == Count(families, n, surface, Required)
    && t.requiredPopulated == Count(families, n, surface, RequiredWith(Populated))
    && t.requiredZero == Count(families, n, surface, RequiredWith(Zero))
    && t.requiredMissing == Count(families, n, surface, RequiredWith(Missing))
  }

  lemma CountStep(families: seq<FamilyRow>, n: nat, surface: string, q: Query)
    requires 0 < n <= |families|
    ensures Count(families, n, surface, q)
         == Count(families, n - 1, surface, q) + One(families[n - 1].surface == surface && Meets(families[n - 1], q))
  {
  }

  lemma TallyStep(families: seq<FamilyRow>, n: nat, surface: string)
    requires 0 < n <= |families|
    ensures var before := TallyAt(TalliesUpTo(families, n - 1), surface);
      TallyAt(TalliesUpTo(families, n), surface)
        == if families[n - 1].surface == surface then AddFamily(before, families[n - 1]) else before
  {
    hide AddFamily;
  }

  lemma TallyStart(families: seq<FamilyRow>, surface: string)
    ensures TallyAt(TalliesUpTo(families, 0), surface) == NO_FAMILIES
  {
  }

  lemma AddedFamilyCounts(t: Tally, families: seq<FamilyRow>, n: nat, surface: string)
    requires 0 < n <= |families| && CountsFamilies(t, families, n - 1, surface)
    ensures families[n - 1].surface == surface ==> CountsFamilies(AddFamily(t, families[n - 1]), families, n, surface)
    ensures families[n - 1].surface != surface ==> CountsFamilies(t, families, n, surface)
  {
    hide Count;
    CountStep(families, n, surface, Every);
    CountStep(families, n, surface, HasStatus(Populated));
    CountStep(families, n, surface, HasStatus(Zero));
    CountStep(families, n, surface, HasStatus(Missing));
    CountStep(families, n, surface, HasStatus(NotApplicable));
    CountStep(families, n, surface, Required);
    CountStep(families, n, surface, RequiredWith(Populated));
    CountStep(families, n, surface, RequiredWith(Zero));
    CountStep(families, n, surface, RequiredWith(Missing));
  }

  lemma NoFamiliesCounted(families: seq<FamilyRow>, surface: string)
    ensures CountsFamilies(NO_FAMILIES, families, 0, surface)
  {
  }

  /** Every field of every tally is the number of families it names. */
  lemma {:induction false} TalliesCount(families: seq<FamilyRow>, n: nat, surface: string)
    requires n <= |families|
    ensures CountsFamilies(TallyAt(TalliesUpTo(families, n), surface), families, n, surface)
  {
    hide *;
    if n == 0 {
      TallyStart(families, surface);
      NoFamiliesCounted(families, surface);
    } else {
      TalliesCount(families, n - 1, surface);
      TallyStep(families, n, surface);
      AddedFamilyCounts(TallyAt(TalliesUpTo(families, n - 1), surface), families, n, surface);
    }
  }

  /** A surface has a tally exactly when some family belongs to it. */
  lemma {:induction false} TalliedSurfaces(families: seq<FamilyRow>, n: nat, surface: string)
    requires n <= |families|
    ensures surface in TalliesUpTo(families, n) <==> exists i :: 0 <= i < n && families[i].surface == surface
  {
    hide AddFamily;
    if n > 0 {
      TalliedSurfaces(families, n - 1, surface);
    }
  }

  // ---- Conservation ----

  predicate Conserves(t: Tally) {
    && t.familyCount == t.populated + t.zero + t.missing + t.notApplicable
    && t.requiredCount == t.requiredPopulated + t.requiredZero + t.requiredMissing
    && 0 <= t.requiredPopulated <= t.populated
    && 0 <= t.requiredZero <= t.zero
    && 0 <= t.requiredMissing <= t.missing
    && 0 <= t.notApplicable
  }

  lemma AddConserves(t: Tally, family: FamilyRow)
    requires Conserves(t)
    ensures Conserves(AddFamily(t, family)) && AddFamily(t, family).familyCount == t.familyCount + 1
  {
  }

  lemma NoFamiliesConserve()
    ensures Conserves(NO_FAMILIES)
  {
  }

  /** No family is lost or counted twice within a surface. */
  lemma {:induction false} TalliesConserve(families: seq<FamilyRow>, n: nat, surface: string)
    requires n <= |families|
    ensures Conserves(TallyAt(TalliesUpTo(families, n), surface))
  {
    hide *;
    if n == 0 {
      TallyStart(families, surface);
      NoFamiliesConserve();
    } else {
      TalliesConserve(families, n - 1, surface);
      TallyStep(families, n, surface);
      AddConserves(TallyAt(TalliesUpTo(families, n - 1), surface), families[n - 1]);
    }
  }

  function FamilyCounts(tallies: map<string, Tally>): map<string, int> {
    map surface | surface in tallies :: tallies[surface].familyCount
  }

  lemma FamilyCountsStep(families: seq<FamilyRow>, n: nat)
    requires 0 < n <= |families|
    ensures FamilyCounts(TalliesUpTo(families, n)) == Bump(FamilyCounts(TalliesUpTo(families, n - 1)), families[n - 1].surface, 1)
  {
    var before, surface := TalliesUpTo(families, n - 1), families[n - 1].surface;
    AddedToCount(TallyAt(before, surface), families[n - 1]);
    hide AddFamily;
    var left, right := FamilyCounts(TalliesUpTo(families, n)), Bump(FamilyCounts(before), surface, 1);
    assert left.Keys == right.Keys;
    assert forall s | s in left :: left[s] == right[s];
  }

  lemma AddedToCount(t: Tally, family: FamilyRow)
    ensures AddFamily(t, family).familyCount == t.familyCount + 1
  {
  }

  /** Nor between surfaces: the surface totals add up to the length of the list. */
  lemma {:induction false} SurfaceTotals(families: seq<FamilyRow>, n: nat)
    requires n <= |families|
    ensures Total(FamilyCounts(TalliesUpTo(families, n))) == n
  {
    if n > 0 {
      hide *;
      SurfaceTotals(families, n - 1);
      FamilyCountsStep(families, n);
      TotalOfBump(FamilyCounts(TalliesUpTo(families, n - 1)), families[n - 1].surface, 1);
    }
  }

  // ---- The order of the families ----

  lemma MatchingStep(families: seq<FamilyRow>, n: nat, surface: string, q: Query, f: FamilyRow)
    requires 0 < n <= |families|
    ensures Matching(families, n, surface, q)[f]
         == Matching(families, n - 1, surface, q)[f] + One(families[n - 1] == f && f.surface == surface && Meets(f, q))
  {
    hide Meets;
  }

  lemma NothingMatches(families: seq<FamilyRow>, surface: string, q: Query)
    ensures Matching(families, 0, surface, q) == multiset{}
  {
  }

  lemma PrefixStep(families: seq<FamilyRow>, n: nat, f: FamilyRow)
    requires 0 < n <= |families|
    ensures multiset(families[..n])[f] == multiset(families[..n - 1])[f] + One(families[n - 1] == f)
  {
    assert families[..n] == families[..n - 1] + [families[n - 1]];
  }

  lemma {:induction false} MatchingAt(families: seq<FamilyRow>, n: nat, surface: string, q: Query, f: FamilyRow)
    requires n <= |families|
    ensures Matching(families, n, surface, q)[f]
         == if f.surface == surface && Meets(f, q) then multiset(families[..n])[f] else 0
  {
    hide Meets, Matching;
    if n == 0 {
      NothingMatches(families, surface, q);
      assert families[..0] == [];
    } else {
      MatchingAt(families, n - 1, surface, q, f);
      MatchingStep(families, n, surface, q, f);
      PrefixStep(families, n, f);
    }
  }

  lemma CountIgnoresOrder(xs: seq<FamilyRow>, ys: seq<FamilyRow>, surface: string, q: Query)
    requires multiset(xs) == multiset(ys)
    ensures Count(xs, |xs|, surface, q) == Count(ys, |ys|, surface, q)
  {
    hide Meets, Matching;
    assert xs[..|xs|] == xs && ys[..|ys|] == ys;
    forall f: FamilyRow
      ensures Matching(xs, |xs|, surface, q)[f] == Matching(ys, |ys|, surface, q)[f]
    {
      MatchingAt(xs, |xs|, surface, q, f);
      MatchingAt(ys, |ys|, surface, q, f);
    }
    assert Matching(xs, |xs|, surface, q) == Matching(ys, |ys|, surface, q);
  }

  lemma SameTally(xs: seq<FamilyRow>, ys: seq<FamilyRow>, surface: string)
    requires multiset(xs) == multiset(ys)
    ensures TallyAt(Tallies(xs), surface) == TallyAt(Tallies(ys), surface)
    ensures surface in Tallies(xs) <==> surface in Tallies(ys)
  {
    hide Count, TalliesUpTo;
    TalliesCount(xs, |xs|, surface);
    TalliesCount(ys, |ys|, surface);
    TalliedSurfaces(xs, |xs|, surface);
    TalliedSurfaces(ys, |ys|, surface);
    CountIgnoresOrder(xs, ys, surface, Every);
    CountIgnoresOrder(xs, ys, surface, HasStatus(Populated));
    CountIgnoresOrder(xs, ys, surface, HasStatus(Zero));
    CountIgnoresOrder(xs, ys, surface, HasStatus(Missing));
    CountIgnoresOrder(xs, ys, surface, HasStatus(NotApplicable));
    CountIgnoresOrder(xs, ys, surface, Required);
    CountIgnoresOrder(xs, ys, surface, RequiredWith(Populated));
    CountIgnoresOrder(xs, ys, surface, RequiredWith(Zero));
    CountIgnoresOrder(xs, ys, surface, RequiredWith(Missing));
    SameSurfaces(xs, ys, surface);
  }

  lemma SameSurfaces(xs: seq<FamilyRow>, ys: seq<FamilyRow>, surface: string)
    requires multiset(xs) == multiset(ys)
    ensures (exists i :: 0 <= i < |xs| && xs[i].surface == surface) ==> exists i :: 0 <= i < |ys| && ys[i].surface == surface
    ensures (exists i :: 0 <= i < |ys| && ys[i].surface == surface) ==> exists i :: 0 <= i < |xs| && xs[i].surface == surface
  {
    if exists i :: 0 <= i < |xs| && xs[i].surface == surface {
      var i :| 0 <= i < |xs| && xs[i].surface == surface;
      assert xs[i] in multiset(ys);
    }
    if exists i :: 0 <= i < |ys| && ys[i].surface == surface {
      var i :| 0 <= i < |ys| && ys[i].surface == surface;
      assert ys[i] in multiset(xs);
    }
  }

  /** Neither rollup depends on the order of the families. */
  lemma RollupIgnoresOrder(rule: Rule, xs: seq<FamilyRow>, ys: seq<FamilyRow>)
    requires multiset(xs) == multiset(ys)
    ensures SurfaceRowsOf(rule, xs) == SurfaceRowsOf(rule, ys)
  {
    hide Tallies, StatusBy;
    forall surface: string
      ensures TallyAt(Tallies(xs), surface) == TallyAt(Tallies(ys), surface)
      ensures surface in Tallies(xs) <==> surface in Tallies(ys)
    {
      SameTally(xs, ys, surface);
    }
  }

  // ---- The two rules compared ----

  /** The two reports give a surface the same status except when required families are missing,
      others are zero and none is populated: then one says zero and the other partial. */
  lemma RulesDisagree(families: seq<FamilyRow>, surface: string)
    ensures var t := TallyAt(Tallies(families), surface);
      && (CompatStatus(t) != CoverageStatus(t)
          <==> t.requiredMissing > 0 && t.requiredZero > 0 && t.requiredPopulated == 0)
      && (CompatStatus(t) != CoverageStatus(t) ==> CompatStatus(t) == ZeroOnly && CoverageStatus(t) == Partial)
  {
    hide TalliesUpTo;
    TalliesConserve(families, |families|, surface);
  }

  // ---- Failures and gaps ----

  datatype Failure = ObservabilityDisabled | ModeMismatch(expected: Mode, detected: Mode) | MpFamilyMissing(family: string)

  datatype Gap = Gap(surface: string, family: string, status: Status, requiredWhen: RequiredWhen)

  const LOOKUP_TOKENS := "lookup_tokens"

  predicate IsMandatory(family: FamilyRow) {
    family.applicable && family.requiredWhen != Optional && family.requiredWhen != Sampled
  }

  predicate IsMpMissing(family: FamilyRow) {
    family.surface == LMCACHE_MP && family.status == Missing
  }

  predicate IsFailure(family: FamilyRow) {
    IsMandatory(family) && IsMpMissing(family)
  }

  /** Under CacheBlend the lookup-token family of the MP surface may be missing. */
  predicate IsExcused(family: FamilyRow, cacheblend: bool) {
    cacheblend && IsMpMissing(family) && family.family == LOOKUP_TOKENS
  }

  /** CacheBlend families that count trouble may be zero. */
  predicate CountsTrouble(family: FamilyRow) {
    && family.surface == LMCACHE_CACHEBLEND && family.status == Zero
    && (family.family == "stale" || family.family == "failure" || family.family == "no_gpu_context")
  }

  predicate IsGap(family: FamilyRow, cacheblend: bool) {
    && IsMandatory(family) && !IsExcused(family, cacheblend) && !CountsTrouble(family)
    && (family.status == Missing || family.status == Zero)
  }

  function GapOf(family: FamilyRow): Gap {
    Gap(family.surface, family.family, family.status, family.requiredWhen)
  }

  function GapsUpTo(families: seq<FamilyRow>, n: nat, cacheblend: bool): seq<Gap>
    requires n <= |families|
  {
    if n == 0 then [] else
    GapsUpTo(families, n - 1, cacheblend) + if IsGap(families[n - 1], cacheblend) then [GapOf(families[n - 1])] else []
  }

  function FailuresUpTo(families: seq<FamilyRow>, n: nat): seq<Failure>
    requires n <= |families|
  {
    if n == 0 then [] else
    FailuresUpTo(families, n - 1) + if IsFailure(families[n - 1]) then [MpFamilyMissing(families[n - 1].family)] else []
  }

  /** The gaps of the engine families, and then those of the compatibility report. */
  function AllGaps(engineFamilies: seq<FamilyRow>, lmcacheFamilies: seq<FamilyRow>, cacheblend: bool): seq<Gap> {
    GapsUpTo(engineFamilies, |engineFamilies|, false) + GapsUpTo(lmcacheFamilies, |lmcacheFamilies|, cacheblend)
  }

  method CoverageGaps(engineFamilies: seq<FamilyRow>, lmcacheFamilies: seq<FamilyRow>, cacheblend: bool) returns (gaps: seq<Gap>)
    ensures gaps == AllGaps(engineFamilies, lmcacheFamilies, cacheblend)
  {
    hide IsGap;
    gaps := [];
    for i := 0 to |engineFamilies|
      invariant gaps == GapsUpTo(engineFamilies, i, false)
    {
      if IsGap(engineFamilies[i], false) {
        gaps := gaps + [GapOf(engineFamilies[i])];
      }
    }
    for i := 0 to |lmcacheFamilies|
      invariant gaps == GapsUpTo(engineFamilies, |engineFamilies|, false) + GapsUpTo(lmcacheFamilies, i, cacheblend)
    {
      if IsGap(lmcacheFamilies[i], cacheblend) {
        gaps := gaps + [GapOf(lmcacheFamilies[i])];
      }
    }
  }

  /** The failures that name no family; `expected` is absent for the automatic mode. */
  function GeneralFailures(detected: Mode, expected: Option<Mode>, disabled: bool): seq<Failure> {
    (if disabled then [ObservabilityDisabled] else [])
    + if expected.Some? && detected != expected.value then [ModeMismatch(expected.value, detected)] else []
  }

  function AllFailures(families: seq<FamilyRow>, detected: Mode, expected: Option<Mode>, disabled: bool): seq<Failure> {
    GeneralFailures(detected, expected, disabled) + FailuresUpTo(families, |families|)
  }

  method Failures(families: seq<FamilyRow>, detected: Mode, expected: Option<Mode>, disabled: bool) returns (failures: seq<Failure>)
    ensures failures == AllFailures(families, detected, expected, disabled)
  {
    hide IsFailure;
    failures := [];
    if disabled {
      failures := failures + [ObservabilityDisabled];
    }
    if expected.Some? && detected != expected.value {
      failures := failures + [ModeMismatch(expected.value, detected)];
    }
    ghost var general := failures;
    for i := 0 to |families|
      invariant failures == general + FailuresUpTo(families, i)
    {
      if IsFailure(families[i]) {
        failures := failures + [MpFamilyMissing(families[i].family)];
      }
    }
  }

  /** The families of the MP surface that the first `n` gaps report as missing. */
  function MissingMp(gaps: seq<Gap>, n: nat): seq<string>
    requires n <= |gaps|
  {
    if n == 0 then [] else
    MissingMp(gaps, n - 1) + if gaps[n - 1].surface == LMCACHE_MP && gaps[n - 1].status == Missing then [gaps[n - 1].family] else []
  }

  /** The families that the first `n` failures name, without the excused one. */
  function FailedFamilies(failures: seq<Failure>, n: nat, cacheblend: bool): seq<string>
    requires n <= |failures|
  {
    if n == 0 then [] else
    FailedFamilies(failures, n - 1, cacheblend) +
      if failures[n - 1].MpFamilyMissing? && !(cacheblend && failures[n - 1].family == LOOKUP_TOKENS)
      then [failures[n - 1].family] else []
  }

  lemma {:induction false} MissingMpPrefix(gaps: seq<Gap>, more: seq<Gap>, n: nat)
    requires n <= |gaps| <= |more| && more[..|gaps|] == gaps
    ensures MissingMp(more, n) == MissingMp(gaps, n)
  {
    if n > 0 {
      MissingMpPrefix(gaps, more, n - 1);
      assert more[n - 1] == more[..|gaps|][n - 1];
    }
  }

  lemma {:induction false} FailedPrefix(failures: seq<Failure>, more: seq<Failure>, n: nat, cacheblend: bool)
    requires n <= |failures| <= |more| && more[..|failures|] == failures
    ensures FailedFamilies(more, n, cacheblend) == FailedFamilies(failures, n, cacheblend)
  {
    if n > 0 {
      FailedPrefix(failures, more, n - 1, cacheblend);
      assert more[n - 1] == more[..|failures|][n - 1];
    }
  }

  lemma MissingMpSnoc(gaps: seq<Gap>, gap: Gap)
    ensures MissingMp(gaps + [gap], |gaps| + 1)
         == MissingMp(gaps, |gaps|) + if gap.surface == LMCACHE_MP && gap.status == Missing then [gap.family] else []
  {
    MissingMpPrefix(gaps, gaps + [gap], |gaps|);
  }

  lemma FailedSnoc(failures: seq<Failure>, failure: Failure, cacheblend: bool)
    ensures FailedFamilies(failures + [failure], |failures| + 1, cacheblend)
         == FailedFamilies(failures, |failures|, cacheblend)
          + if failure.MpFamilyMissing? && !(cacheblend && failure.family == LOOKUP_TOKENS) then [failure.family] else []
  {
    FailedPrefix(failures, failures + [failure], |failures|, cacheblend);
  }

  lemma NothingReported(families: seq<FamilyRow>, cacheblend: bool)
    ensures GapsUpTo(families, 0, cacheblend) == [] && FailuresUpTo(families, 0) == []
    ensures MissingMp([], 0) == FailedFamilies([], 0, cacheblend) == []
  {
  }

  lemma GapsStep(families: seq<FamilyRow>, n: nat, cacheblend: bool)
    requires 0 < n <= |families|
    ensures var before, family := GapsUpTo(families, n - 1, cacheblend), families[n - 1];
      GapsUpTo(families, n, cacheblend) == if IsGap(family, cacheblend) then before + [GapOf(family)] else before
  {
    hide IsGap;
  }

  lemma FailuresStep(families: seq<FamilyRow>, n: nat)
    requires 0 < n <= |families|
    ensures var before, family := FailuresUpTo(families, n - 1), families[n - 1];
      FailuresUpTo(families, n) == if IsFailure(family) then before + [MpFamilyMissing(family.family)] else before
  {
    hide IsFailure;
  }

  lemma OneGapOneFailure(family: FamilyRow, cacheblend: bool)
    ensures IsGap(family, cacheblend) && IsMpMissing(family)
       <==> IsFailure(family) && !(cacheblend && family.family == LOOKUP_TOKENS)
  {
  }

  /** The gaps and the failures of the compatibility report's own families. */
  lemma {:induction false} MissingGapsUpTo(families: seq<FamilyRow>, n: nat, cacheblend: bool)
    requires n <= |families|
    ensures var gaps, failures := GapsUpTo(families, n, cacheblend), FailuresUpTo(families, n);
      MissingMp(gaps, |gaps|) == FailedFamilies(failures, |failures|, cacheblend)
  {
    hide IsGap, IsFailure, MissingMp, FailedFamilies, GapsUpTo, FailuresUpTo;
    if n == 0 {
      NothingReported(families, cacheblend);
    } else {
      MissingGapsUpTo(families, n - 1, cacheblend);
      OneGapOneFailure(families[n - 1], cacheblend);
      GapsStep(families, n, cacheblend);
      FailuresStep(families, n);
      MissingMpSnoc(GapsUpTo(families, n - 1, cacheblend), GapOf(families[n - 1]));
      FailedSnoc(FailuresUpTo(families, n - 1), MpFamilyMissing(families[n - 1].family), cacheblend);
    }
  }

  lemma {:induction false} MissingMpJoined(a: seq<Gap>, b: seq<Gap>, n: nat)
    requires n <= |b|
    ensures MissingMp(a + b, |a| + n) == MissingMp(a, |a|) + MissingMp(b, n)
  {
    if n == 0 {
      MissingMpPrefix(a, a + b, |a|);
    } else {
      MissingMpJoined(a, b, n - 1);
    }
  }

  lemma {:induction false} FailedJoined(a: seq<Failure>, b: seq<Failure>, n: nat, cacheblend: bool)
    requires n <= |b|
    ensures FailedFamilies(a + b, |a| + n, cacheblend) == FailedFamilies(a, |a|, cacheblend) + FailedFamilies(b, n, cacheblend)
  {
    if n == 0 {
      FailedPrefix(a, a + b, |a|, cacheblend);
    } else {
      FailedJoined(a, b, n - 1, cacheblend);
    }
  }

  lemma {:induction false} GeneralFailuresNameNothing(failures: seq<Failure>, n: nat, cacheblend: bool)
    requires n <= |failures| && forall i | 0 <= i < n :: !failures[i].MpFamilyMissing?
    ensures FailedFamilies(failures, n, cacheblend) == []
  {
    if n > 0 {
      GeneralFailuresNameNothing(failures, n - 1, cacheblend);
    }
  }

  /** A family that would be reported as missing on the MP surface. */
  predicate ReportsMpMissing(family: FamilyRow) {
    IsGap(family, false) && IsMpMissing(family)
  }

  lemma {:induction false} NoMissingMp(families: seq<FamilyRow>, n: nat)
    requires n <= |families|
    ensures var gaps := GapsUpTo(families, n, false);
      MissingMp(gaps, |gaps|) == [] <==> forall i | 0 <= i < n :: !ReportsMpMissing(families[i])
  {
    hide IsGap, MissingMp, GapsUpTo;
    if n == 0 {
      NothingReported(families, false);
    } else {
      NoMissingMp(families, n - 1);
      GapsStep(families, n, false);
      MissingMpSnoc(GapsUpTo(families, n - 1, false), GapOf(families[n - 1]));
    }
  }

  lemma MissingOfAll(engineFamilies: seq<FamilyRow>, families: seq<FamilyRow>, cacheblend: bool)
    ensures var engineGaps, gaps := GapsUpTo(engineFamilies, |engineFamilies|, false), GapsUpTo(families, |families|, cacheblend);
      var all := AllGaps(engineFamilies, families, cacheblend);
      MissingMp(all, |all|) == MissingMp(engineGaps, |engineGaps|) + MissingMp(gaps, |gaps|)
  {
    hide MissingMp, GapsUpTo;
    var engineGaps, gaps := GapsUpTo(engineFamilies, |engineFamilies|, false), GapsUpTo(families, |families|, cacheblend);
    MissingMpJoined(engineGaps, gaps, |gaps|);
  }

  lemma FailedOfAll(families: seq<FamilyRow>, detected: Mode, expected: Option<Mode>, disabled: bool, cacheblend: bool)
    ensures var failures, all := FailuresUpTo(families, |families|), AllFailures(families, detected, expected, disabled);
      FailedFamilies(all, |all|, cacheblend) == FailedFamilies(failures, |failures|, cacheblend)
  {
    hide FailedFamilies, FailuresUpTo;
    var general, failures := GeneralFailures(detected, expected, disabled), FailuresUpTo(families, |families|);
    FailedJoined(general, failures, |failures|, cacheblend);
    GeneralFailuresNameNothing(general, |general|, cacheblend);
  }

  lemma SuffixOnly(a: seq<string>, b: seq<string>)
    ensures a + b == b <==> a == []
  {
    assert a + b == b ==> |a| + |b| == |b|;
    assert [] + b == b;
  }

  /** The two reports agree on the MP surface: the gaps that say a family is missing name, in
      order, exactly the families of the failures, without the lookup tokens under CacheBlend -
      if and only if no engine family is itself a missing one of the MP surface. */
  lemma MissingGapsAreFailures(engineFamilies: seq<FamilyRow>, families: seq<FamilyRow>, cacheblend: bool,
                               detected: Mode, expected: Option<Mode>, disabled: bool)
    ensures var gaps, failures := AllGaps(engineFamilies, families, cacheblend), AllFailures(families, detected, expected, disabled);
      (MissingMp(gaps, |gaps|) == FailedFamilies(failures, |failures|, cacheblend) <==>
        forall i | 0 <= i < |engineFamilies| :: !ReportsMpMissing(engineFamilies[i]))
  {
    hide *;
    MissingOfAll(engineFamilies, families, cacheblend);
    FailedOfAll(families, detected, expected, disabled, cacheblend);
    MissingGapsUpTo(families, |families|, cacheblend);
    NoMissingMp(engineFamilies, |engineFamilies|);
    var engineGaps, gaps := GapsUpTo(engineFamilies, |engineFamilies|, false), GapsUpTo(families, |families|, cacheblend);
    SuffixOnly(MissingMp(engineGaps, |engineGaps|), MissingMp(gaps, |gaps|));
  }

  lemma {:induction false} CountedAtLeastOnce(families: seq<FamilyRow>, n: nat, i: nat, q: Query)
    requires i < n <= |families| && Meets(families[i], q)
    ensures Count(families, n, families[i].surface, q) > 0
  {
    hide Meets, Count;
    CountStep(families, n, families[i].surface, q);
    if i < n - 1 {
      CountedAtLeastOnce(families, n - 1, i, q);
    }
  }

  lemma GapIsRequired(family: FamilyRow, cacheblend: bool)
    requires IsGap(family, cacheblend)
    ensures Meets(family, Required) && Meets(family, RequiredWith(family.status))
    ensures family.status == Missing || family.status == Zero
  {
  }

  lemma CompleteMeans(rule: Rule, t: Tally)
    requires Conserves(t) && StatusBy(rule, t) == Complete && t.requiredCount > 0
    ensures t.requiredMissing == 0 && t.requiredZero == 0
  {
  }

  /** A surface that either report rolls up as complete has no gap. */
  lemma CompleteSurfaceHasNoGap(rule: Rule, families: seq<FamilyRow>, i: nat, cacheblend: bool)
    requires i < |families|
    requires StatusBy(rule, TallyAt(Tallies(families), families[i].surface)) == Complete
    ensures !IsGap(families[i], cacheblend)
  {
    hide TalliesUpTo, TallyAt, Count, IsGap, Meets, StatusBy, Conserves;
    if IsGap(families[i], cacheblend) {
      var surface, status := families[i].surface, families[i].status;
      var t := TallyAt(Tallies(families), surface);
      TalliesCount(families, |families|, surface);
      TalliesConserve(families, |families|, surface);
      GapIsRequired(families[i], cacheblend);
      CountedAtLeastOnce(families, |families|, i, Required);
      CountedAtLeastOnce(families, |families|, i, RequiredWith(status));
      CompleteMeans(rule, t);
    }
  }

  // ---- The statuses, over the families ----

  /** Some family of the surface has this status. */
  ghost predicate Has(families: seq<FamilyRow>, surface: string, status: Status) {
    exists i :: 0 <= i < |families| && families[i].surface == surface && families[i].status == status
  }

  /** And one of those applies and is not optional. */
  ghost predicate HasRequired(families: seq<FamilyRow>, surface: string, status: Status) {
    exists i :: (0 <= i < |families| && families[i].surface == surface && families[i].status == status
      && families[i].applicable && families[i].requiredWhen != Optional)
  }

  lemma {:induction false} CountIsPositive(families: seq<FamilyRow>, n: nat, surface: string, q: Query)
    requires n <= |families|
    ensures Count(families, n, surface, q) >= 0
    ensures Count(families, n, surface, q) > 0
       <==> exists i :: 0 <= i < n && families[i].surface == surface && Meets(families[i], q)
  {
    hide Meets;
    if n == 0 {
      NothingCounted(families, surface, q);
    } else {
      hide Count;
      CountStep(families, n, surface, q);
      CountIsPositive(families, n - 1, surface, q);
    }
  }

  lemma NothingCounted(families: seq<FamilyRow>, surface: string, q: Query)
    ensures Count(families, 0, surface, q) == 0
  {
  }

  lemma HasByCount(families: seq<FamilyRow>, surface: string, status: Status)
    ensures Count(families, |families|, surface, HasStatus(status)) > 0 <==> Has(families, surface, status)
    ensures status != NotApplicable ==>
      (Count(families, |families|, surface, RequiredWith(status)) > 0 <==> HasRequired(families, surface, status))
    ensures Count(families, |families|, surface, HasStatus(status)) >= 0
    ensures Count(families, |families|, surface, RequiredWith(status)) >= 0
  {
    hide Count;
    CountIsPositive(families, |families|, surface, HasStatus(status));
    CountIsPositive(families, |families|, surface, RequiredWith(status));
  }

  /** What the tally of a surface says about its families. */
  lemma TallyMeaning(families: seq<FamilyRow>, surface: string, t: Tally)
    requires t == TallyAt(Tallies(families), surface)
    ensures Conserves(t)
    ensures t.populated > 0 <==> Has(families, surface, Populated)
    ensures t.zero > 0 <==> Has(families, surface, Zero)
    ensures t.requiredPopulated > 0 <==> HasRequired(families, surface, Populated)
    ensures t.requiredZero > 0 <==> HasRequired(families, surface, Zero)
    ensures t.requiredMissing > 0 <==> HasRequired(families, surface, Missing)
  {
    hide TallyAt, TalliesUpTo, Count, Has, HasRequired, Conserves;
    TalliesCount(families, |families|, surface);
    TalliesConserve(families, |families|, surface);
    HasByCount(families, surface, Populated);
    HasByCount(families, surface, Zero);
    HasByCount(families, surface, Missing);
  }

  lemma StatusOfTally(t: Tally)
    requires Conserves(t)
    ensures var compat, coverage := StatusBy(CompatRule, t), StatusBy(CoverageRule, t);
      var populated, zero, missing := t.requiredPopulated > 0, t.requiredZero > 0, t.requiredMissing > 0;
      var none := !populated && !zero && !missing;
      var somePopulated, someZero := t.populated > 0, t.zero > 0;
      && (compat == Complete <==> (populated && !zero && !missing) || (none && somePopulated))
      && (coverage == Complete <==> (populated && !zero && !missing) || (none && somePopulated))
      && (compat == Partial <==> populated && (zero || missing))
      && (coverage == Partial <==> (populated && (zero || missing)) || (zero && missing))
      && (compat == ZeroOnly <==> (!populated && zero) || (none && !somePopulated && someZero))
      && (coverage == ZeroOnly <==> (!populated && zero && !missing) || (none && !somePopulated && someZero))
      && (compat == AllMissing <==> !populated && !zero && missing)
      && (coverage == AllMissing <==> !populated && !zero && missing)
      && (compat == NoneApplicable <==> none && !somePopulated && !someZero)
      && (coverage == NoneApplicable <==> none && !somePopulated && !someZero)
  {
  }

  /** Which rows there are, and what they hold. */
  lemma RowsMeaning(rule: Rule, families: seq<FamilyRow>, surface: string)
    ensures surface in SurfaceRowsOf(rule, families) <==> exists i :: 0 <= i < |families| && families[i].surface == surface
    ensures surface in SurfaceRowsOf(rule, families) ==>
      var t := TallyAt(Tallies(families), surface);
      SurfaceRowsOf(rule, families)[surface] == SurfaceRow(t, StatusBy(rule, t))
  {
    TalliedSurfaces(families, |families|, surface);
    hide TalliesUpTo, StatusBy;
  }

  /** The status of a surface under either rule, read off its families. Without required families
      both look at the optional ones. */
  lemma StatusMeaning(families: seq<FamilyRow>, surface: string)
    requires exists i :: 0 <= i < |families| && families[i].surface == surface
    ensures surface in SurfaceRowsOf(CompatRule, families) && surface in SurfaceRowsOf(CoverageRule, families)
    ensures var compat := SurfaceRowsOf(CompatRule, families)[surface].status;
      var coverage := SurfaceRowsOf(CoverageRule, families)[surface].status;
      var populated, zero := HasRequired(families, surface, Populated), HasRequired(families, surface, Zero);
      var missing := HasRequired(families, surface, Missing);
      var none := !populated && !zero && !missing;
      var somePopulated, someZero := Has(families, surface, Populated), Has(families, surface, Zero);
      && (compat == Complete <==> (populated && !zero && !missing) || (none && somePopulated))
      && (coverage == Complete <==> (populated && !zero && !missing) || (none && somePopulated))
      && (compat == Partial <==> populated && (zero || missing))
      && (coverage == Partial <==> (populated && (zero || missing)) || (zero && missing))
      && (compat == ZeroOnly <==> (!populated && zero) || (none && !somePopulated && someZero))
      && (coverage == ZeroOnly <==> (!populated && zero && !missing) || (none && !somePopulated && someZero))
      && (compat == AllMissing <==> !populated && !zero && missing)
      && (coverage == AllMissing <==> !populated && !zero && missing)
      && (compat == NoneApplicable <==> none && !somePopulated && !someZero)
      && (coverage == NoneApplicable <==> none && !somePopulated && !someZero)
  {
    hide TallyAt, Tallies, Has, HasRequired, StatusBy, Conserves, SurfaceRowsOf;
    RowsMeaning(CompatRule, families, surface);
    RowsMeaning(CoverageRule, families, surface);
    var t := TallyAt(Tallies(families), surface);
    TallyMeaning(families, surface, t);
    StatusOfTally(t);
  }

  // ---- The gaps and failures, case by case ----

  /** Which families are gaps, and which are failures, field by field. */
  lemma GapMeaning(family: FamilyRow, cacheblend: bool)
    ensures IsGap(family, cacheblend) <==> (
      && family.applicable && family.requiredWhen !in {Optional, Sampled} && family.status in {Missing, Zero}
      && !(cacheblend && family.surface == "lmcache_mp" && family.family == "lookup_tokens" && family.status == Missing)
      && !(family.surface == "lmcache_cacheblend" && family.family in {"stale", "failure", "no_gpu_context"} && family.status == Zero))
    ensures IsFailure(family) <==> (
      && family.applicable && family.requiredWhen !in {Optional, Sampled}
      && family.surface == "lmcache_mp" && family.status == Missing)
    ensures GapOf(family) == Gap(family.surface, family.family, family.status, family.requiredWhen)
  {
    assert |LMCACHE_MP| == 10 && |LMCACHE_CACHEBLEND| == 18 && |LOOKUP_TOKENS| == 13;
  }

  lemma {:induction false} FailuresNameFamilies(families: seq<FamilyRow>, n: nat, failure: Failure)
    requires n <= |families|
    ensures failure in FailuresUpTo(families, n) <==>
      failure.MpFamilyMissing? && exists i :: 0 <= i < n && IsFailure(families[i]) && families[i].family == failure.family
  {
    hide IsFailure;
    if n > 0 {
      FailuresNameFamilies(families, n - 1, failure);
    }
  }

  /** Every failure and why it is reported. */
  lemma FailureMeaning(families: seq<FamilyRow>, detected: Mode, expected: Option<Mode>, disabled: bool, failure: Failure)
    ensures failure in AllFailures(families, detected, expected, disabled) <==>
      match failure {
        case ObservabilityDisabled => disabled
        case ModeMismatch(e, d) => expected == Some(e) && d == detected != e
        case MpFamilyMissing(family) => exists i :: 0 <= i < |families| && IsFailure(families[i]) && families[i].family == family
      }
  {
    FailuresNameFamilies(families, |families|, failure);
    hide FailuresUpTo, IsFailure;
  }
}
