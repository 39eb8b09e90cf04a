/** The status of a metric family: mode detection, applicability and the evidence of samples, as
    both coverage reports compute it. The registry is arbitrary: a family matches the names its
    predicate accepts. */
module FamilyStatus {
  import opened Basics

  datatype Sample = Sample(name: string, value: real)

  datatype RequiredWhen =
    | Always | Optional | Sampled | L2Configured | CacheblendObserved
    | ExternalCacheConfigured | CpuOffloadConfigured | DisaggregatedOrExternalCache

  datatype FamilySpec = FamilySpec(surface: string, family: string, matches: string -> bool, requiredWhen: RequiredWhen)

  datatype Status = NotApplicable | Missing | Zero | Populated

  datatype FamilyRow = FamilyRow(surface: string, family: string, requiredWhen: RequiredWhen, applicable: bool, status: Status)

  const LMCACHE_MP := "lmcache_mp"
  const LMCACHE_CACHEBLEND := "lmcache_cacheblend"
  const LMCACHE_EMBEDDED := "lmcache_embedded"

  function Rank(status: Status): nat {
    match status
    case NotApplicable => 0
    case Missing => 1
    case Zero => 2
    case Populated => 3
  }

  // ---- What the samples show ----

  predicate IsMpName(name: string) {
    StartsWith(name, "lmcache_mp_") || StartsWith(name, "lmcache_mp.")
  }

  predicate IsBlendName(name: string) {
    StartsWith(name, "lmcache_blend_")
  }

  predicate IsEmbeddedName(name: string) {
    (StartsWith(name, "lmcache:") || StartsWith(name, "lmcache_")) && !IsMpName(name) && !IsBlendName(name)
  }

  /** Some sample has a name that the predicate accepts. */
  predicate Observed(samples: seq<Sample>, accepts: string -> bool) {
    exists i :: 0 <= i < |samples| && accepts(samples[i].name)
  }

  /** One of those samples is not zero. */
  predicate ObservedNonzero(samples: seq<Sample>, accepts: string -> bool) {
    exists i :: 0 <= i < |samples| && accepts(samples[i].name) && samples[i].value != 0.0
  }

  datatype Mode = Mixed | Mp | Embedded | Unknown

  function DetectedMode(mp: bool, embedded: bool): Mode {
    if mp && embedded then Mixed else if mp then Mp else if embedded then Embedded else Unknown
  }

  /** What a compatibility report derives from its samples. */
  datatype Detection = Detection(mode: Mode, cacheblend: bool)

  function Detect(samples: seq<Sample>): Detection {
    var blend := Observed(samples, IsBlendName);
    Detection(DetectedMode(Observed(samples, IsMpName) || blend, Observed(samples, IsEmbeddedName)), blend)
  }

  // ---- The compatibility report ----

  predicate CompatApplicable(spec: FamilySpec, d: Detection, l2Configured: bool, mpMetricsDisabled: bool) {
    if spec.surface == LMCACHE_MP && mpMetricsDisabled then false
    else if spec.surface == LMCACHE_MP && d.mode != Mp && d.mode != Mixed then false
    else if spec.surface == LMCACHE_CACHEBLEND && (!d.cacheblend || mpMetricsDisabled) then false
    else if spec.surface == LMCACHE_EMBEDDED && d.mode != Embedded && d.mode != Mixed then false
    else if spec.requiredWhen == L2Configured then l2Configured
    else if spec.requiredWhen == CacheblendObserved then d.cacheblend
    else true
  }

  function CompatFamilyRow(spec: FamilySpec, samples: seq<Sample>, d: Detection, l2Configured: bool, mpMetricsDisabled: bool): FamilyRow {
    var matched := Observed(samples, spec.matches);
    var applicable := CompatApplicable(spec, d, l2Configured, mpMetricsDisabled) && (spec.requiredWhen == Optional ==> matched);
    FamilyRow(spec.surface, spec.family, spec.requiredWhen, applicable,
              if !applicable then NotApplicable
              else if spec.surface == LMCACHE_CACHEBLEND && !matched then NotApplicable
              else if matched && ObservedNonzero(samples, spec.matches) then Populated
              else if matched then Zero
              else Missing)
  }

  /** The rows of the registry, the detection included. */
  function CompatFamilies(registry: seq<FamilySpec>, samples: seq<Sample>, l2Configured: bool, mpMetricsDisabled: bool): seq<FamilyRow> {
    seq(|registry|, i requires 0 <= i < |registry| =>
      CompatFamilyRow(registry[i], samples, Detect(samples), l2Configured, mpMetricsDisabled))
  }

  // ---- The coverage report ----

  datatype CoverageConfig = CoverageConfig(
    expectedEngine: string, externalCacheConfigured: bool, cpuOffloadConfigured: bool, disaggregatedOrExternalCache: bool)

  predicate CoverageApplicable(spec: FamilySpec, config: CoverageConfig) {
    if config.expectedEngine != "auto" && spec.surface != config.expectedEngine then false
    else match spec.requiredWhen
      case ExternalCacheConfigured => config.externalCacheConfigured
      case CpuOffloadConfigured => config.cpuOffloadConfigured
      case DisaggregatedOrExternalCache => config.disaggregatedOrExternalCache
      case _ => true
  }

  function CoverageFamilyRow(spec: FamilySpec, samples: seq<Sample>, config: CoverageConfig): FamilyRow {
    var matched := Observed(samples, spec.matches);
    var applicable := CoverageApplicable(spec, config) && (spec.requiredWhen == Optional || spec.requiredWhen == Sampled ==> matched);
    FamilyRow(spec.surface, spec.family, spec.requiredWhen, applicable,
              if !applicable then NotApplicable
              else if matched && ObservedNonzero(samples, spec.matches) then Populated
              else if matched then Zero
              else Missing)
  }

  // ---- What the rows mean, over the samples ----

  /** The mode is read off the names: those of the MP and CacheBlend surfaces show the one,
      every other name of LMCache the other. */
  lemma DetectionMeaning(samples: seq<Sample>)
    ensures var d := Detect(samples);
      var blend := exists i :: 0 <= i < |samples| && "lmcache_blend_" <= samples[i].name;
      var mp := exists i :: 0 <= i < |samples| && ("lmcache_mp_" <= samples[i].name || "lmcache_mp." <= samples[i].name);
      var embedded := exists i :: (0 <= i < |samples|
        && ("lmcache:" <= samples[i].name || "lmcache_" <= samples[i].name)
        && !("lmcache_mp_" <= samples[i].name || "lmcache_mp." <= samples[i].name || "lmcache_blend_" <= samples[i].name));
      && d.cacheblend == blend
      && (d.mode == Mixed <==> (mp || blend) && embedded)
      && (d.mode == Mp <==> (mp || blend) && !embedded)
      && (d.mode == Embedded <==> !mp && !blend && embedded)
  {
    forall s: Sample
      ensures IsBlendName(s.name) <==> "lmcache_blend_" <= s.name
      ensures IsMpName(s.name) <==> "lmcache_mp_" <= s.name || "lmcache_mp." <= s.name
      ensures IsEmbeddedName(s.name) <==> (
        && ("lmcache:" <= s.name || "lmcache_" <= s.name)
        && !("lmcache_mp_" <= s.name || "lmcache_mp." <= s.name || "lmcache_blend_" <= s.name))
    {
    }
    hide IsBlendName, IsMpName, IsEmbeddedName;
  }

  /** When a family applies: its surface is in use and not switched off, and what it needs is
      configured or was observed. */
  lemma ApplicabilityMeaning(spec: FamilySpec, d: Detection, l2Configured: bool, mpMetricsDisabled: bool)
    ensures CompatApplicable(spec, d, l2Configured, mpMetricsDisabled) <==>
      && (spec.surface == "lmcache_mp" ==> !mpMetricsDisabled && d.mode in {Mp, Mixed})
      && (spec.surface == "lmcache_cacheblend" ==> !mpMetricsDisabled && d.cacheblend)
      && (spec.surface == "lmcache_embedded" ==> d.mode in {Embedded, Mixed})
      && (spec.requiredWhen == L2Configured ==> l2Configured)
      && (spec.requiredWhen == CacheblendObserved ==> d.cacheblend)
  {
    assert |LMCACHE_MP| == 10 && |LMCACHE_CACHEBLEND| == 18 && |LMCACHE_EMBEDDED| == 16;
  }

  lemma CoverageApplicabilityMeaning(spec: FamilySpec, config: CoverageConfig)
    ensures CoverageApplicable(spec, config) <==>
      && (config.expectedEngine == "auto" || spec.surface == config.expectedEngine)
      && (spec.requiredWhen == ExternalCacheConfigured ==> config.externalCacheConfigured)
      && (spec.requiredWhen == CpuOffloadConfigured ==> config.cpuOffloadConfigured)
      && (spec.requiredWhen == DisaggregatedOrExternalCache ==> config.disaggregatedOrExternalCache)
  {
  }

  /** The compatibility row: populated when a matching sample is not zero, zero when all are,
      missing when none matches - unless the family does not apply, or is optional or of the
      CacheBlend surface and nothing matched. */
  lemma CompatStatusMeaning(spec: FamilySpec, samples: seq<Sample>, d: Detection, l2Configured: bool, mpMetricsDisabled: bool)
    ensures var row := CompatFamilyRow(spec, samples, d, l2Configured, mpMetricsDisabled);
      var matched := exists i :: 0 <= i < |samples| && spec.matches(samples[i].name);
      var nonzero := exists i :: 0 <= i < |samples| && spec.matches(samples[i].name) && samples[i].value != 0.0;
      var allZero := forall i | 0 <= i < |samples| && spec.matches(samples[i].name) :: samples[i].value == 0.0;
      && (row.applicable <==>
            CompatApplicable(spec, d, l2Configured, mpMetricsDisabled) && (spec.requiredWhen == Optional ==> matched))
      && (row.status == Populated <==> row.applicable && nonzero)
      && (row.status == Zero <==> row.applicable && matched && allZero)
      && (row.status == Missing <==> row.applicable && !matched && spec.surface != "lmcache_cacheblend")
      && row.surface == spec.surface && row.family == spec.family && row.requiredWhen == spec.requiredWhen
  {
    hide CompatApplicable;
  }

  /** The coverage row: the same, except that sampled families may go unmatched like optional
      ones, and CacheBlend families may not. */
  lemma CoverageStatusMeaning(spec: FamilySpec, samples: seq<Sample>, config: CoverageConfig)
    ensures var row := CoverageFamilyRow(spec, samples, config);
      var matched := exists i :: 0 <= i < |samples| && spec.matches(samples[i].name);
      var nonzero := exists i :: 0 <= i < |samples| && spec.matches(samples[i].name) && samples[i].value != 0.0;
      var allZero := forall i | 0 <= i < |samples| && spec.matches(samples[i].name) :: samples[i].value == 0.0;
      && (row.applicable <==> CoverageApplicable(spec, config) && (spec.requiredWhen in {Optional, Sampled} ==> matched))
      && (row.status == Populated <==> row.applicable && nonzero)
      && (row.status == Zero <==> row.applicable && matched && allZero)
      && (row.status == Missing <==> row.applicable && !matched)
      && row.surface == spec.surface && row.family == spec.family && row.requiredWhen == spec.requiredWhen
  {
    hide CoverageApplicable;
  }

  // ---- More samples never lower a status ----

  ghost predicate Included(samples: seq<Sample>, more: seq<Sample>) {
    forall s | s in samples :: s in more
  }

  lemma ObservedGrows(samples: seq<Sample>, more: seq<Sample>, accepts: string -> bool)
    requires Included(samples, more)
    ensures Observed(samples, accepts) ==> Observed(more, accepts)
    ensures ObservedNonzero(samples, accepts) ==> ObservedNonzero(more, accepts)
    ensures ObservedNonzero(samples, accepts) ==> Observed(samples, accepts)
  {
    if Observed(samples, accepts) {
      var i :| 0 <= i < |samples| && accepts(samples[i].name);
      assert samples[i] in more;
      var j :| 0 <= j < |more| && more[j] == samples[i];
      assert accepts(more[j].name);
    }
    if ObservedNonzero(samples, accepts) {
      var i :| 0 <= i < |samples| && accepts(samples[i].name) && samples[i].value != 0.0;
      assert samples[i] in more;
      var j :| 0 <= j < |more| && more[j] == samples[i];
      assert accepts(more[j].name) && more[j].value != 0.0;
    }
  }

  predicate ShowsMp(mode: Mode) {
    mode == Mp || mode == Mixed
  }

  predicate ShowsEmbedded(mode: Mode) {
    mode == Embedded || mode == Mixed
  }

  /** The detected mode may change as samples arrive, but nothing once shown is taken back. */
  lemma DetectionGrows(samples: seq<Sample>, more: seq<Sample>)
    requires Included(samples, more)
    ensures ShowsMp(Detect(samples).mode) ==> ShowsMp(Detect(more).mode)
    ensures ShowsEmbedded(Detect(samples).mode) ==> ShowsEmbedded(Detect(more).mode)
    ensures Detect(samples).cacheblend ==> Detect(more).cacheblend
  {
    hide Observed, IsMpName, IsBlendName, IsEmbeddedName, Included;
    ObservedGrows(samples, more, IsMpName);
    ObservedGrows(samples, more, IsBlendName);
    ObservedGrows(samples, more, IsEmbeddedName);
  }

  lemma ApplicableGrows(spec: FamilySpec, samples: seq<Sample>, more: seq<Sample>, l2Configured: bool, mpMetricsDisabled: bool)
    requires Included(samples, more)
    ensures CompatApplicable(spec, Detect(samples), l2Configured, mpMetricsDisabled)
        ==> CompatApplicable(spec, Detect(more), l2Configured, mpMetricsDisabled)
  {
    hide Detect, Included;
    DetectionGrows(samples, more);
  }

  lemma CompatRowGrows(spec: FamilySpec, samples: seq<Sample>, more: seq<Sample>, l2Configured: bool, mpMetricsDisabled: bool)
    requires Included(samples, more)
    ensures Rank(CompatFamilyRow(spec, samples, Detect(samples), l2Configured, mpMetricsDisabled).status)
         <= Rank(CompatFamilyRow(spec, more, Detect(more), l2Configured, mpMetricsDisabled).status)
  {
    hide Detect, Included, Observed, ObservedNonzero, CompatApplicable;
    ObservedGrows(samples, more, spec.matches);
    ApplicableGrows(spec, samples, more, l2Configured, mpMetricsDisabled);
  }

  /** For any registry and fixed flags: adding samples never lowers the status of a family in
      the order not applicable, missing, zero, populated. */
  lemma MoreSamplesNeverLowerAStatus(registry: seq<FamilySpec>, samples: seq<Sample>, more: seq<Sample>,
                                     l2Configured: bool, mpMetricsDisabled: bool)
    requires Included(samples, more)
    ensures var before := CompatFamilies(registry, samples, l2Configured, mpMetricsDisabled);
      var after := CompatFamilies(registry, more, l2Configured, mpMetricsDisabled);
      |before| == |after| && forall i | 0 <= i < |before| :: Rank(before[i].status) <= Rank(after[i].status)
  {
    hide Detect, Included, CompatFamilyRow, Rank;
    forall i | 0 <= i < |registry|
      ensures Rank(CompatFamilies(registry, samples, l2Configured, mpMetricsDisabled)[i].status)
           <= Rank(CompatFamilies(registry, more, l2Configured, mpMetricsDisabled)[i].status)
    {
      CompatRowGrows(registry[i], samples, more, l2Configured, mpMetricsDisabled);
    }
  }

  /** The same for the families of the coverage report. */
  lemma CoverageRowGrows(spec: FamilySpec, samples: seq<Sample>, more: seq<Sample>, config: CoverageConfig)
    requires Included(samples, more)
    ensures Rank(CoverageFamilyRow(spec, samples, config).status) <= Rank(CoverageFamilyRow(spec, more, config).status)
  {
    hide Included, Observed, ObservedNonzero, CoverageApplicable;
    ObservedGrows(samples, more, spec.matches);
  }

  /** The two reports disagree about a family exactly where their rules differ: for the same
      samples, a family that applies to both has the same status unless it matched nothing and
      is either sampled or of the CacheBlend surface. */
  lemma RowsDisagree(spec: FamilySpec, samples: seq<Sample>, config: CoverageConfig, l2Configured: bool, mpMetricsDisabled: bool)
    requires CompatApplicable(spec, Detect(samples), l2Configured, mpMetricsDisabled) && CoverageApplicable(spec, config)
    ensures CompatFamilyRow(spec, samples, Detect(samples), l2Configured, mpMetricsDisabled).status
         != CoverageFamilyRow(spec, samples, config).status
       <==> !Observed(samples, spec.matches) && spec.requiredWhen != Optional
            && (spec.requiredWhen == Sampled) != (spec.surface == LMCACHE_CACHEBLEND)
  {
    hide Detect, Observed, ObservedNonzero, CompatApplicable, CoverageApplicable;
  }
}
