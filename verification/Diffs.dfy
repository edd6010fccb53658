/** The replay diff record, its contract, and the gate a stored diff passed. */
module Diffs {
  import opened Basics
  import opened Oracle
  import opened ReplayContract
  import opened RunStore
  import opened Alignment
  import opened Divergence

  /** `delta` is comparison minus baseline. The texts (evidence summary and
      limitations) are constants with counts filled in and are not carried. */
  datatype ReplayDiff = ReplayDiff(
    diffId: string,
    baselineRunId: string,
    comparisonRunId: string,
    intervention: Intervention,
    baselineVerdict: OracleResult,
    comparisonVerdict: OracleResult,
    events: AlignResult,
    divergence: Option<FirstDivergence>,
    baselineEffects: EffectSummary,
    comparisonEffects: EffectSummary,
    delta: EffectSummary)
  {
    predicate EffectsConsistent() {
      && SummaryValid(baselineEffects) && SummaryValid(comparisonEffects)
      && baselineVerdict.effects == baselineEffects && comparisonVerdict.effects == comparisonEffects
      && delta == Difference(baselineEffects, comparisonEffects)
    }

    predicate EventsValid() {
      && (forall id | id in events.added :: !Blank(id))
      && (forall id | id in events.removed :: !Blank(id))
      && (forall m | m in events.matched :: m.0 != "" && m.1 != "")
      && (forall ch | ch in events.changed ::
            ch.baselineId != "" && ch.comparisonId != "" && ch.field != "" && ch.baselineValue != ch.comparisonValue)
    }

    predicate DivergenceValid() {
      divergence.Some? ==>
        && (divergence.value.baselineId != "" || divergence.value.comparisonId != "")
        && divergence.value.rule != "" && divergence.value.baselineValue != divergence.value.comparisonValue
    }

    /** `ReplayDiff.Validate`. */
    predicate Valid() {
      && diffId != "" && baselineRunId != "" && comparisonRunId != "" && baselineRunId != comparisonRunId
      && intervention.Valid() && VerdictValid(baselineVerdict) && VerdictValid(comparisonVerdict)
      && EffectsConsistent() && EventsValid() && DivergenceValid()
    }
  }

  /** Stored diffs are valid and filed under their id. */
  ghost predicate Filed(diffs: map<string, ReplayDiff>) {
    forall id | id in diffs :: diffs[id].diffId == id && diffs[id].Valid()
  }

  function Difference(baseline: EffectSummary, comparison: EffectSummary): EffectSummary {
    EffectSummary(comparison.paymentAttempts - baseline.paymentAttempts, comparison.ledgerCommits - baseline.ledgerCommits)
  }

  /** Baseline plus delta is comparison. */
  predicate DeltaAdds(d: ReplayDiff) {
    && d.baselineEffects.paymentAttempts + d.delta.paymentAttempts == d.comparisonEffects.paymentAttempts
    && d.baselineEffects.ledgerCommits + d.delta.ledgerCommits == d.comparisonEffects.ledgerCommits
  }

  lemma ValidDelta(d: ReplayDiff)
    requires d.Valid()
    ensures DeltaAdds(d)
  {
  }

  /** What the database version of `PutDiff` rechecks on the two stored runs. */
  predicate Gate(s: Runs, d: ReplayDiff) {
    && d.baselineRunId in s.runs && d.comparisonRunId in s.runs
    && var b, c := s.runs[d.baselineRunId], s.runs[d.comparisonRunId];
       && b.status == RunCompleted && b.runType == Baseline && b.outcome == Some(Reproduced) && b.intervention.None?
       && c.status == RunCompleted && c.runType == WhatIf && c.baselineRunId == b.runId && c.capsuleHash == b.capsuleHash
       && c.intervention == Some(d.intervention)
  }
}
