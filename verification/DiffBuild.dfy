/** Assembling a replay diff from two stored runs. */
module DiffBuild {
  import opened Basics
  import opened Contracts
  import opened Emission
  import opened Ordering
  import opened RunTimeline
  import opened Oracle
  import opened ReplayContract
  import opened RunStore
  import opened Alignment
  import opened Divergence
  import opened Diffs
  import AlignmentLaws
  import Incidents
  import Stores
  import WorkerProtocol

  datatype BuildError = Prerequisite | RunMissing | TimelineFailed(cause: GraphError) | DiffRefused

  /** `verifyPrerequisites`. */
  predicate Comparable(b: Run, c: Run) {
    && b.status == RunCompleted && b.outcome == Some(Reproduced)
    && c.status == RunCompleted && c.runType == WhatIf
    && c.baselineRunId == b.runId && c.capsuleHash == b.capsuleHash && c.intervention.Some?
  }

  ghost function EventsOfRun(events: map<string, Event>, runId: string): set<Event> {
    Selected(events, Incidents.OfRun(runId))
  }

  /** `t` is a timeline of the run's own events. */
  ghost predicate TimelineOf(events: map<string, Event>, runId: string, t: seq<Event>) {
    Timeline(Possible(), EventsOfRun(events, runId), ParentArcs(EventsOfRun(events, runId)), t)
  }

  /** No id that `nonemptyStrings` would refuse. */
  predicate Tidy(events: seq<Event>) {
    forall e | e in events :: !Blank(e.eventId)
  }

  // ----- an alignment makes a valid diff -----

  lemma {:induction false} ChangesValid(b: seq<Event>, c: seq<Event>, pairs: seq<(nat, nat)>)
    requires forall x | 0 <= x < |pairs| :: pairs[x].0 < |b| && pairs[x].1 < |c|
    requires AllValid(b) && AllValid(c)
    ensures forall ch | ch in ChangesOf(b, c, pairs) ::
              ch.baselineId != "" && ch.comparisonId != "" && ch.field != "" && ch.baselineValue != ch.comparisonValue
    decreases |pairs|
  {
    if |pairs| > 0 {
      ChangesValid(b, c, pairs[..|pairs| - 1]);
      var (i, j) := pairs[|pairs| - 1];
      assert b[i] in b && c[j] in c;
    }
  }

  lemma MatchedValid(b: seq<Event>, c: seq<Event>, pairs: seq<(nat, nat)>)
    requires forall x | 0 <= x < |pairs| :: pairs[x].0 < |b| && pairs[x].1 < |c|
    requires AllValid(b) && AllValid(c)
    ensures forall m | m in PairIds(b, c, pairs) :: m.0 != "" && m.1 != ""
  {
    forall m | m in PairIds(b, c, pairs) ensures m.0 != "" && m.1 != "" {
      var x :| 0 <= x < |pairs| && PairIds(b, c, pairs)[x] == m;
      assert b[pairs[x].0] in b && c[pairs[x].1] in c;
    }
  }

  lemma TidyIds(s: seq<Event>, at: seq<nat>)
    requires Tidy(s) && forall x | 0 <= x < |at| :: at[x] < |s|
    ensures forall id | id in IdsAt(s, at) :: !Blank(id)
  {
    forall id | id in IdsAt(s, at) ensures !Blank(id) {
      var x :| 0 <= x < |at| && IdsAt(s, at)[x] == id;
      assert s[at[x]] in s;
    }
  }

  ghost predicate NoBlankIds(r: AlignResult) {
    (forall id | id in r.added :: !Blank(id)) && forall id | id in r.removed :: !Blank(id)
  }

  ghost predicate ChangesProper(r: AlignResult) {
    forall ch | ch in r.changed ::
      ch.baselineId != "" && ch.comparisonId != "" && ch.field != "" && ch.baselineValue != ch.comparisonValue
  }

  lemma AlignmentValid(b: seq<Event>, c: seq<Event>, r: AlignResult)
    requires AllValid(b) && AllValid(c) && AlignedAs(b, c, r)
    ensures ChangesProper(r) && forall m | m in r.matched :: m.0 != "" && m.1 != ""
    ensures Tidy(b) && Tidy(c) ==> NoBlankIds(r)
  {
    var pairs, lost, gained :| Aligned(b, c, r, pairs, lost, gained);
    ChangesValid(b, c, pairs);
    MatchedValid(b, c, pairs);
    if Tidy(b) && Tidy(c) {
      TidyIds(b, lost);
      TidyIds(c, gained);
    }
  }

  lemma AlignmentOnce(b: seq<Event>, c: seq<Event>, r: AlignResult, r': AlignResult)
    requires AlignedAs(b, c, r) && AlignedAs(b, c, r')
    ensures r == r'
  {
    var pairs, lost, gained :| Aligned(b, c, r, pairs, lost, gained);
    var pairs', lost', gained' :| Aligned(b, c, r', pairs', lost', gained');
    AlignmentLaws.AlignmentDetermined(b, c, r, pairs, lost, gained, r', pairs', lost', gained');
  }

  ghost predicate Reportable(d: Option<FirstDivergence>) {
    d.Some? ==>
      && (d.value.baselineId != "" || d.value.comparisonId != "")
      && d.value.rule != "" && d.value.baselineValue != d.value.comparisonValue
  }

  /** Every divergence the rules derive satisfies the diff contract. */
  lemma DivergenceReportable(b: seq<Event>, c: seq<Event>, r: AlignResult, d: Option<FirstDivergence>)
    requires AllValid(b) && ChangesProper(r)
    requires LeastDivergence(b, c, r.changed, d) || MeaningfulDivergence(b, c, r, d)
    ensures Reportable(d)
  {
    if d.Some? {
      if LeastDivergence(b, c, r.changed, d) {
        var k :| LeastCandidate(b, c, r.changed, k) && d.value == Divergence.Report(k);
        assert k.change in r.changed;
      } else {
        assert StructuralDivergence(b, c, Elements(r.removed), d.value);
        assert b[d.value.baselineIndex] in b;
      }
    }
  }

  // ----- the System Pack's comparison -----

  ghost predicate Judged(events: seq<Event>, oracle: OracleResult) {
    exists op :: Chosen(events, op) && Judges(Group(events, op), oracle)
  }

  /** `EvaluateOutcome`. */
  method Judge(events: seq<Event>) returns (r: Option<OracleResult>)
    ensures r.Some? <==> events != []
    ensures r.Some? ==> Judged(events, r.value) && (Tidy(events) ==> VerdictValid(r.value))
  {
    var oracle, op := Evaluate(events);
    if oracle.Failure? {
      return None;
    }
    if Tidy(events) {
      TidyVerdict(events, op, oracle.value);
    }
    return Some(oracle.value);
  }

  lemma TidyVerdict(events: seq<Event>, op: string, oracle: OracleResult)
    requires Tidy(events) && Judges(Group(events, op), oracle)
    ensures VerdictValid(oracle)
  {
    EvidenceCited(Group(events, op), oracle);
    forall id | id in oracle.evidence ensures !Blank(id) {
      var e :| e in Group(events, op) && e.eventId == id;
      assert e in events;
    }
  }

  /** What the System Pack compares: streams that are not empty and, for its diff to be
      accepted, two proper runs and no blank ids. */
  predicate Presentable(diffId: string, b: Run, bt: seq<Event>, c: Run, ct: seq<Event>) {
    && bt != [] && ct != [] && Tidy(bt) && Tidy(ct)
    && diffId != "" && b.runId != "" && c.runId != "" && b.runId != c.runId
    && c.intervention.Some? && c.intervention.value.Valid()
  }

  /** The System Pack's `Compare`, which judges both streams anew. It fails when a
      stream is empty or the diff it assembles is refused. */
  method Compare(diffId: string, b: Run, bt: seq<Event>, c: Run, ct: seq<Event>) returns (r: Option<ReplayDiff>)
    requires AllValid(bt) && AllValid(ct)
    ensures r.Some? ==> r.value.Valid() && Judged(bt, r.value.baselineVerdict) && Judged(ct, r.value.comparisonVerdict)
    ensures r.Some? ==> DeltaAdds(r.value)
    ensures r.Some? ==> AlignedAs(bt, ct, r.value.events) && MeaningfulDivergence(bt, ct, r.value.events, r.value.divergence)
    ensures r.Some? ==>
              && r.value.diffId == diffId && r.value.baselineRunId == b.runId && r.value.comparisonRunId == c.runId
              && c.intervention == Some(r.value.intervention)
    ensures Presentable(diffId, b, bt, c, ct) ==> r.Some?
  {
    var aligned, pairs, lost, gained := Align(bt, ct);
    var baseline := Judge(bt);
    if baseline.None? {
      return None;
    }
    var comparison := Judge(ct);
    if comparison.None? {
      return None;
    }
    var intervention := if c.intervention.Some? then c.intervention.value else Intervention(0, 0);
    var divergence := FirstMeaningfulDivergence(bt, ct, aligned);
    var diff := ReplayDiff(diffId, b.runId, c.runId, intervention, baseline.value, comparison.value, aligned, divergence,
                           baseline.value.effects, comparison.value.effects,
                           Difference(baseline.value.effects, comparison.value.effects));
    ComparisonValid(diffId, b, bt, c, ct, diff);
    r := if diff.Valid() then Some(diff) else None;
  }

  lemma ComparisonValid(diffId: string, b: Run, bt: seq<Event>, c: Run, ct: seq<Event>, d: ReplayDiff)
    requires AllValid(bt) && AllValid(ct) && AlignedAs(bt, ct, d.events)
    requires MeaningfulDivergence(bt, ct, d.events, d.divergence)
    requires d.diffId == diffId && d.baselineRunId == b.runId && d.comparisonRunId == c.runId
    requires d.baselineEffects == d.baselineVerdict.effects && d.comparisonEffects == d.comparisonVerdict.effects
    requires d.delta == Difference(d.baselineEffects, d.comparisonEffects)
    requires c.intervention.Some? ==> d.intervention == c.intervention.value
    requires Tidy(bt) ==> VerdictValid(d.baselineVerdict)
    requires Tidy(ct) ==> VerdictValid(d.comparisonVerdict)
    ensures Presentable(diffId, b, bt, c, ct) ==> d.Valid()
  {
    AlignmentValid(bt, ct, d.events);
    DivergenceReportable(bt, ct, d.events, d.divergence);
  }

  // ----- the generic builder -----

  /** The reported divergence: none for an inconclusive comparison, otherwise
      the meaningful one; where the field-level rule finds nothing and the
      System Pack's comparison fails, none. */
  ghost predicate DivergenceOf(c: Run, bt: seq<Event>, ct: seq<Event>, r: AlignResult, d: Option<FirstDivergence>) {
    if c.outcome == Some(Inconclusive) then d.None?
    else MeaningfulDivergence(bt, ct, r, d) || (d.None? && !(bt != [] && ct != [] && Tidy(bt) && Tidy(ct)))
  }

  /** The diff of two runs: identities, verdicts and effects from the stored
      records, events from the alignment of the timelines. */
  ghost predicate Assembled(diffId: string, b: Run, bt: seq<Event>, c: Run, ct: seq<Event>, d: ReplayDiff) {
    && d.diffId == diffId && d.baselineRunId == b.runId && d.comparisonRunId == c.runId
    && Some(d.intervention) == c.intervention
    && Some(d.baselineVerdict) == b.verdict && Some(d.comparisonVerdict) == c.verdict
    && Some(d.baselineEffects) == b.effects && Some(d.comparisonEffects) == c.effects
    && d.delta == Difference(d.baselineEffects, d.comparisonEffects)
    && AlignedAs(bt, ct, d.events)
    && DivergenceOf(c, bt, ct, d.events, d.divergence)
  }

  /** An assembled diff satisfies its contract exactly when both stored effect
      summaries agree with the stored verdicts and no added or removed id is
      blank. */
  lemma AssembledValid(diffId: string, b: Run, bt: seq<Event>, c: Run, ct: seq<Event>, d: ReplayDiff)
    requires b.Valid() && c.Valid() && Comparable(b, c) && b.runId != c.runId && diffId != ""
    requires AllValid(bt) && AllValid(ct) && Assembled(diffId, b, bt, c, ct, d)
    ensures d.Valid() <==> EffectsMatch(b) && EffectsMatch(c) && NoBlankIds(d.events)
  {
    AlignmentValid(bt, ct, d.events);
    if MeaningfulDivergence(bt, ct, d.events, d.divergence) {
      DivergenceReportable(bt, ct, d.events, d.divergence);
    }
  }

  /** The divergence step: the field-level rule, then the System Pack's comparison. */
  method Diverge(diffId: string, b: Run, bt: seq<Event>, c: Run, ct: seq<Event>, aligned: AlignResult)
    returns (d: Option<FirstDivergence>)
    requires b.Valid() && c.Valid() && Comparable(b, c) && b.runId != c.runId && diffId != ""
    requires AllValid(bt) && AllValid(ct) && AlignedAs(bt, ct, aligned)
    ensures DivergenceOf(c, bt, ct, aligned, d)
  {
    d := None;
    if c.outcome != Some(Inconclusive) {
      d := FirstDivergenceFrom(bt, ct, aligned.changed);
      if d.None? {
        var full := Compare(diffId, b, bt, c, ct);
        if full.Some? {
          AlignmentOnce(bt, ct, aligned, full.value.events);
          d := full.value.divergence;
        }
      }
    }
  }

  /** Reads and orders a run's events. */
  method LoadTimeline(store: Stores.Store, run: Run) returns (r: Result<seq<Event>, GraphError>)
    requires store.Valid() && run.runId != ""
    ensures r.Success? <==> ParentsSettled(EventsOfRun(store.events, run.runId))
    ensures r.Success? ==> TimelineOf(store.events, run.runId, r.value) && AllValid(r.value)
  {
    var raw := store.EventsForRun(run);
    Incidents.ReadsOk(store.Captured(), Incidents.OfRun(run.runId), raw);
    r := LoadOrderedEvents(run.runId, raw);
    if r.Success? {
      EmitsEnumerates(Possible(), Elements(raw), ParentArcs(Elements(raw)), r.value, {});
    }
  }

  /** What `Build` needs of the stored runs and events. */
  ghost predicate Buildable(s: Runs, events: map<string, Event>, diffId: string, baselineId: string, comparisonId: string) {
    && diffId != "" && baselineId != "" && comparisonId != "" && baselineId != comparisonId
    && baselineId in s.runs && comparisonId in s.runs
    && var b, c := s.runs[baselineId], s.runs[comparisonId];
       && b.runType == Baseline && Comparable(b, c)
       && ParentsSettled(EventsOfRun(events, baselineId)) && ParentsSettled(EventsOfRun(events, comparisonId))
  }

  ghost predicate TidyIdsIn(events: set<Event>) {
    forall e | e in events :: !Blank(e.eventId)
  }

  /** `Build`. The stored verdicts and the intervention it dereferences are there
      because stored runs are valid. */
  method Build(store: Stores.Store, diffId: string, baselineId: string, comparisonId: string)
    returns (r: Result<ReplayDiff, BuildError>, ghost bt: seq<Event>, ghost ct: seq<Event>)
    requires store.Valid()
    ensures (r.Success? || r == Failure(DiffRefused)) <==>
            Buildable(store.Replays(), store.events, diffId, baselineId, comparisonId)
    ensures r.Success? ==>
              && TimelineOf(store.events, baselineId, bt) && TimelineOf(store.events, comparisonId, ct)
              && Assembled(diffId, store.runs[baselineId], bt, store.runs[comparisonId], ct, r.value)
              && r.value.Valid() && DeltaAdds(r.value) && Gate(store.Replays(), r.value)
              && var outcome := store.runs[comparisonId].outcome;
                 && (outcome == Some(Inconclusive) ==> r.value.divergence.None?)
                 && (outcome != Some(Inconclusive) && bt != [] && ct != [] && Tidy(bt) && Tidy(ct) ==>
                       MeaningfulDivergence(bt, ct, r.value.events, r.value.divergence))
    ensures r == Failure(DiffRefused) ==>
              || !EffectsMatch(store.runs[baselineId]) || !EffectsMatch(store.runs[comparisonId])
              || !TidyIdsIn(EventsOfRun(store.events, baselineId)) || !TidyIdsIn(EventsOfRun(store.events, comparisonId))
  {
    bt, ct := [], [];
    if diffId == "" || baselineId == "" || comparisonId == "" || baselineId == comparisonId {
      return Failure(Prerequisite), bt, ct;
    }
    var baseline := store.GetRun(baselineId);
    if baseline.Failure? {
      return Failure(RunMissing), bt, ct;
    }
    var comparison := store.GetRun(comparisonId);
    if comparison.Failure? {
      return Failure(RunMissing), bt, ct;
    }
    var b, c := baseline.value, comparison.value;
    if b.runType != Baseline || !Comparable(b, c) {
      return Failure(Prerequisite), bt, ct;
    }
    var baselineEvents := LoadTimeline(store, b);
    if baselineEvents.Failure? {
      return Failure(TimelineFailed(baselineEvents.error)), bt, ct;
    }
    var comparisonEvents := LoadTimeline(store, c);
    if comparisonEvents.Failure? {
      return Failure(TimelineFailed(comparisonEvents.error)), bt, ct;
    }
    bt, ct := baselineEvents.value, comparisonEvents.value;
    var diff := Assemble(diffId, b, baselineEvents.value, c, comparisonEvents.value);
    AssembledValid(diffId, b, bt, c, ct, diff);
    TimelineTidy(store.events, baselineId, bt);
    TimelineTidy(store.events, comparisonId, ct);
    AlignmentValid(bt, ct, diff.events);
    if !diff.Valid() {
      return Failure(DiffRefused), bt, ct;
    }
    return Success(diff), bt, ct;
  }

  method Assemble(diffId: string, b: Run, bt: seq<Event>, c: Run, ct: seq<Event>) returns (diff: ReplayDiff)
    requires b.Valid() && c.Valid() && Comparable(b, c) && b.runId != c.runId && diffId != ""
    requires AllValid(bt) && AllValid(ct)
    ensures Assembled(diffId, b, bt, c, ct, diff)
  {
    var aligned, pairs, lost, gained := Align(bt, ct);
    var baselineEffects := if b.effects.Some? then b.effects.value else EffectSummary(0, 0);
    var comparisonEffects := if c.effects.Some? then c.effects.value else EffectSummary(0, 0);
    var divergence := Diverge(diffId, b, bt, c, ct, aligned);
    diff := ReplayDiff(diffId, b.runId, c.runId, c.intervention.value, b.verdict.value, c.verdict.value, aligned, divergence,
                       baselineEffects, comparisonEffects, Difference(baselineEffects, comparisonEffects));
  }

  lemma TimelineTidy(events: map<string, Event>, runId: string, t: seq<Event>)
    requires TimelineOf(events, runId, t)
    ensures TidyIdsIn(EventsOfRun(events, runId)) <==> Tidy(t)
  {
    EmitsEnumerates(Possible(), EventsOfRun(events, runId), ParentArcs(EventsOfRun(events, runId)), t, {});
    assert forall e :: e in t <==> e in EventsOfRun(events, runId);
  }

  /** The database's gate and the builder's prerequisites are one condition on
      stored runs. */
  lemma GateIsPrerequisite(s: Runs, d: ReplayDiff)
    requires StoreInv(s)
    ensures Gate(s, d) <==>
            && d.baselineRunId in s.runs && d.comparisonRunId in s.runs
            && s.runs[d.baselineRunId].runType == Baseline
            && Comparable(s.runs[d.baselineRunId], s.runs[d.comparisonRunId])
            && s.runs[d.comparisonRunId].intervention == Some(d.intervention)
  {
  }

  /** COMPLETED runs are frozen, so a diff that passed the gate once passes it at
      any later time. */
  lemma GateStays(s: Runs, d: ReplayDiff, t: Runs)
    requires Gate(s, d) && Evolves(s, t)
    ensures Gate(t, d)
  {
    assert Advances(s.runs[d.baselineRunId], t.runs[d.baselineRunId]);
    assert Advances(s.runs[d.comparisonRunId], t.runs[d.comparisonRunId]);
  }

  /** Among runs that workers brought to their end, whatever else happened, only a
      blank id can make an assembled diff invalid. */
  lemma ReachableAssembledValid(actions: seq<WorkerProtocol.Action>, diffId: string, b: Run, bt: seq<Event>, c: Run,
                                ct: seq<Event>, d: ReplayDiff)
    requires var runs := WorkerProtocol.Run(actions).store.runs;
             b.runId in runs && runs[b.runId] == b && c.runId in runs && runs[c.runId] == c
    requires Comparable(b, c) && b.runId != c.runId && diffId != ""
    requires AllValid(bt) && AllValid(ct) && Assembled(diffId, b, bt, c, ct, d)
    ensures d.Valid() <==> NoBlankIds(d.events)
  {
    WorkerProtocol.ReachableStore(actions);
    WorkerProtocol.ReachableMatches(actions, b.runId);
    WorkerProtocol.ReachableMatches(actions, c.runId);
    AssembledValid(diffId, b, bt, c, ct, d);
  }
}
