/** The duplicate-effect failure oracle of the checkout pack. */
module Oracle {
  import opened Basics
  import opened Contracts
  import opened Emission

  const ORACLE_ID := "duplicate_ledger_effect"
  const ORACLE_VERSION := "1.0.0"

  datatype EffectSummary = EffectSummary(paymentAttempts: int, ledgerCommits: int)

  datatype OracleResult = OracleResult(
    oracleId: string,
    oracleVersion: string,
    matched: bool,
    effects: EffectSummary,
    evidence: seq<string>,
    explanation: string)

  datatype OracleError = NoEvidence

  // ----- what the oracle looks for -----

  function OfOperation(id: string): Event -> bool {
    (e: Event) => e.logicalOp == id
  }

  function IsCommitted(): Event -> bool {
    (e: Event) => e.Committed()
  }

  /** The events of one logical operation, in order. */
  function Group(events: seq<Event>, id: string): seq<Event> {
    Filter(OfOperation(id), events)
  }

  function LogicalIds(events: seq<Event>): set<string> {
    set e | e in events :: e.logicalOp
  }

  ghost predicate Has(events: seq<Event>, t: EventType) {
    exists e :: e in events && e.eventType == t
  }

  /** The committed ledger effects, in order. */
  function Commits(events: seq<Event>): seq<Event> {
    Filter(IsCommitted(), events)
  }

  /** The attempts for which a dependency call was started. */
  function Attempts(events: seq<Event>): set<int> {
    set e | e in events && e.eventType == Start && e.kind == Dependency :: e.attempt
  }

  /** A timeout, a retry, a second attempt, and two committed effects. */
  ghost predicate Duplicated(group: seq<Event>) {
    && Has(group, Timeout)
    && Has(group, Retry)
    && (exists e :: e in group && e.attempt >= 2)
    && |Commits(group)| >= 2
  }

  ghost predicate Matches(events: seq<Event>, id: string) {
    Duplicated(Group(events, id))
  }

  ghost function Matching(events: seq<Event>): set<string> {
    set id | id in LogicalIds(events) && Matches(events, id)
  }

  ghost predicate LeastOf(ids: set<string>, id: string) {
    id in ids && forall m | m in ids :: !StrLess(m, id)
  }

  /** The operation under judgement: the least matching one, or the least of
      all when none matches. */
  ghost predicate Chosen(events: seq<Event>, id: string) {
    LeastOf(if Matching(events) != {} then Matching(events) else LogicalIds(events), id)
  }

  /** Component-local sequence, then event id. */
  predicate SequenceLess(a: Event, b: Event) {
    if a.sequence != b.sequence then a.sequence < b.sequence else StrLess(a.eventId, b.eventId)
  }

  /** The id of the first event of a type, empty ids passed over. */
  function FirstId(t: EventType, events: seq<Event>): string {
    if |events| == 0 then "" else
    var first, last := FirstId(t, events[..|events| - 1]), events[|events| - 1];
    if last.eventType == t && first == "" then last.eventId else first
  }

  /** A verdict on one operation's events. */
  ghost predicate Judges(group: seq<Event>, r: OracleResult) {
    && r.oracleId == ORACLE_ID && r.oracleVersion == ORACLE_VERSION && !Blank(r.explanation)
    && (r.matched <==> Duplicated(group))
    && r.effects == EffectSummary(|Attempts(group)|, |Commits(group)|)
    && r.evidence == if r.matched
                     then [FirstId(Timeout, group), FirstId(Retry, group)] + Ids(Sort(SequenceLess, Commits(group)))
                     else Ids(Sort(SequenceLess, group))
  }

  // ----- the mutually recursive evaluation -----

  /** What the loop over a group has gathered. */
  datatype Findings = Findings(hasTimeout: bool, hasRetry: bool, maxAttempt: int, timeoutId: string, retryId: string,
                               attempts: set<int>, commits: seq<Event>)

  function Gather(f: Findings, e: Event): Findings {
    Findings(f.hasTimeout || e.eventType == Timeout,
             f.hasRetry || e.eventType == Retry,
             if e.attempt > f.maxAttempt then e.attempt else f.maxAttempt,
             if e.eventType == Timeout && f.timeoutId == "" then e.eventId else f.timeoutId,
             if e.eventType == Retry && f.retryId == "" then e.eventId else f.retryId,
             if e.eventType == Start && e.kind == Dependency then f.attempts + {e.attempt} else f.attempts,
             if e.Committed() then f.commits + [e] else f.commits)
  }

  function Gathered(group: seq<Event>): Findings {
    if |group| == 0 then Findings(false, false, 0, "", "", {}, [])
    else Gather(Gathered(group[..|group| - 1]), group[|group| - 1])
  }

  /** The loop over the group: flags, counters and collected effects. */
  method ScanGroup(group: seq<Event>)
    returns (hasTimeout: bool, hasRetry: bool, maxAttempt: int, timeoutId: string, retryId: string,
             attempts: set<int>, commits: seq<Event>)
    ensures hasTimeout <==> Has(group, Timeout)
    ensures hasRetry <==> Has(group, Retry)
    ensures maxAttempt >= 2 <==> exists e :: e in group && e.attempt >= 2
    ensures timeoutId == FirstId(Timeout, group) && retryId == FirstId(Retry, group)
    ensures attempts == Attempts(group) && commits == Commits(group)
  {
    hasTimeout, hasRetry, maxAttempt, timeoutId, retryId, attempts, commits := false, false, 0, "", "", {}, [];
    for i := 0 to |group|
      invariant Gathered(group[..i]) == Findings(hasTimeout, hasRetry, maxAttempt, timeoutId, retryId, attempts, commits)
    {
      var e := group[i];
      assert group[..i + 1][..i] == group[..i];
      if e.attempt > maxAttempt {
        maxAttempt := e.attempt;
      }
      match e.eventType {
        case Timeout =>
          hasTimeout := true;
          if timeoutId == "" {
            timeoutId := e.eventId;
          }
        case Retry =>
          hasRetry := true;
          if retryId == "" {
            retryId := e.eventId;
          }
        case Start =>
          if e.kind == Dependency {
            attempts := attempts + {e.attempt};
          }
        case Effect =>
          if e.effectCommitted == Some(true) {
            commits := commits + [e];
          }
        case _ =>
      }
    }
    assert group[..|group|] == group;
    GatheredFlags(group);
    GatheredRest(group);
  }

  lemma {:induction false} GatheredFlags(group: seq<Event>)
    ensures Gathered(group).hasTimeout <==> Has(group, Timeout)
    ensures Gathered(group).hasRetry <==> Has(group, Retry)
    ensures Gathered(group).maxAttempt >= 2 <==> exists e :: e in group && e.attempt >= 2
    decreases |group|
  {
    if |group| > 0 {
      var init, e := group[..|group| - 1], group[|group| - 1];
      GatheredFlags(init);
      assert forall x :: x in group <==> x in init || x == e;
    }
  }

  lemma {:induction false} GatheredRest(group: seq<Event>)
    ensures Gathered(group).timeoutId == FirstId(Timeout, group) && Gathered(group).retryId == FirstId(Retry, group)
    ensures Gathered(group).attempts == Attempts(group) && Gathered(group).commits == Commits(group)
    decreases |group|
  {
    if |group| > 0 {
      var init, e := group[..|group| - 1], group[|group| - 1];
      GatheredRest(init);
      assert group == init + [e];
      AttemptsStep(init, e);
      CommitsStep(init, e);
    }
  }

  lemma AttemptsStep(group: seq<Event>, e: Event)
    ensures Attempts(group + [e]) ==
            Attempts(group) + (if e.eventType == Start && e.kind == Dependency then {e.attempt} else {})
  {
    assert forall x :: x in group + [e] <==> x in group || x == e;
  }

  lemma CommitsStep(group: seq<Event>, e: Event)
    ensures Commits(group + [e]) == Commits(group) + (if e.Committed() then [e] else [])
  {
    FilterSnoc(IsCommitted(), group, e);
  }

  function Explain(hasTimeout: bool, hasRetry: bool, maxAttempt: int, commits: nat): string {
    if !hasTimeout then "no checkout timeout event was observed"
    else if !hasRetry then "no retry event was observed"
    else if maxAttempt < 2 then "no attempt >= 2 was observed"
    else if commits < 2 then "fewer than two committed ledger effects were observed"
    else "oracle evidence incomplete"
  }

  function Report(id: string, commits: nat): (text: string)
    ensures !Blank(text)
  {
    var text := "One logical checkout (" + id + ") produced " + Decimal(commits) +
                " committed ledger effects after a timeout-driven retry.";
    assert text[0] == 'O' && text[0] in text;
    text
  }

  function Mismatch(id: string, reason: string): (text: string)
    ensures !Blank(text)
  {
    var text := id + ": " + reason;
    assert text[|id|] == ':' && text[|id|] in text;
    text
  }

  /** `evaluate`, calling `selectLogicalOperationID`, which calls back through
      `quickMatches` on a single operation's events. */
  method Evaluate(events: seq<Event>) returns (r: Result<OracleResult, OracleError>, ghost chosen: string)
    ensures r.Failure? <==> events == []
    ensures r.Success? ==> Chosen(events, chosen) && Judges(Group(events, chosen), r.value)
    decreases |LogicalIds(events)|, 1
  {
    chosen := "";
    if |events| == 0 {
      return Failure(NoEvidence), chosen;
    }
    var id := SelectLogicalOperation(events);
    chosen := id;
    var group := Group(events, id);
    var hasTimeout, hasRetry, maxAttempt, timeoutId, retryId, attempts, commits := ScanGroup(group);
    var sorted := Sort(SequenceLess, commits);
    var matched := hasTimeout && hasRetry && maxAttempt >= 2 && |commits| >= 2;
    var effects := EffectSummary(|attempts|, |commits|);
    if matched {
      var evidence := [timeoutId, retryId] + Ids(sorted);
      var text := Report(id, |commits|);
      r := Success(OracleResult(ORACLE_ID, ORACLE_VERSION, true, effects, evidence, text));
    } else {
      var evidence := Ids(Sort(SequenceLess, group));
      var text := Mismatch(id, Explain(hasTimeout, hasRetry, maxAttempt, |commits|));
      r := Success(OracleResult(ORACLE_ID, ORACLE_VERSION, false, effects, evidence, text));
    }
  }

  method SelectLogicalOperation(events: seq<Event>) returns (id: string)
    requires |events| > 0
    ensures Chosen(events, id)
    decreases |LogicalIds(events)|, 0, 1
  {
    var ids := CollectIds(events);
    assert events[0] in events;
    if |ids| == 1 {
      OnlyOperation(events, ids);
      return ids[0];
    }
    var sorted := Sort(StrLess, ids);
    SortedStrings(ids);
    Numerous(events, ids);
    var i := FirstMatching(events, sorted);
    if i < |sorted| {
      LeastInSorted(events, sorted, i);
      return sorted[i];
    }
    LeastOfAll(events, sorted);
    return sorted[0];
  }

  /** The loop over the sorted ids: the position of the first that matches, or
      the length when none does. */
  method FirstMatching(events: seq<Event>, sorted: seq<string>) returns (i: nat)
    requires |LogicalIds(events)| >= 2
    requires forall m | m in sorted :: m in LogicalIds(events)
    ensures i <= |sorted| && (i < |sorted| ==> Matches(events, sorted[i]))
    ensures forall j | 0 <= j < i :: !Matches(events, sorted[j])
    decreases |LogicalIds(events)|, 0, 0
  {
    for k := 0 to |sorted|
      invariant forall j | 0 <= j < k :: !Matches(events, sorted[j])
    {
      var group := Group(events, sorted[k]);
      assert sorted[k] in sorted;
      GroupAlone(events, sorted[k]);
      var quick := QuickMatches(group, sorted[k]);
      if quick {
        return k;
      }
    }
    return |sorted|;
  }

  method QuickMatches(group: seq<Event>, ghost id: string) returns (matched: bool)
    requires Group(group, id) == group && (group != [] ==> LogicalIds(group) == {id})
    ensures matched <==> Duplicated(group)
    decreases |LogicalIds(group)|, 2
  {
    var r, chosen := Evaluate(group);
    return r.Success? && r.value.matched;
  }

  /** The distinct operation ids, in order of first appearance. */
  method CollectIds(events: seq<Event>) returns (ids: seq<string>)
    ensures Enumerates(ids, LogicalIds(events))
  {
    var seen: set<string> := {};
    ids := [];
    for i := 0 to |events|
      invariant seen == LogicalIds(events[..i]) && Enumerates(ids, seen)
    {
      var id := events[i].logicalOp;
      assert events[..i + 1] == events[..i] + [events[i]];
      if id !in seen {
        EnumeratesSnoc(ids, seen, id);
        seen, ids := seen + {id}, ids + [id];
      }
    }
    assert events[..|events|] == events;
  }

  lemma Numerous(events: seq<Event>, ids: seq<string>)
    requires Enumerates(ids, LogicalIds(events)) && |ids| != 1 && |events| > 0
    ensures |ids| >= 2 && |LogicalIds(events)| >= 2
  {
    assert events[0].logicalOp in ids;
    assert ids[0] != ids[1];
    SubsetSize({ids[0], ids[1]}, LogicalIds(events));
  }

  lemma GroupAlone(events: seq<Event>, id: string)
    ensures Group(Group(events, id), id) == Group(events, id)
    ensures id in LogicalIds(events) ==> LogicalIds(Group(events, id)) == {id}
  {
    FilterAll(OfOperation(id), Group(events, id));
    if id in LogicalIds(events) {
      var e :| e in events && e.logicalOp == id;
      assert e in Group(events, id);
    }
  }

  lemma {:induction false} FilterAll<T(!new)>(p: T -> bool, s: seq<T>)
    requires forall x | x in s :: p(x)
    ensures Filter(p, s) == s
  {
    if |s| > 0 {
      FilterAll(p, s[1..]);
    }
  }

  lemma SortedStrings(ids: seq<string>)
    ensures SortedBy(StrLess, Sort(StrLess, ids))
  {
    forall x, y, z
      ensures StrLess(x, y) ==> !StrLess(y, x)
      ensures !StrLess(y, x) && !StrLess(z, y) ==> !StrLess(z, x)
    {
      StrLessTotal(x, y);
      StrLessNotBack(x, y, z);
    }
    SortSorted(StrLess, ids);
  }

  lemma OnlyOperation(events: seq<Event>, ids: seq<string>)
    requires Enumerates(ids, LogicalIds(events)) && |ids| == 1
    ensures Chosen(events, ids[0])
  {
    StrLessTotal(ids[0], ids[0]);
    assert ids[0] in ids;
    assert forall m | m in LogicalIds(events) :: m in ids;
  }

  lemma LeastOfAll(events: seq<Event>, sorted: seq<string>)
    requires |sorted| > 0 && SortedBy(StrLess, sorted)
    requires forall m :: m in sorted <==> m in LogicalIds(events)
    requires forall j | 0 <= j < |sorted| :: !Matches(events, sorted[j])
    ensures Chosen(events, sorted[0])
  {
    forall m | m in LogicalIds(events) ensures !Matches(events, m) {
      assert m in sorted;
    }
    assert Matching(events) == {};
    forall m | m in LogicalIds(events) ensures !StrLess(m, sorted[0]) {
      assert m in sorted;
      StrLessTotal(m, m);
    }
    assert sorted[0] in sorted;
  }

  lemma LeastInSorted(events: seq<Event>, sorted: seq<string>, i: nat)
    requires i < |sorted| && SortedBy(StrLess, sorted)
    requires forall m :: m in sorted <==> m in LogicalIds(events)
    requires forall j | 0 <= j < i :: !Matches(events, sorted[j])
    requires Matches(events, sorted[i])
    ensures Chosen(events, sorted[i])
  {
    assert sorted[i] in sorted;
    assert sorted[i] in Matching(events);
    forall m | m in Matching(events) ensures !StrLess(m, sorted[i]) {
      assert m in sorted;
      StrLessTotal(m, m);
    }
  }

  // ----- what the verdict means -----

  lemma ChosenUnique(events: seq<Event>, a: string, b: string)
    requires Chosen(events, a) && Chosen(events, b)
    ensures a == b
  {
    StrLessTotal(a, b);
  }

  /** The verdict is positive exactly when some logical operation shows a
      duplicate, whichever operation ends up judged. */
  lemma VerdictExact(events: seq<Event>, chosen: string, r: OracleResult)
    requires Chosen(events, chosen) && Judges(Group(events, chosen), r)
    ensures r.matched <==> exists id :: id in LogicalIds(events) && Matches(events, id)
  {
    if id :| id in LogicalIds(events) && Matches(events, id) {
      assert id in Matching(events);
    }
    if r.matched {
      assert Matches(events, chosen) && chosen in LogicalIds(events);
    }
  }

  lemma GroupMonotone(a: seq<Event>, b: seq<Event>, id: string)
    requires multiset(a) <= multiset(b)
    ensures multiset(Group(a, id)) <= multiset(Group(b, id))
    ensures Duplicated(Group(a, id)) ==> Duplicated(Group(b, id))
  {
    FilterMonotone(OfOperation(id), a, b);
    var ga, gb := Group(a, id), Group(b, id);
    FilterMonotone(IsCommitted(), ga, gb);
    forall e | e in ga ensures e in gb {
      assert e in multiset(ga);
    }
  }

  lemma IdsMonotone(a: seq<Event>, b: seq<Event>)
    requires multiset(a) <= multiset(b)
    ensures LogicalIds(a) <= LogicalIds(b)
  {
    forall e | e in a ensures e in b {
      assert e in multiset(a);
    }
  }

  lemma {:induction false} OneFound(p: Event -> bool, s: seq<Event>)
    ensures |Filter(p, s)| >= 1 <==> exists i :: 0 <= i < |s| && p(s[i])
    decreases |s|
  {
    if |s| > 0 {
      OneFound(p, s[1..]);
      if i :| 0 <= i < |s[1..]| && p(s[1..][i]) {
        assert p(s[i + 1]);
      }
      if i :| 0 < i < |s| && p(s[i]) {
        assert p(s[1..][i - 1]);
      }
    }
  }

  ghost predicate TwoIn(p: Event -> bool, s: seq<Event>) {
    exists i, j :: 0 <= i < j < |s| && p(s[i]) && p(s[j])
  }

  lemma TwoInTail(p: Event -> bool, s: seq<Event>)
    requires |s| > 0
    ensures TwoIn(p, s) <==> TwoIn(p, s[1..]) || (p(s[0]) && exists i :: 0 <= i < |s[1..]| && p(s[1..][i]))
  {
    var t := s[1..];
    if i, j :| 0 <= i < j < |s| && p(s[i]) && p(s[j]) {
      assert t[j - 1] == s[j];
      if i > 0 {
        assert t[i - 1] == s[i];
      }
    }
    if i, j :| 0 <= i < j < |t| && p(t[i]) && p(t[j]) {
      assert s[i + 1] == t[i] && s[j + 1] == t[j];
    }
    if i :| 0 <= i < |t| && p(t[i]) {
      assert s[i + 1] == t[i];
    }
  }

  lemma {:induction false} TwoFound(p: Event -> bool, s: seq<Event>)
    ensures |Filter(p, s)| >= 2 <==> TwoIn(p, s)
    decreases |s|
  {
    if |s| > 0 {
      OneFound(p, s[1..]);
      TwoFound(p, s[1..]);
      TwoInTail(p, s);
    }
  }

  /** What of an operation's events the verdict looks for, on fields. */
  ghost predicate ShowsDuplicate(events: seq<Event>, op: string) {
    && (exists e :: e in events && e.logicalOp == op && e.eventType == Timeout)
    && (exists e :: e in events && e.logicalOp == op && e.eventType == Retry)
    && (exists e :: e in events && e.logicalOp == op && e.attempt >= 2)
    && TwoIn((e: Event) => CommittedFor(e, op), events)
  }

  predicate CommittedFor(e: Event, op: string) {
    e.logicalOp == op && e.eventType == Effect && e.effectCommitted == Some(true)
  }

  lemma {:induction false} CommitsOfGroup(events: seq<Event>, op: string)
    ensures Commits(Group(events, op)) == Filter((e: Event) => CommittedFor(e, op), events)
    decreases |events|
  {
    if |events| > 0 {
      CommitsOfGroup(events[1..], op);
      FilterAppend(IsCommitted(), if events[0].logicalOp == op then [events[0]] else [], Group(events[1..], op));
      assert [events[0]][1..] == [];
    }
  }

  /** The verdict is positive exactly when some operation shows a timeout, a retry,
      an attempt of at least 2 and two committed effects. */
  lemma VerdictOnFields(events: seq<Event>, chosen: string, r: OracleResult)
    requires Chosen(events, chosen) && Judges(Group(events, chosen), r)
    ensures r.matched <==> exists op :: ShowsDuplicate(events, op)
  {
    VerdictExact(events, chosen, r);
    forall op ensures (op in LogicalIds(events) && Matches(events, op)) <==> ShowsDuplicate(events, op) {
      MatchesOnFields(events, op);
    }
  }

  lemma MatchesOnFields(events: seq<Event>, op: string)
    ensures (op in LogicalIds(events) && Matches(events, op)) <==> ShowsDuplicate(events, op)
  {
    CommitsOfGroup(events, op);
    TwoFound((e: Event) => CommittedFor(e, op), events);
    assert forall e :: e in Group(events, op) <==> e in events && e.logicalOp == op;
  }

  /** The operation judged: of those that show a duplicate the one with the least
      name; of all when none does. */
  lemma ChosenOnFields(events: seq<Event>, chosen: string)
    requires Chosen(events, chosen)
    ensures exists e :: e in events && e.logicalOp == chosen
    ensures ShowsDuplicate(events, chosen) || forall op :: !ShowsDuplicate(events, op)
    ensures ShowsDuplicate(events, chosen) ==> forall op | ShowsDuplicate(events, op) :: !StrLess(op, chosen)
    ensures !ShowsDuplicate(events, chosen) ==> forall e | e in events :: !StrLess(e.logicalOp, chosen)
  {
    forall op ensures op in Matching(events) <==> ShowsDuplicate(events, op) {
      MatchesOnFields(events, op);
    }
    forall e | e in events ensures e.logicalOp in LogicalIds(events) {
    }
  }

  /** The counts: different attempts of started dependency calls, and committed
      effects. */
  lemma CountsOnFields(events: seq<Event>, op: string, r: OracleResult)
    requires Judges(Group(events, op), r)
    ensures r.effects.ledgerCommits == |Filter((e: Event) => CommittedFor(e, op), events)|
    ensures r.effects.paymentAttempts ==
            |set e | e in events && e.logicalOp == op && e.eventType == Start && e.kind == Dependency :: e.attempt|
  {
    CommitsOfGroup(events, op);
    assert Attempts(Group(events, op)) ==
           set e | e in events && e.logicalOp == op && e.eventType == Start && e.kind == Dependency :: e.attempt;
  }

  /** Ascending by sequence number, then by id. */
  predicate BySequence(events: seq<Event>) {
    forall i, j | 0 <= i < j < |events| ::
      || events[i].sequence < events[j].sequence
      || (events[i].sequence == events[j].sequence && !StrLess(events[j].eventId, events[i].eventId))
  }

  lemma SequenceSorted(events: seq<Event>)
    ensures BySequence(Sort(SequenceLess, events))
  {
    forall x: Event, y: Event, z: Event
      ensures SequenceLess(x, y) ==> !SequenceLess(y, x)
      ensures !SequenceLess(y, x) && !SequenceLess(z, y) ==> !SequenceLess(z, x)
    {
      StrLessTotal(x.eventId, y.eventId);
      StrLessNotBack(x.eventId, y.eventId, z.eventId);
    }
    SortSorted(SequenceLess, events);
  }

  /** The first event of a type. */
  ghost predicate FirstOfType(events: seq<Event>, t: EventType, id: string) {
    exists i :: 0 <= i < |events| && events[i].eventType == t && events[i].eventId == id &&
                forall j | 0 <= j < i :: events[j].eventType != t
  }

  lemma {:induction false} FirstIdExactly(t: EventType, events: seq<Event>)
    requires forall e | e in events :: e.eventId != ""
    ensures if Has(events, t) then FirstOfType(events, t, FirstId(t, events)) && FirstId(t, events) != ""
            else FirstId(t, events) == ""
    decreases |events|
  {
    if |events| > 0 {
      var init, last := events[..|events| - 1], events[|events| - 1];
      assert forall e :: e in events <==> e in init || e == last;
      FirstIdExactly(t, init);
      if Has(init, t) {
        var i :| 0 <= i < |init| && init[i].eventType == t && init[i].eventId == FirstId(t, init) &&
                 forall j | 0 <= j < i :: init[j].eventType != t;
        assert events[i] == init[i] && forall j | 0 <= j < i :: events[j] == init[j];
      } else if last.eventType == t {
        forall j | 0 <= j < |events| - 1 ensures events[j].eventType != t {
          assert events[j] in init;
        }
      }
    }
  }

  /** A positive verdict cites the first timeout, the first retry and then the
      committed effects by sequence number; a negative one all events so. */
  lemma EvidenceInOrder(group: seq<Event>, r: OracleResult)
    requires Judges(group, r) && forall e | e in group :: e.eventId != ""
    ensures r.matched ==>
              && |r.evidence| >= 2
              && FirstOfType(group, Timeout, r.evidence[0]) && FirstOfType(group, Retry, r.evidence[1])
              && exists effects :: BySequence(effects) && r.evidence[2..] == Ids(effects) &&
                   multiset(effects) == multiset(Filter((e: Event) => e.eventType == Effect && e.effectCommitted == Some(true), group))
    ensures !r.matched ==>
              exists all :: BySequence(all) && r.evidence == Ids(all) && multiset(all) == multiset(group)
    ensures r.oracleId == "duplicate_ledger_effect" && r.oracleVersion == "1.0.0"
  {
    if r.matched {
      FirstIdExactly(Timeout, group);
      FirstIdExactly(Retry, group);
      SequenceSorted(Commits(group));
      var effects := Sort(SequenceLess, Commits(group));
      assert r.evidence[2..] == Ids(effects);
      CommitsWritten(group);
    } else {
      SequenceSorted(group);
      assert r.evidence == Ids(Sort(SequenceLess, group));
    }
  }

  lemma {:induction false} CommitsWritten(group: seq<Event>)
    ensures Commits(group) == Filter((e: Event) => e.eventType == Effect && e.effectCommitted == Some(true), group)
    decreases |group|
  {
    if |group| > 0 {
      CommitsWritten(group[1..]);
    }
  }

  /** More evidence never withdraws a positive verdict. */
  lemma VerdictMonotone(a: seq<Event>, chosenA: string, ra: OracleResult, b: seq<Event>, chosenB: string, rb: OracleResult)
    requires multiset(a) <= multiset(b)
    requires Chosen(a, chosenA) && Judges(Group(a, chosenA), ra)
    requires Chosen(b, chosenB) && Judges(Group(b, chosenB), rb)
    ensures ra.matched ==> rb.matched
  {
    VerdictExact(a, chosenA, ra);
    VerdictExact(b, chosenB, rb);
    IdsMonotone(a, b);
    if id :| id in LogicalIds(a) && Matches(a, id) {
      GroupMonotone(a, b, id);
      assert Matches(b, id);
    }
  }

  lemma MatchingPermutation(a: seq<Event>, b: seq<Event>)
    requires multiset(a) == multiset(b)
    ensures LogicalIds(a) == LogicalIds(b) && Matching(a) == Matching(b)
  {
    IdsMonotone(a, b);
    IdsMonotone(b, a);
    forall id | id in LogicalIds(a) ensures Matches(a, id) <==> Matches(b, id) {
      GroupMonotone(a, b, id);
      GroupMonotone(b, a, id);
    }
  }

  /** The order of the evidence changes neither the operation judged, nor the
      verdict, nor the counts. */
  lemma VerdictPermutation(a: seq<Event>, chosenA: string, ra: OracleResult, b: seq<Event>, chosenB: string, rb: OracleResult)
    requires multiset(a) == multiset(b)
    requires Chosen(a, chosenA) && Judges(Group(a, chosenA), ra)
    requires Chosen(b, chosenB) && Judges(Group(b, chosenB), rb)
    ensures chosenA == chosenB && ra.matched == rb.matched && ra.effects == rb.effects
  {
    MatchingPermutation(a, b);
    ChosenUnique(a, chosenA, chosenB);
    GroupMonotone(a, b, chosenA);
    GroupMonotone(b, a, chosenA);
    CountsPermutation(Group(a, chosenA), Group(b, chosenA));
  }

  lemma CountsPermutation(a: seq<Event>, b: seq<Event>)
    requires multiset(a) == multiset(b)
    ensures |Attempts(a)| == |Attempts(b)| && |Commits(a)| == |Commits(b)|
    ensures Duplicated(a) <==> Duplicated(b)
  {
    FilterMonotone(IsCommitted(), a, b);
    FilterMonotone(IsCommitted(), b, a);
    forall e ensures e in a <==> e in b {
      assert e in a <==> e in multiset(a);
      assert e in b <==> e in multiset(b);
    }
    assert Attempts(a) == Attempts(b);
  }

  lemma {:induction false} FirstIdIsOne(t: EventType, events: seq<Event>)
    requires Has(events, t)
    ensures exists e :: e in events && e.eventType == t && FirstId(t, events) == e.eventId
    decreases |events|
  {
    var init, last := events[..|events| - 1], events[|events| - 1];
    assert events == init + [last];
    if Has(init, t) {
      FirstIdIsOne(t, init);
      var e :| e in init && e.eventType == t && FirstId(t, init) == e.eventId;
      assert e in events;
    } else {
      NoId(t, init);
      assert last in events;
    }
  }

  lemma {:induction false} NoId(t: EventType, events: seq<Event>)
    requires !Has(events, t)
    ensures FirstId(t, events) == ""
    decreases |events|
  {
    if |events| > 0 {
      var init, last := events[..|events| - 1], events[|events| - 1];
      assert events == init + [last];
      NoId(t, init);
    }
  }

  ghost predicate IsIdOf(events: seq<Event>, id: string) {
    exists e :: e in events && e.eventId == id
  }

  /** Every id the verdict cites belongs to the judged operation; a positive one
      cites a timeout, a retry and every committed effect, a negative one cites
      the whole group. */
  lemma EvidenceCited(group: seq<Event>, r: OracleResult)
    requires Judges(group, r)
    ensures forall id | id in r.evidence :: IsIdOf(group, id)
    ensures r.matched ==> |r.evidence| == 2 + r.effects.ledgerCommits
    ensures forall e | e in group && (r.matched ==> e.Committed()) :: e.eventId in r.evidence
  {
    if r.matched {
      FirstIdIsOne(Timeout, group);
      FirstIdIsOne(Retry, group);
    }
    var body := if r.matched then Sort(SequenceLess, Commits(group)) else Sort(SequenceLess, group);
    IdsOfMembers(body);
    forall id | id in r.evidence ensures IsIdOf(group, id) {
      if id in Ids(body) {
        var e :| e in body && e.eventId == id;
        assert e in group;
      }
    }
    forall e | e in group && (r.matched ==> e.Committed()) ensures e.eventId in r.evidence {
      assert e in body;
    }
  }

  lemma IdsOfMembers(events: seq<Event>)
    ensures forall id | id in Ids(events) :: IsIdOf(events, id)
    ensures forall e | e in events :: e.eventId in Ids(events)
  {
    forall id | id in Ids(events) ensures IsIdOf(events, id) {
      var i :| 0 <= i < |events| && Ids(events)[i] == id;
      assert events[i] in events;
    }
    forall e | e in events ensures e.eventId in Ids(events) {
      var i :| 0 <= i < |events| && events[i] == e;
      assert Ids(events)[i] == e.eventId;
    }
  }
}
