/** Both outcomes of the race happen, with valid events under distinct ids:
    schedules in which the timer fires, and in which it does not. */
module Schedules {
  import opened Basics
  import opened Ordering
  import opened CheckoutRace
  import opened Namespacing

  /** The state after further choices. */
  function Continue(cfg: Config, s: State, choices: seq<Action>): State
    decreases |choices|
  {
    if |choices| == 0 then s else Continue(cfg, Apply(cfg, s, choices[0]), choices[1..])
  }

  lemma {:induction false} RunContinues(cfg: Config, past: seq<Action>, more: seq<Action>)
    ensures Run(cfg, past + more) == Continue(cfg, Run(cfg, past), more)
    decreases |more|
  {
    if |more| == 0 {
      assert past + more == past;
    } else {
      var next := past + [more[0]];
      assert past + more == next + more[1..];
      assert next[..|past|] == past;
      RunContinues(cfg, next, more[1..]);
    }
  }

  lemma {:induction false} ContinueAppend(cfg: Config, s: State, a: seq<Action>, b: seq<Action>)
    ensures Continue(cfg, s, a + b) == Continue(cfg, Continue(cfg, s, a), b)
    decreases |a|
  {
    if |a| == 0 {
      assert a + b == b;
    } else {
      assert (a + b)[1..] == a[1..] + b;
      ContinueAppend(cfg, Apply(cfg, s, a[0]), a[1..], b);
    }
  }

  lemma ThreeSteps(cfg: Config, s: State, a: Action, b: Action, c: Action)
    ensures Continue(cfg, s, [a, b, c]) == Apply(cfg, Apply(cfg, Apply(cfg, s, a), b), c)
  {
    assert [a, b, c][1..] == [b, c] && [b, c][1..] == [c] && [c][1..] == [];
    assert Continue(cfg, Apply(cfg, s, a), [b, c]) == Continue(cfg, Apply(cfg, Apply(cfg, s, a), b), [c]);
  }

  function Go(timer: bool, stamp: Stamp): Action {
    MainAction(true, timer, stamp)
  }

  function First(stamp: Stamp): Action {
    FirstAction(true, stamp)
  }

  function Second(stamp: Stamp): Action {
    SecondAction(true, stamp)
  }

  // ----- stretches of a schedule -----

  /** Gateway and checkout start, the first attempt is launched. */
  lemma Opening(cfg: Config, t: Stamp) returns (h: seq<Action>)
    ensures var s := Run(cfg, h);
            s.main == AtSelect && s.outcomes == [] && s.first == Authorizing && s.second == Idle &&
            s.shared.channel == [] && !s.shared.firstEffect
  {
    h := [Go(true, t), Go(true, t), Go(true, t)];
    RunContinues(cfg, [], h);
    assert [] + h == h;
    ThreeSteps(cfg, Initial(), h[0], h[1], h[2]);
  }

  /** The first attempt runs through, in any state that leaves room to send. */
  lemma FirstAttempt(cfg: Config, s: State, t: Stamp) returns (h: seq<Action>)
    requires s.first == Authorizing && CanSend(cfg, s.shared)
    ensures var u := Continue(cfg, s, h);
            u.main == s.main && u.outcomes == s.outcomes && u.second == s.second && u.first.Sent? && u.first.ok &&
            u.shared.channel == s.shared.channel + [Outcome(1, true)]
  {
    var a, b := [First(t), First(t), First(t)], [First(t), First(t), First(t)];
    ThreeSteps(cfg, s, First(t), First(t), First(t));
    var u := Continue(cfg, s, a);
    assert u.first.Recording?;
    ThreeSteps(cfg, u, First(t), First(t), First(t));
    h := a + b;
    ContinueAppend(cfg, s, a, b);
  }

  lemma SecondAttempt(cfg: Config, s: State, t: Stamp) returns (h: seq<Action>)
    requires s.second == Authorizing && CanSend(cfg, s.shared)
    ensures var u := Continue(cfg, s, h);
            u.main == s.main && u.outcomes == s.outcomes && u.first == s.first && u.second.Sent? && u.second.ok &&
            u.shared.channel == s.shared.channel + [Outcome(2, true)]
  {
    var a, b := [Second(t), Second(t), Second(t)], [Second(t), Second(t), Second(t)];
    ThreeSteps(cfg, s, Second(t), Second(t), Second(t));
    var u := Continue(cfg, s, a);
    assert u.second.Recording?;
    ThreeSteps(cfg, u, Second(t), Second(t), Second(t));
    h := a + b;
    ContinueAppend(cfg, s, a, b);
  }

  /** With all results received the request completes. */
  lemma Closing(cfg: Config, s: State, t: Stamp) returns (h: seq<Action>)
    requires s.main.AtDrain? && |s.outcomes| == s.main.launched && AllOk(s.outcomes)
    ensures Continue(cfg, s, h).main == Done(s.main.timedOut, s.main.launched)
  {
    h := [Go(true, t), Go(true, t), Go(true, t)];
    ThreeSteps(cfg, s, Go(true, t), Go(true, t), Go(true, t));
  }

  lemma Extend(cfg: Config, past: seq<Action>, more: seq<Action>, s: State, t: State)
    requires Run(cfg, past) == s && Continue(cfg, s, more) == t
    ensures Run(cfg, past + more) == t
  {
    RunContinues(cfg, past, more);
  }

  /** The completion can win: one attempt, success. */
  lemma CompletionWins(cfg: Config, t: Stamp) returns (h: seq<Action>)
    requires cfg.maxAttempts >= 1
    ensures Run(cfg, h).main == Done(false, 1)
  {
    var opening := Opening(cfg, t);
    var s := Run(cfg, opening);
    var attempt := FirstAttempt(cfg, s, t);
    var u := Continue(cfg, s, attempt);
    Extend(cfg, opening, attempt, s, u);
    var v := Apply(cfg, u, Go(false, t));
    assert v.main == AtDrain(false, 1) && v.outcomes == [Outcome(1, true)];
    assert Continue(cfg, u, [Go(false, t)]) == Continue(cfg, v, []);
    Extend(cfg, opening + attempt, [Go(false, t)], u, v);
    var closing := Closing(cfg, v, t);
    h := opening + attempt + [Go(false, t)] + closing;
    Extend(cfg, opening + attempt + [Go(false, t)], closing, v, Continue(cfg, v, closing));
  }

  /** The timer can win: two attempts, success. */
  lemma TimerWins(cfg: Config, t: Stamp) returns (h: seq<Action>)
    requires cfg.maxAttempts >= 2
    ensures Run(cfg, h).main == Done(true, 2)
  {
    var opening := Opening(cfg, t);
    var s := Run(cfg, opening);
    var retry := [Go(true, t), Go(true, t), Go(true, t)];
    ThreeSteps(cfg, s, Go(true, t), Go(true, t), Go(true, t));
    var r := Continue(cfg, s, retry);
    assert r.main == AtRelaunch;
    Extend(cfg, opening, retry, s, r);
    var launched := Apply(cfg, r, Go(true, t));
    assert Continue(cfg, r, [Go(true, t)]) == Continue(cfg, launched, []);
    Extend(cfg, opening + retry, [Go(true, t)], r, launched);
    var first := FirstAttempt(cfg, launched, t);
    var u := Continue(cfg, launched, first);
    Extend(cfg, opening + retry + [Go(true, t)], first, launched, u);
    var second := SecondAttempt(cfg, u, t);
    var v := Continue(cfg, u, second);
    Extend(cfg, opening + retry + [Go(true, t)] + first, second, u, v);
    h := Drained(cfg, opening + retry + [Go(true, t)] + first + second, t);
  }

  lemma Drained(cfg: Config, past: seq<Action>, t: Stamp) returns (h: seq<Action>)
    requires var s := Run(cfg, past);
             s.main == AtDrain(true, 2) && s.outcomes == [] && s.shared.channel == [Outcome(1, true), Outcome(2, true)]
    ensures Run(cfg, h).main == Done(true, 2)
  {
    var s := Run(cfg, past);
    var drain := [Go(true, t), Go(true, t), Go(true, t)];
    ThreeSteps(cfg, s, Go(true, t), Go(true, t), Go(true, t));
    var u := Continue(cfg, s, drain);
    assert u.main == AtComplete(true, 2);
    Extend(cfg, past, drain, s, u);
    var last := Apply(cfg, u, Go(true, t));
    assert Continue(cfg, u, [Go(true, t)]) == Continue(cfg, last, []);
    Extend(cfg, past + drain, [Go(true, t)], u, last);
    var end := Apply(cfg, last, Go(true, t));
    assert Continue(cfg, last, [Go(true, t)]) == Continue(cfg, end, []);
    h := past + drain + [Go(true, t)] + [Go(true, t)];
    Extend(cfg, past + drain + [Go(true, t)], [Go(true, t)], last, end);
  }

  // ----- any schedule with distinct stamps -----

  /** The stamp of the n-th choice. */
  function StampAt(n: nat): Stamp {
    Stamp(GeneratedId("gateway", n), "instance-1", 1, n)
  }

  function WithStamp(action: Action, stamp: Stamp): Action {
    match action
    case MainAction(ok, timer, _) => MainAction(ok, timer, stamp)
    case FirstAction(ok, _) => FirstAction(ok, stamp)
    case SecondAction(ok, _) => SecondAction(ok, stamp)
  }

  /** The same choices, each with its own stamp. */
  function Restamped(choices: seq<Action>): (r: seq<Action>)
    ensures |r| == |choices| && forall i | 0 <= i < |r| :: r[i] == WithStamp(choices[i], StampAt(i))
  {
    seq(|choices|, i requires 0 <= i < |choices| => WithStamp(choices[i], StampAt(i)))
  }

  /** The states differ at most in what recorders and parents filled in. */
  ghost predicate Alike(s: State, t: State) {
    && s.main == t.main && s.outcomes == t.outcomes && s.first == t.first && s.second == t.second
    && s.shared.channel == t.shared.channel && s.shared.firstEffect == t.shared.firstEffect
    && s.shared.effects == t.shared.effects && Notes(s.shared.trace) == Notes(t.shared.trace)
  }

  lemma AppendAlike(a: Shared, b: Shared, p: Note, sa: Stamp, sb: Stamp)
    requires Notes(a.trace) == Notes(b.trace)
    ensures Notes(Append(a, p, sa).trace) == Notes(Append(b, p, sb).trace)
  {
    assert Notes(Append(a, p, sa).trace) == Notes(a.trace) + [p];
    assert Notes(Append(b, p, sb).trace) == Notes(b.trace) + [p];
  }

  lemma AttemptAlike(cfg: Config, a: Shared, b: Shared, n: int, at: Attempt, ok: bool, sa: Stamp, sb: Stamp)
    requires a.channel == b.channel && a.firstEffect == b.firstEffect && a.effects == b.effects && Notes(a.trace) == Notes(b.trace)
    ensures var (a', x) := AttemptStep(cfg, a, n, at, ok, sa);
            var (b', y) := AttemptStep(cfg, b, n, at, ok, sb);
            x == y && a'.channel == b'.channel && a'.firstEffect == b'.firstEffect && a'.effects == b'.effects &&
            Notes(a'.trace) == Notes(b'.trace)
  {
    if AttemptNote(n, at).Some? {
      AppendAlike(a, b, AttemptNote(n, at).value, sa, sb);
    }
  }

  lemma AlikeStep(cfg: Config, s: State, t: State, action: Action, stamp: Stamp)
    requires Alike(s, t)
    ensures Alike(Apply(cfg, s, action), Apply(cfg, t, WithStamp(action, stamp)))
  {
    match action
    case MainAction(ok, timer, sa) =>
      if NextRecord(cfg, s.main).Some? {
        AppendAlike(s.shared, t.shared, NextRecord(cfg, s.main).value.0, sa, stamp);
      }
    case FirstAction(ok, sa) => AttemptAlike(cfg, s.shared, t.shared, 1, s.first, ok, sa, stamp);
    case SecondAction(ok, sa) => AttemptAlike(cfg, s.shared, t.shared, 2, s.second, ok, sa, stamp);
  }

  lemma {:induction false} RestampedAlike(cfg: Config, choices: seq<Action>)
    ensures Alike(Run(cfg, choices), Run(cfg, Restamped(choices)))
    decreases |choices|
  {
    if |choices| > 0 {
      var n: nat := |choices| - 1;
      RestampedAlike(cfg, choices[..n]);
      assert Restamped(choices)[..n] == Restamped(choices[..n]);
      AlikeStep(cfg, Run(cfg, choices[..n]), Run(cfg, Restamped(choices[..n])), choices[n], StampAt(n));
    }
  }

  /** All entries carry stamps of the first `n` choices, each a different one. */
  ghost predicate StampedBelow(trace: seq<Entry>, n: nat) {
    && (forall x | x in trace :: exists k: nat :: k < n && x.stamp == StampAt(k))
    && (forall i, j | 0 <= i < j < |trace| :: trace[i].stamp.eventId != trace[j].stamp.eventId)
  }

  lemma StampsDiffer(j: nat, k: nat)
    requires StampAt(j).eventId == StampAt(k).eventId
    ensures j == k
  {
    LastDash(PREFIX + "gateway", Decimal(j), PREFIX + "gateway", Decimal(k));
    DecimalInjective(j, k);
  }

  lemma AppendStamped(trace: seq<Entry>, x: Entry, n: nat)
    requires StampedBelow(trace, n) && x.stamp == StampAt(n)
    ensures StampedBelow(trace + [x], n + 1)
  {
    forall y | y in trace + [x] ensures exists k: nat :: k < n + 1 && y.stamp == StampAt(k) {
      if y in trace {
        var k: nat :| k < n && y.stamp == StampAt(k);
      }
    }
    forall y | y in trace ensures y.stamp.eventId != x.stamp.eventId {
      var k: nat :| k < n && y.stamp == StampAt(k);
      if y.stamp.eventId == x.stamp.eventId {
        StampsDiffer(k, n);
      }
    }
    forall i, j | 0 <= i < j < |trace + [x]| ensures (trace + [x])[i].stamp.eventId != (trace + [x])[j].stamp.eventId {
      assert trace[i] in trace;
    }
  }

  /** A step leaves the trace alone or appends one entry with the step's stamp. */
  lemma StepAppends(cfg: Config, s: State, action: Action, stamp: Stamp)
    ensures var t := Apply(cfg, s, WithStamp(action, stamp)).shared.trace;
            t == s.shared.trace || exists x :: t == s.shared.trace + [x] && x.stamp == stamp
  {
  }

  lemma {:induction false} RestampedDistinct(cfg: Config, choices: seq<Action>)
    ensures StampedBelow(Run(cfg, Restamped(choices)).shared.trace, |choices|)
    decreases |choices|
  {
    if |choices| > 0 {
      var n: nat := |choices| - 1;
      RestampedDistinct(cfg, choices[..n]);
      assert Restamped(choices)[..n] == Restamped(choices[..n]);
      var s := Run(cfg, Restamped(choices[..n]));
      StepAppends(cfg, s, choices[n], StampAt(n));
      var t := Run(cfg, Restamped(choices)).shared.trace;
      if t != s.shared.trace {
        var x :| t == s.shared.trace + [x] && x.stamp == StampAt(n);
        AppendStamped(s.shared.trace, x, n);
      } else {
        StampedWider(t, n);
      }
    }
  }

  lemma StampedWider(trace: seq<Entry>, n: nat)
    requires StampedBelow(trace, n)
    ensures StampedBelow(trace, n + 1)
  {
    forall x | x in trace ensures exists k: nat :: k < n + 1 && x.stamp == StampAt(k) {
      var k: nat :| k < n && x.stamp == StampAt(k);
    }
  }

  // ----- valid events -----

  predicate Named(cfg: Config) {
    cfg.executionId != "" && cfg.traceId != "" && cfg.logicalOp != ""
  }

  /** Attempts are numbered from 1. */
  ghost predicate Numbered(cfg: Config, trace: seq<Entry>) {
    forall x | x in trace :: Recorded(cfg, x).attempt >= 1
  }

  lemma NumberedStep(cfg: Config, s: State, action: Action)
    requires MainInv(cfg, s) && Numbered(cfg, s.shared.trace)
    ensures Numbered(cfg, Apply(cfg, s, action).shared.trace)
  {
  }

  lemma {:induction false} RunNumbered(cfg: Config, choices: seq<Action>)
    ensures Numbered(cfg, Run(cfg, choices).shared.trace)
    decreases |choices|
  {
    if |choices| > 0 {
      var init := choices[..|choices| - 1];
      RunNumbered(cfg, init);
      RunInv(cfg, init);
      NumberedStep(cfg, Run(cfg, init), choices[|choices| - 1]);
    }
  }

  lemma StampedValid(cfg: Config, x: Entry, k: nat)
    requires Named(cfg) && x.stamp == StampAt(k) && Recorded(cfg, x).attempt >= 1
    ensures Recorded(cfg, x).Valid() && Recorded(cfg, x).eventId == x.stamp.eventId
  {
  }

  lemma StampedOk(cfg: Config, trace: seq<Entry>, n: nat)
    requires Named(cfg) && StampedBelow(trace, n) && Numbered(cfg, trace)
    ensures EventsOk(Events(cfg, trace))
  {
    var events := Events(cfg, trace);
    forall i | 0 <= i < |trace| ensures events[i].Valid() && events[i].eventId == trace[i].stamp.eventId {
      assert trace[i] in trace;
      var k: nat :| k < n && trace[i].stamp == StampAt(k);
      StampedValid(cfg, trace[i], k);
    }
  }

  /** Every schedule has a twin that takes the same course and captures valid
      events under distinct ids. */
  lemma ProperTwin(cfg: Config, choices: seq<Action>) returns (twin: seq<Action>)
    requires Named(cfg)
    ensures Alike(Run(cfg, choices), Run(cfg, twin))
    ensures EventsOk(Events(cfg, Run(cfg, twin).shared.trace))
    ensures forall x | x in Run(cfg, twin).shared.trace :: exists n: nat :: x.stamp == StampAt(n)
  {
    twin := Restamped(choices);
    RestampedAlike(cfg, choices);
    RestampedDistinct(cfg, choices);
    RunNumbered(cfg, twin);
    StampedOk(cfg, Run(cfg, twin).shared.trace, |choices|);
  }
}
