/**
 What the balancer believes about one back end: the smoothed load score with its
 threshold and hysteresis, and the up/down state driven by probes and by proxied
 failures. Floating point is modelled by the reals.
 */
module Health {

  const SMOOTHING := 0.45
  const FAILURE_THRESHOLD: nat := 3
  const RECOVERY_THRESHOLD: nat := 2

  function Clamp01(v: real): (r: real)
    ensures 0.0 <= r <= 1.0
    ensures 0.0 <= v <= 1.0 ==> r == v
  {
    if v < 0.0 then 0.0 else if v > 1.0 then 1.0 else v
  }

  /** What a back end reports, with the latency the balancer has measured for it. */
  datatype Report = Report(cpu: real, loopLagMs: real, queueDepth: int, latencyMs: real)

  function Raw(p: Report): real {
    0.50 * Clamp01(p.cpu) + 0.20 * Clamp01(p.loopLagMs / 60.0)
    + 0.15 * Clamp01(p.latencyMs / 250.0) + 0.15 * Clamp01(p.queueDepth as real / 200.0)
  }

  lemma RawInRange(p: Report)
    ensures 0.0 <= Raw(p) <= 1.0
  {}

  /** Worse readings never lower the score. */
  lemma RawRises(p: Report, q: Report)
    requires p.cpu <= q.cpu && p.loopLagMs <= q.loopLagMs && p.queueDepth <= q.queueDepth && p.latencyMs <= q.latencyMs
    ensures Raw(p) <= Raw(q)
  {}

  /**
   Readings up to their reference values (one, 60 ms, 250 ms and 200 documents) count in
   the proportion 50 to 20 to 15 to 15.
   */
  lemma RawIsWeighted(p: Report)
    requires 0.0 <= p.cpu <= 1.0 && 0.0 <= p.loopLagMs <= 60.0
    requires 0.0 <= p.latencyMs <= 250.0 && 0 <= p.queueDepth <= 200
    ensures 15000.0 * Raw(p)
            == 7500.0 * p.cpu + 50.0 * p.loopLagMs + 9.0 * p.latencyMs + 11.25 * p.queueDepth as real
  {
    assert Clamp01(p.cpu) == p.cpu && Clamp01(p.loopLagMs / 60.0) == p.loopLagMs / 60.0;
  }

  function Within(v: real, high: real): real {
    if v < 0.0 then 0.0 else if v > high then high else v
  }

  /** More than the reference counts as the reference, and less than nothing as nothing. */
  lemma RawIsCapped(p: Report)
    ensures Raw(p) == Raw(p.(cpu := Within(p.cpu, 1.0)))
    ensures Raw(p) == Raw(p.(loopLagMs := Within(p.loopLagMs, 60.0)))
    ensures Raw(p) == Raw(p.(latencyMs := Within(p.latencyMs, 250.0)))
    ensures p.queueDepth < 0 ==> Raw(p) == Raw(p.(queueDepth := 0))
    ensures p.queueDepth > 200 ==> Raw(p) == Raw(p.(queueDepth := 200))
  {}

  datatype State = State(alive: bool, overloaded: bool, okStreak: nat, failStreak: nat, score: real)

  datatype Limits = Limits(threshold: real, hysteresis: real)

  const FRESH := State(true, false, 0, 0, 0.0)

  function Blend(score: real, raw: real): real {
    if score == 0.0 then raw else SMOOTHING * raw + (1.0 - SMOOTHING) * score
  }

  /** A failed probe, or a failed attempt that was not abandoned by the client. */
  function Failure(s: State): State {
    s.(okStreak := 0, failStreak := s.failStreak + 1,
       alive := s.alive && s.failStreak + 1 < FAILURE_THRESHOLD)
  }

  function Recovers(s: State): bool {
    !s.alive && s.okStreak + 1 >= RECOVERY_THRESHOLD
  }

  /** A good probe: streaks, then recovery, then the score, then the switch. */
  function Success(s: State, raw: real, l: Limits): State {
    var score := Blend(s.score, raw);
    var over := s.overloaded && !Recovers(s);
    State(s.alive || Recovers(s),
          if !over && score > l.threshold then true
          else if over && score < l.threshold - l.hysteresis then false
          else over,
          s.okStreak + 1, 0, score)
  }

  /** What a back end is put through. An attempt the client abandoned is not an event. */
  datatype Event = GoodProbe(raw: real) | BadProbe | FailedAttempt

  function Next(s: State, e: Event, l: Limits): State {
    match e
    case GoodProbe(raw) => Success(s, raw, l)
    case BadProbe => Failure(s)
    case FailedAttempt => Failure(s)
  }

  function Run(s: State, trace: seq<Event>, l: Limits): State {
    if trace == [] then s else Next(Run(s, trace[..|trace| - 1], l), trace[|trace| - 1], l)
  }

  // ------------------------------------------------------------------ Up, down

  /** Failures since the last good probe. */
  function FailRun(trace: seq<Event>): nat {
    if trace == [] || trace[|trace| - 1].GoodProbe? then 0 else 1 + FailRun(trace[..|trace| - 1])
  }

  /** Good probes since the last failure of either kind. */
  function OkRun(trace: seq<Event>): nat {
    if trace == [] || !trace[|trace| - 1].GoodProbe? then 0 else 1 + OkRun(trace[..|trace| - 1])
  }

  /** The verdict of a trace: whichever of three failures or two good probes in a row happened last. */
  function IsUp(trace: seq<Event>): bool {
    if trace == [] then true
    else if FailRun(trace) >= FAILURE_THRESHOLD then false
    else if OkRun(trace) >= RECOVERY_THRESHOLD then true
    else IsUp(trace[..|trace| - 1])
  }

  /** The counters and flag kept step by step are that verdict of the whole past. */
  lemma {:induction false} UpDownFollowsTheTrace(trace: seq<Event>, l: Limits)
    ensures var s := Run(FRESH, trace, l);
            && s.failStreak == FailRun(trace)
            && s.okStreak == OkRun(trace)
            && s.alive == IsUp(trace)
            && (s.alive ==> s.failStreak < FAILURE_THRESHOLD)
            && (!s.alive ==> s.okStreak < RECOVERY_THRESHOLD)
  {
    if trace != [] {
      UpDownFollowsTheTrace(trace[..|trace| - 1], l);
    }
  }

  /** Only the third failure in a row takes a back end down. */
  lemma GoesDownOnThirdFailure(trace: seq<Event>, e: Event, l: Limits)
    ensures Run(FRESH, trace, l).alive && !Run(FRESH, trace + [e], l).alive
        <==> IsUp(trace) && !e.GoodProbe? && FailRun(trace) == 2
  {
    UpDownFollowsTheTrace(trace, l);
    assert (trace + [e])[..|trace|] == trace;
  }

  /** Only the second good probe in a row brings it back, and then it starts with a clean slate for load. */
  lemma ComesBackOnSecondGoodProbe(trace: seq<Event>, e: Event, l: Limits)
    ensures !Run(FRESH, trace, l).alive && Run(FRESH, trace + [e], l).alive
        <==> !IsUp(trace) && e.GoodProbe? && OkRun(trace) == 1
    ensures !Run(FRESH, trace, l).alive && Run(FRESH, trace + [e], l).alive ==>
              (Run(FRESH, trace + [e], l).overloaded <==> Run(FRESH, trace + [e], l).score > l.threshold)
  {
    UpDownFollowsTheTrace(trace, l);
    assert (trace + [e])[..|trace|] == trace;
  }

  // --------------------------------------------------------------------- Score

  predicate RawsWithin(trace: seq<Event>, low: real, high: real) {
    forall i :: 0 <= i < |trace| && trace[i].GoodProbe? ==> low <= trace[i].raw <= high
  }

  lemma {:induction false} ScoreStaysInRange(s: State, trace: seq<Event>, l: Limits)
    requires 0.0 <= s.score <= 1.0 && RawsWithin(trace, 0.0, 1.0)
    ensures 0.0 <= Run(s, trace, l).score <= 1.0
  {
    if trace != [] {
      ScoreStaysInRange(s, trace[..|trace| - 1], l);
    }
  }

  /** The first reading is taken as it is; after that 45 parts of a reading are mixed with 55 of the score. */
  lemma ScoreMixes(s: State, raw: real, l: Limits)
    ensures var t := Next(s, GoodProbe(raw), l);
            if s.score == 0.0 then t.score == raw else 100.0 * t.score == 45.0 * raw + 55.0 * s.score
    ensures Next(s, BadProbe, l).score == s.score && Next(s, FailedAttempt, l).score == s.score
  {}

  function Pow(b: real, n: nat): real {
    if n == 0 then 1.0 else b * Pow(b, n - 1)
  }

  lemma {:induction false} PowPositive(b: real, n: nat)
    requires b > 0.0
    ensures Pow(b, n) > 0.0
  {
    if n > 0 {
      PowPositive(b, n - 1);
    }
  }

  predicate AllGood(trace: seq<Event>) {
    forall i :: 0 <= i < |trace| ==> trace[i].GoodProbe?
  }

  function Above(score: real, r: real): real {
    if score > r then score - r else 0.0
  }

  /** A back end that keeps reporting no more than r is approached geometrically. */
  lemma {:induction false} ScoreDecays(s: State, trace: seq<Event>, l: Limits, r: real)
    requires s.score >= 0.0 && r >= 0.0 && AllGood(trace) && RawsWithin(trace, 0.0, r)
    ensures Run(s, trace, l).score >= 0.0
    ensures Run(s, trace, l).score - r <= Pow(0.55, |trace|) * Above(s.score, r)
  {
    if trace != [] {
      var before, last := trace[..|trace| - 1], trace[|trace| - 1];
      ScoreDecays(s, before, l, r);
      var x, bound := Run(s, before, l).score, Pow(0.55, |before|) * Above(s.score, r);
      PowPositive(0.55, |before|);
      assert bound >= 0.0;
      assert Pow(0.55, |trace|) * Above(s.score, r) == 0.55 * bound;
      assert Blend(x, last.raw) - r <= 0.55 * bound;
    }
  }

  /** Bernoulli's inequality for 1/0.55, as an upper bound on the powers of 0.55. */
  lemma {:induction false} PowersShrink(n: nat)
    ensures Pow(0.55, n) * (1.0 + 0.8 * n as real) <= 1.0
  {
    if n > 0 {
      PowersShrink(n - 1);
      PowPositive(0.55, n - 1);
      var p, m := Pow(0.55, n - 1), (n - 1) as real;
      assert n as real == m + 1.0;
      assert 0.55 * (1.8 + 0.8 * m) <= 1.0 + 0.8 * m;
      assert p * (0.55 * (1.8 + 0.8 * m)) <= p * (1.0 + 0.8 * m);
    }
  }

  /**
   An overloaded back end whose reports stay at or below r is back in use as soon
   as its excess over r has shrunk to less than r's distance from the band.
   */
  lemma OverloadClears(s: State, trace: seq<Event>, l: Limits, r: real)
    requires s.score >= 0.0 && r >= 0.0 && l.hysteresis >= 0.0
    requires trace != [] && AllGood(trace) && RawsWithin(trace, 0.0, r)
    requires Pow(0.55, |trace|) * Above(s.score, r) < l.threshold - l.hysteresis - r
    ensures !Run(s, trace, l).overloaded
  {
    hide Pow, Success;
    ScoreDecays(s, trace, l, r);
    LastProbeClears(Run(s, trace[..|trace| - 1], l), trace[|trace| - 1].raw, l);
  }

  /** Enough probes to close a gap of this size. */
  predicate Outweighs(n: nat, gap: real) {
    (1.0 + 0.8 * n as real) * gap > 1.0
  }

  /** That happens, whatever the score was, within n good probes once 0.8 n outweighs 1/gap. */
  lemma OverloadClearsInTime(s: State, trace: seq<Event>, l: Limits, r: real)
    requires 0.0 <= s.score <= 1.0 && r >= 0.0 && l.hysteresis >= 0.0
    requires r < l.threshold - l.hysteresis
    requires trace != [] && AllGood(trace) && RawsWithin(trace, 0.0, r)
    requires Outweighs(|trace|, l.threshold - l.hysteresis - r)
    ensures !Run(s, trace, l).overloaded
  {
    hide Pow, Run, Outweighs;
    PowersShrink(|trace|);
    PowPositive(0.55, |trace|);
    Shrinks(Pow(0.55, |trace|), |trace|, l.threshold - l.hysteresis - r, Above(s.score, r));
    OverloadClears(s, trace, l, r);
  }

  lemma TimesPositive(a: real, b: real, k: real)
    requires a <= b && k >= 0.0
    ensures a * k <= b * k
  {
    assert (b - a) * k >= 0.0;
  }

  lemma Shrinks(p: real, n: nat, gap: real, above: real)
    requires p > 0.0 && p * (1.0 + 0.8 * n as real) <= 1.0 && Outweighs(n, gap) && 0.0 <= above <= 1.0
    ensures p * above < gap
  {
    var k := 1.0 + 0.8 * n as real;
    if p >= gap {
      TimesPositive(gap, p, k);
    }
    TimesPositive(above, 1.0, p);
  }

  lemma LastProbeClears(s: State, raw: real, l: Limits)
    requires l.hysteresis >= 0.0
    ensures Success(s, raw, l).score < l.threshold - l.hysteresis ==> !Success(s, raw, l).overloaded
  {}

  /** A back end that keeps reporting at least r is approached as fast from below. */
  lemma {:induction false} ScoreGrows(s: State, trace: seq<Event>, l: Limits, r: real)
    requires s.score >= 0.0 && r > 0.0 && AllGood(trace)
    requires forall i :: 0 <= i < |trace| ==> trace[i].raw >= r
    ensures Run(s, trace, l).score >= 0.0
    ensures r - Run(s, trace, l).score <= Pow(0.55, |trace|) * Above(r, s.score)
  {
    if trace != [] {
      var before, last := trace[..|trace| - 1], trace[|trace| - 1];
      ScoreGrows(s, before, l, r);
      var x, bound := Run(s, before, l).score, Pow(0.55, |before|) * Above(r, s.score);
      PowPositive(0.55, |before|);
      assert bound >= 0.0;
      assert Pow(0.55, |trace|) * Above(r, s.score) == 0.55 * bound;
      assert r - Blend(x, last.raw) <= 0.55 * bound;
    }
  }

  /** So a back end that keeps reporting more than the threshold is set aside, after a number of good probes. */
  lemma OverloadSets(s: State, trace: seq<Event>, l: Limits, r: real)
    requires s.score >= 0.0 && r > 0.0 && l.hysteresis >= 0.0
    requires trace != [] && AllGood(trace) && forall i :: 0 <= i < |trace| ==> trace[i].raw >= r
    requires Pow(0.55, |trace|) * Above(r, s.score) < r - l.threshold
    ensures Run(s, trace, l).overloaded
  {
    hide Pow, Success;
    ScoreGrows(s, trace, l, r);
    FlagFollowsTheScore(Run(s, trace[..|trace| - 1], l), trace[|trace| - 1].raw, l);
  }

  /**
   After a good probe the flag is set above the threshold and clear below the band. In the
   band it is as it was, except that a back end the probe brought back starts with it clear.
   A failure leaves it alone.
   */
  lemma FlagFollowsTheScore(s: State, raw: real, l: Limits)
    requires l.hysteresis >= 0.0
    ensures var t := Next(s, GoodProbe(raw), l);
            && (t.score > l.threshold ==> t.overloaded)
            && (t.score < l.threshold - l.hysteresis ==> !t.overloaded)
            && (l.threshold - l.hysteresis <= t.score <= l.threshold ==>
                  (t.overloaded <==> s.overloaded && (s.alive || !t.alive)))
    ensures Next(s, BadProbe, l).overloaded == s.overloaded && Next(s, FailedAttempt, l).overloaded == s.overloaded
  {}

  /** The flag as a verdict on the past: what the last score outside the band said, if no recovery came after it. */
  function IsOver(trace: seq<Event>, l: Limits): bool {
    if trace == [] then false
    else
      var before := trace[..|trace| - 1];
      var score := Run(FRESH, trace, l).score;
      if !trace[|trace| - 1].GoodProbe? then IsOver(before, l)
      else if score > l.threshold then true
      else if score < l.threshold - l.hysteresis then false
      else (IsUp(before) || !IsUp(trace)) && IsOver(before, l)
  }

  lemma {:induction false} OverloadFollowsTheTrace(trace: seq<Event>, l: Limits)
    requires l.hysteresis >= 0.0
    ensures Run(FRESH, trace, l).overloaded == IsOver(trace, l)
  {
    hide Success, Failure, IsUp;
    if trace != [] {
      var before := trace[..|trace| - 1];
      OverloadFollowsTheTrace(before, l);
      UpDownFollowsTheTrace(before, l);
      UpDownFollowsTheTrace(trace, l);
      var s := Run(FRESH, before, l);
      FlagFollowsTheScore(s, if trace[|trace| - 1].GoodProbe? then trace[|trace| - 1].raw else 0.0, l);
      assert Run(FRESH, trace, l) == Next(s, trace[|trace| - 1], l);
    }
  }

  // --------------------------------------------------------------------- Flips

  function Distance(a: real, b: real): real {
    if a < b then b - a else a - b
  }

  /** How far the score has travelled over a trace. */
  function Travelled(s: State, trace: seq<Event>, l: Limits): real {
    if trace == [] then 0.0
    else
      var before := trace[..|trace| - 1];
      Travelled(s, before, l) + Distance(Run(s, before, l).score, Run(s, trace, l).score)
  }

  /** How often the overloaded flag changed. */
  function Flips(s: State, trace: seq<Event>, l: Limits): nat {
    if trace == [] then 0
    else
      var before := trace[..|trace| - 1];
      Flips(s, before, l) + (if Run(s, before, l).overloaded != Run(s, trace, l).overloaded then 1 else 0)
  }

  ghost predicate NeverRecovers(s: State, trace: seq<Event>, l: Limits) {
    forall i :: 0 <= i < |trace| && trace[i].GoodProbe? ==> !Recovers(Run(s, trace[..i], l))
  }

  /** How far the score has already come from the edge it last flipped at. */
  function Slack(s: State, l: Limits): real {
    if s.overloaded then Above(l.threshold, s.score) else Above(s.score, l.threshold - l.hysteresis)
  }

  /** n crossings of a band h wide. */
  function Crossings(h: real, n: int): real
    decreases n
  {
    if n <= 0 then 0.0 else h + Crossings(h, n - 1)
  }

  lemma TimesSuccessor(h: real, m: real, k: real)
    requires k == m + 1.0
    ensures h * k == h * m + h
  {
    assert h * (m + 1.0) == h * m + h * 1.0;
  }

  lemma {:induction false} CrossingsAdd(h: real, n: nat)
    ensures Crossings(h, n) == h * n as real
  {
    if n > 0 {
      CrossingsAdd(h, n - 1);
      TimesSuccessor(h, (n - 1) as real, n as real);
    }
  }

  /** What `flips` flips have cost, given the last of them left the state `s`. */
  ghost predicate Paid(travelled: real, flips: nat, s: State, l: Limits) {
    && travelled >= 0.0
    && (flips >= 1 ==> travelled >= Crossings(l.hysteresis, flips - 1) + Slack(s, l))
    && (flips >= 2 ==> travelled > Crossings(l.hysteresis, flips - 1))
  }

  lemma ProbePays(travelled: real, flips: nat, s: State, raw: real, l: Limits)
    requires l.hysteresis >= 0.0 && !Recovers(s) && Paid(travelled, flips, s, l)
    ensures var t := Success(s, raw, l);
            Paid(travelled + Distance(s.score, t.score),
                 if s.overloaded != t.overloaded then flips + 1 else flips, t, l)
  {
    hide Blend;
  }

  lemma {:induction false} EachFlipCrossesTheBand(s: State, trace: seq<Event>, l: Limits)
    requires l.hysteresis >= 0.0 && NeverRecovers(s, trace, l)
    ensures Paid(Travelled(s, trace, l), Flips(s, trace, l), Run(s, trace, l), l)
  {
    hide Success;
    if trace != [] {
      var before, last := trace[..|trace| - 1], trace[|trace| - 1];
      assert forall i :: 0 <= i < |before| ==> before[..i] == trace[..i];
      EachFlipCrossesTheBand(s, before, l);
      var a := Run(s, before, l);
      if last.GoodProbe? {
        assert !Recovers(a);
        ProbePays(Travelled(s, before, l), Flips(s, before, l), a, last.raw, l);
      }
    }
  }

  /**
   Flapping costs: over any stretch without a recovery, n flips take more than n - 1
   crossings of the band.
   */
  lemma FlappingIsBounded(s: State, trace: seq<Event>, l: Limits)
    requires l.hysteresis >= 0.0 && NeverRecovers(s, trace, l)
    ensures Flips(s, trace, l) >= 2 ==> Travelled(s, trace, l) > l.hysteresis * (Flips(s, trace, l) - 1) as real
  {
    hide Travelled, Flips, Run, Slack;
    EachFlipCrossesTheBand(s, trace, l);
    var n := Flips(s, trace, l);
    if n >= 2 {
      CrossingsAdd(l.hysteresis, n - 1);
    }
  }

  /** How many failures of proxied attempts a trace holds. */
  function FailedAttempts(trace: seq<Event>): nat {
    if trace == [] then 0
    else FailedAttempts(trace[..|trace| - 1]) + (if trace[|trace| - 1].FailedAttempt? then 1 else 0)
  }

  lemma FailedAttemptsSnoc(trace: seq<Event>, e: Event)
    ensures FailedAttempts(trace + [e]) == FailedAttempts(trace) + (if e.FailedAttempt? then 1 else 0)
  {
    assert (trace + [e])[..|trace|] == trace;
  }

  // ----------------------------------------------------------------- The class

  class Backend {
    const id: nat
    var alive: bool
    var overloaded: bool
    var okStreak: nat
    var failStreak: nat
    var score: real

    /** Everything that has happened to this back end. */
    ghost var trace: seq<Event>
    ghost const limits: Limits

    ghost function Now(): State
      reads this
    {
      State(alive, overloaded, okStreak, failStreak, score)
    }

    ghost predicate Valid()
      reads this
    {
      Now() == Run(FRESH, trace, limits)
    }

    constructor (id: nat, ghost limits: Limits)
      ensures Valid() && trace == [] && this.id == id && this.limits == limits
    {
      this.id := id;
      this.limits := limits;
      alive, overloaded, okStreak, failStreak, score := true, false, 0, 0, 0.0;
      trace := [];
    }

    /** A failure counts whether a probe or real traffic met it. */
    method MarkFailure(ghost e: Event)
      requires Valid() && !e.GoodProbe?
      modifies this
      ensures Valid() && trace == old(trace) + [e]
      ensures Now() == Failure(old(Now()))
    {
      assert (trace + [e])[..|trace|] == trace;
      trace := trace + [e];
      okStreak := 0;
      failStreak := failStreak + 1;
      if alive && failStreak >= FAILURE_THRESHOLD {
        alive := false;
      }
    }

    /** A good probe. */
    method Probe(report: Report, threshold: real, hysteresis: real) returns (switched: bool)
      requires Valid() && limits == Limits(threshold, hysteresis)
      modifies this
      ensures Valid() && trace == old(trace) + [GoodProbe(Raw(report))]
      ensures Now() == Success(old(Now()), Raw(report), limits)
      ensures switched <==> overloaded && !(old(overloaded) && !Recovers(old(Now())))
    {
      assert (trace + [GoodProbe(Raw(report))])[..|trace|] == trace;
      trace := trace + [GoodProbe(Raw(report))];
      failStreak := 0;
      okStreak := okStreak + 1;
      if !alive && okStreak >= RECOVERY_THRESHOLD {
        alive := true;
        overloaded := false;
      }
      var raw := Raw(report);
      if score == 0.0 {
        score := raw;
      } else {
        score := SMOOTHING * raw + (1.0 - SMOOTHING) * score;
      }
      switched := false;
      if !overloaded && score > threshold {
        overloaded := true;
        switched := true;
      } else if overloaded && score < threshold - hysteresis {
        overloaded := false;
      }
    }

    /** After a proxied attempt: only a failure the client did not cause is held against the back end. */
    method AfterAttempt(failed: bool, clientGaveUp: bool)
      requires Valid()
      modifies this
      ensures Valid()
      ensures trace == if failed && !clientGaveUp then old(trace) + [FailedAttempt] else old(trace)
      ensures !failed || clientGaveUp ==> Now() == old(Now())
    {
      if failed && !clientGaveUp {
        MarkFailure(FailedAttempt);
      }
    }
  }
}
