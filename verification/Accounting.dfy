/**
 The balancer's handling of requests as interleaved atomic steps: its counters,
 how many attempts are at each back end, the one retry, and the buffered body.
 */
module Accounting {
  import opened Collections
  import Health

  /** How one attempt ended. `wrote` says something had reached the client; a panic unwinds the handler. */
  datatype Outcome =
    | Served(code: int, wrote: bool)
    | RoundTripFailed(gaveUp: bool, wrote: bool)
    | Panicked

  datatype Attempt = Attempt(backend: nat, outcome: Option<Outcome>)

  /** What a handler is about to do. */
  datatype Phase =
    | Choosing          // first back end not yet picked
    | Waiting           // an attempt is at a back end
    | Retrying          // the first attempt failed cleanly; a second back end is being picked
    | Finished

  datatype Request = Request(replayable: bool, upgrade: bool, phase: Phase, attempts: seq<Attempt>)

  datatype Books = Books(
    requests: nat,
    succeeded: nat,
    failures: nat,
    panicked: nat,
    retried: nat,
    abandoned: nat,
    sampled: nat,
    inflight: seq<int>,
    blamed: seq<nat>,
    open: seq<Request>)

  datatype Event =
    | Begin(replayable: bool, upgrade: bool)
    | BodyUnreadable(r: nat)
    | NoBackend(r: nat)
    | Send(r: nat, backend: nat)
    | End(r: nat, outcome: Outcome)

  predicate Abandoned(o: Outcome) {
    o.RoundTripFailed? && o.gaveUp
  }

  /** One retry, only when the first attempt failed before anything reached a client that is still there. */
  predicate MayRetry(q: Request, o: Outcome) {
    && |q.attempts| == 1
    && o.RoundTripFailed? && !o.gaveUp && !o.wrote
    && q.replayable && !q.upgrade
  }

  function Last(q: Request): Attempt
    requires q.attempts != []
  {
    q.attempts[|q.attempts| - 1]
  }

  /** finish(): what a request that ends with this outcome is counted as. */
  function Finish(b: Books, o: Outcome): Books {
    match o
    case Panicked => b.(panicked := b.panicked + 1)
    case RoundTripFailed(_, _) => b.(failures := b.failures + 1)
    case Served(code, _) =>
      if code >= 500 then b.(failures := b.failures + 1, sampled := b.sampled + 1)
      else b.(succeeded := b.succeeded + 1, sampled := b.sampled + 1)
  }

  /** serveOnce() returning, normally or not: the in-flight count goes down on every path. */
  function Returned(b: Books, q: Request, o: Outcome): Books
    requires q.attempts != [] && Last(q).backend < |b.inflight| == |b.blamed|
  {
    var at := Last(q).backend;
    b.(inflight := b.inflight[at := b.inflight[at] - 1],
       abandoned := if Abandoned(o) then b.abandoned + 1 else b.abandoned,
       blamed := if o.RoundTripFailed? && !o.gaveUp then b.blamed[at := b.blamed[at] + 1] else b.blamed)
  }

  function Update(b: Books, r: nat, q: Request): Books
    requires r < |b.open|
  {
    b.(open := b.open[r := q])
  }

  predicate Enabled(b: Books, e: Event) {
    match e
    case Begin(_, _) => true
    case BodyUnreadable(r) => r < |b.open| && b.open[r].phase.Choosing?
    case NoBackend(r) => r < |b.open| && (b.open[r].phase.Choosing? || b.open[r].phase.Retrying?)
    case Send(r, at) =>
      && r < |b.open| && at < |b.inflight| == |b.blamed|
      && (b.open[r].phase.Choosing?
          || (b.open[r].phase.Retrying? && b.open[r].attempts != [] && b.open[r].attempts[0].backend != at))
    case End(r, _) =>
      && r < |b.open| && b.open[r].phase.Waiting? && b.open[r].attempts != []
      && Last(b.open[r]).backend < |b.inflight| == |b.blamed|
  }

  function Next(b: Books, e: Event): Books {
    if !Enabled(b, e) then b
    else
      match e
      case Begin(replayable, upgrade) =>
        b.(requests := b.requests + 1, open := b.open + [Request(replayable, upgrade, Choosing, [])])
      case BodyUnreadable(r) =>
        Update(b, r, b.open[r].(phase := Finished)).(failures := b.failures + 1)
      case NoBackend(r) =>
        Update(b, r, b.open[r].(phase := Finished)).(failures := b.failures + 1)
      case Send(r, at) =>
        var q := b.open[r];
        Update(b, r, q.(phase := Waiting, attempts := q.attempts + [Attempt(at, None)])).(
          inflight := b.inflight[at := b.inflight[at] + 1],
          retried := if q.phase.Retrying? then b.retried + 1 else b.retried)
      case End(r, o) =>
        var q := b.open[r];
        var ended := q.(attempts := q.attempts[|q.attempts| - 1 := Last(q).(outcome := Some(o))]);
        var c := Returned(b, q, o);
        if MayRetry(q, o) then Update(c, r, ended.(phase := Retrying))
        else Update(Finish(c, o), r, ended.(phase := Finished))
  }

  // ---------------------------------------------------------------- Invariant

  /** Requests whose handler has not returned. */
  function Active(open: seq<Request>): nat {
    if open == [] then 0
    else Active(open[..|open| - 1]) + (if open[|open| - 1].phase.Finished? then 0 else 1)
  }

  predicate At(q: Request, backend: nat) {
    q.phase.Waiting? && q.attempts != [] && Last(q).backend == backend
  }

  /** Attempts that are at this back end right now. */
  function Present(open: seq<Request>, backend: nat): nat {
    if open == [] then 0
    else Present(open[..|open| - 1], backend) + (if At(open[|open| - 1], backend) then 1 else 0)
  }

  /** Requests that were sent a second time. */
  function Twice(open: seq<Request>): nat {
    if open == [] then 0
    else Twice(open[..|open| - 1]) + (if |open[|open| - 1].attempts| == 2 then 1 else 0)
  }

  /** At most two attempts, at different back ends, the second only after a clean failure of the first. */
  ghost predicate Sane(q: Request) {
    && |q.attempts| <= 2
    && (q.phase.Choosing? ==> q.attempts == [])
    && (q.phase.Waiting? ==> q.attempts != [] && Last(q).outcome.None?)
    && (q.phase.Retrying? ==> |q.attempts| == 1)
    && (q.phase.Retrying? || |q.attempts| == 2 ==> CleanFailure(q))
    && (|q.attempts| == 2 ==> q.attempts[0].backend != q.attempts[1].backend)
  }

  ghost predicate CleanFailure(q: Request)
    requires q.attempts != []
  {
    q.replayable && !q.upgrade && q.attempts[0].outcome == Some(RoundTripFailed(false, false))
  }

  ghost predicate Balanced(b: Books) {
    && b.requests == |b.open|
    && b.requests == b.succeeded + b.failures + b.panicked + Active(b.open)
    && b.retried == Twice(b.open)
    && |b.inflight| == |b.blamed|
    && (forall k :: 0 <= k < |b.inflight| ==> b.inflight[k] == Present(b.open, k))
    && (forall r :: 0 <= r < |b.open| ==> Sane(b.open[r]))
  }

  /** A failed round trip the client did not cause, and one it did. */
  predicate Blames(a: Attempt, backend: nat) {
    a.backend == backend && a.outcome.Some? && a.outcome.value.RoundTripFailed? && !a.outcome.value.gaveUp
  }

  predicate GaveUp(a: Attempt) {
    a.outcome.Some? && Abandoned(a.outcome.value)
  }

  function BlamesIn(attempts: seq<Attempt>, backend: nat): nat {
    if attempts == [] then 0
    else BlamesIn(attempts[..|attempts| - 1], backend) + (if Blames(attempts[|attempts| - 1], backend) then 1 else 0)
  }

  function GaveUpsIn(attempts: seq<Attempt>): nat {
    if attempts == [] then 0
    else GaveUpsIn(attempts[..|attempts| - 1]) + (if GaveUp(attempts[|attempts| - 1]) then 1 else 0)
  }

  /** All attempts at this back end that ever failed for a reason other than the client. */
  function AllBlames(open: seq<Request>, backend: nat): nat {
    if open == [] then 0
    else AllBlames(open[..|open| - 1], backend) + BlamesIn(open[|open| - 1].attempts, backend)
  }

  /** All attempts that were ever abandoned. */
  function AllGaveUps(open: seq<Request>): nat {
    if open == [] then 0 else AllGaveUps(open[..|open| - 1]) + GaveUpsIn(open[|open| - 1].attempts)
  }

  /** What became of a request, read off its attempts once its handler has returned. */
  datatype Kind = Running | Good | Bad | Panic

  function KindOf(q: Request): Kind {
    if !q.phase.Finished? then Running
    else if q.attempts == [] || Last(q).outcome.None? then Bad
    else
      match Last(q).outcome.value
      case Served(code, _) => if code < 500 then Good else Bad
      case RoundTripFailed(_, _) => Bad
      case Panicked => Panic
  }

  predicate WasServed(q: Request) {
    q.phase.Finished? && q.attempts != [] && Last(q).outcome.Some? && Last(q).outcome.value.Served?
  }

  function CountOf(open: seq<Request>, kind: Kind): nat {
    if open == [] then 0
    else CountOf(open[..|open| - 1], kind) + (if KindOf(open[|open| - 1]) == kind then 1 else 0)
  }

  function CountServed(open: seq<Request>): nat {
    if open == [] then 0
    else CountServed(open[..|open| - 1]) + (if WasServed(open[|open| - 1]) then 1 else 0)
  }

  /** Each counter counts the requests it is named after. */
  ghost predicate Named(b: Books) {
    && b.succeeded == CountOf(b.open, Good)
    && b.failures == CountOf(b.open, Bad)
    && b.panicked == CountOf(b.open, Panic)
    && b.sampled == CountServed(b.open)
  }

  ghost predicate Fair(b: Books) {
    && |b.inflight| == |b.blamed|
    && Named(b)
    && b.abandoned == AllGaveUps(b.open)
    && forall k :: 0 <= k < |b.blamed| ==> b.blamed[k] == AllBlames(b.open, k)
  }

  /** Replacing one request changes each count by that request's share. */
  lemma {:induction false} CountsAfter(open: seq<Request>, r: nat, q: Request, k: nat)
    requires r < |open|
    ensures var after := open[r := q];
            && Active(after) - Active(open)
               == (if q.phase.Finished? then 0 else 1) - (if open[r].phase.Finished? then 0 else 1)
            && Twice(after) - Twice(open)
               == (if |q.attempts| == 2 then 1 else 0) - (if |open[r].attempts| == 2 then 1 else 0)
            && Present(after, k) - Present(open, k)
               == (if At(q, k) then 1 else 0) - (if At(open[r], k) then 1 else 0)
  {
    hide At;
    var after, n := open[r := q], |open| - 1;
    if r == n {
      assert after[..n] == open[..n];
    } else {
      assert after[..n] == open[..n][r := q];
      CountsAfter(open[..n], r, q, k);
    }
  }

  lemma UpdateKeeps(b: Books, r: nat, q: Request)
    requires r < |b.open|
    ensures forall k :: 0 <= k ==>
      Present(b.open[r := q], k) - Present(b.open, k)
      == (if At(q, k) then 1 else 0) - (if At(b.open[r], k) then 1 else 0)
    ensures Active(b.open[r := q]) - Active(b.open)
            == (if q.phase.Finished? then 0 else 1) - (if b.open[r].phase.Finished? then 0 else 1)
    ensures Twice(b.open[r := q]) - Twice(b.open)
            == (if |q.attempts| == 2 then 1 else 0) - (if |b.open[r].attempts| == 2 then 1 else 0)
  {
    CountsAfter(b.open, r, q, 0);
    forall k | 0 <= k
      ensures Present(b.open[r := q], k) - Present(b.open, k)
              == (if At(q, k) then 1 else 0) - (if At(b.open[r], k) then 1 else 0)
    {
      CountsAfter(b.open, r, q, k);
    }
  }

  lemma BeginKeeps(b: Books, e: Event)
    requires Balanced(b) && e.Begin?
    ensures Balanced(Next(b, e))
  {
    var open' := Next(b, e).open;
    assert open'[..|b.open|] == b.open;
  }

  lemma CloseKeeps(b: Books, e: Event)
    requires Balanced(b) && (e.BodyUnreadable? || e.NoBackend?) && Enabled(b, e)
    ensures Balanced(Next(b, e))
  {
    hide Active, Present, Twice;
    UpdateKeeps(b, e.r, b.open[e.r].(phase := Finished));
  }

  lemma SendKeeps(b: Books, r: nat, at: nat)
    requires Balanced(b) && Enabled(b, Send(r, at))
    ensures Balanced(Next(b, Send(r, at)))
  {
    hide Active, Present, Twice;
    var q := b.open[r];
    assert Sane(q);
    UpdateKeeps(b, r, q.(phase := Waiting, attempts := q.attempts + [Attempt(at, None)]));
  }

  lemma EndKeeps(b: Books, r: nat, o: Outcome)
    requires Balanced(b) && Enabled(b, End(r, o))
    ensures Balanced(Next(b, End(r, o)))
  {
    hide Active, Present, Twice;
    var q := b.open[r];
    assert Sane(q);
    var ended := q.(attempts := q.attempts[|q.attempts| - 1 := Last(q).(outcome := Some(o))]);
    UpdateKeeps(b, r, ended.(phase := if MayRetry(q, o) then Retrying else Finished));
  }

  lemma NextBalances(b: Books, e: Event)
    requires Balanced(b)
    ensures Balanced(Next(b, e))
  {
    if Enabled(b, e) {
      match e
      case Begin(_, _) => BeginKeeps(b, e);
      case BodyUnreadable(_) => CloseKeeps(b, e);
      case NoBackend(_) => CloseKeeps(b, e);
      case Send(r, at) => SendKeeps(b, r, at);
      case End(r, o) => EndKeeps(b, r, o);
    }
  }

  lemma {:induction false} BlamesAfter(open: seq<Request>, r: nat, q: Request, k: nat)
    requires r < |open|
    ensures AllBlames(open[r := q], k) + BlamesIn(open[r].attempts, k) == AllBlames(open, k) + BlamesIn(q.attempts, k)
    ensures AllGaveUps(open[r := q]) + GaveUpsIn(open[r].attempts) == AllGaveUps(open) + GaveUpsIn(q.attempts)
  {
    hide BlamesIn, GaveUpsIn;
    var n := |open| - 1;
    if r == n {
      assert open[r := q][..n] == open[..n];
    } else {
      assert open[r := q][..n] == open[..n][r := q];
      BlamesAfter(open[..n], r, q, k);
    }
  }

  lemma {:induction false} KindsAfter(open: seq<Request>, r: nat, q: Request, kind: Kind)
    requires r < |open|
    ensures CountOf(open[r := q], kind) + (if KindOf(open[r]) == kind then 1 else 0)
            == CountOf(open, kind) + (if KindOf(q) == kind then 1 else 0)
    ensures CountServed(open[r := q]) + (if WasServed(open[r]) then 1 else 0)
            == CountServed(open) + (if WasServed(q) then 1 else 0)
  {
    hide KindOf, WasServed;
    var n := |open| - 1;
    if r == n {
      assert open[r := q][..n] == open[..n];
    } else {
      assert open[r := q][..n] == open[..n][r := q];
      KindsAfter(open[..n], r, q, kind);
    }
  }

  lemma NamedAfter(b: Books, r: nat, q: Request)
    requires r < |b.open|
    ensures forall kind :: CountOf(b.open[r := q], kind) + (if KindOf(b.open[r]) == kind then 1 else 0)
                           == CountOf(b.open, kind) + (if KindOf(q) == kind then 1 else 0)
    ensures CountServed(b.open[r := q]) + (if WasServed(b.open[r]) then 1 else 0)
            == CountServed(b.open) + (if WasServed(q) then 1 else 0)
  {
    hide KindOf, WasServed, CountOf, CountServed;
    KindsAfter(b.open, r, q, Good);
    forall kind
      ensures CountOf(b.open[r := q], kind) + (if KindOf(b.open[r]) == kind then 1 else 0)
              == CountOf(b.open, kind) + (if KindOf(q) == kind then 1 else 0)
    {
      KindsAfter(b.open, r, q, kind);
    }
  }

  lemma BlamesEverywhere(open: seq<Request>, r: nat, q: Request)
    requires r < |open|
    ensures forall k: nat ::
      AllBlames(open[r := q], k) + BlamesIn(open[r].attempts, k) == AllBlames(open, k) + BlamesIn(q.attempts, k)
    ensures AllGaveUps(open[r := q]) + GaveUpsIn(open[r].attempts) == AllGaveUps(open) + GaveUpsIn(q.attempts)
  {
    BlamesAfter(open, r, q, 0);
    forall k: nat
      ensures AllBlames(open[r := q], k) + BlamesIn(open[r].attempts, k) == AllBlames(open, k) + BlamesIn(q.attempts, k)
    {
      BlamesAfter(open, r, q, k);
    }
  }

  /** An attempt under way counts for nothing, and when it ends for what it ended with. */
  lemma LastAttempt(attempts: seq<Attempt>, a: Attempt)
    ensures forall k: nat :: BlamesIn(attempts + [a], k) == BlamesIn(attempts, k) + (if Blames(a, k) then 1 else 0)
    ensures GaveUpsIn(attempts + [a]) == GaveUpsIn(attempts) + (if GaveUp(a) then 1 else 0)
  {
    assert (attempts + [a])[..|attempts|] == attempts;
  }

  lemma SendIsFair(b: Books, r: nat, at: nat)
    requires Fair(b) && Enabled(b, Send(r, at))
    ensures Fair(Next(b, Send(r, at)))
  {
    hide AllBlames, AllGaveUps, BlamesIn, GaveUpsIn, CountOf, CountServed;
    var q := b.open[r];
    LastAttempt(q.attempts, Attempt(at, None));
    BlamesEverywhere(b.open, r, q.(phase := Waiting, attempts := q.attempts + [Attempt(at, None)]));
    NamedAfter(b, r, q.(phase := Waiting, attempts := q.attempts + [Attempt(at, None)]));
  }

  lemma EndIsFair(b: Books, r: nat, o: Outcome)
    requires Balanced(b) && Fair(b) && Enabled(b, End(r, o))
    ensures Fair(Next(b, End(r, o)))
  {
    hide Balanced, AllBlames, AllGaveUps, BlamesIn, GaveUpsIn, CountOf, CountServed;
    var q := b.open[r];
    var before, last := q.attempts[..|q.attempts| - 1], Last(q);
    UnderWay(b, r);
    var after := q.attempts[|q.attempts| - 1 := last.(outcome := Some(o))];
    assert q.attempts == before + [last] && after == before + [last.(outcome := Some(o))];
    LastAttempt(before, last);
    LastAttempt(before, last.(outcome := Some(o)));
    var ended := q.(attempts := after, phase := if MayRetry(q, o) then Retrying else Finished);
    BlamesEverywhere(b.open, r, ended);
    NamedAfter(b, r, ended);
  }

  lemma UnderWay(b: Books, r: nat)
    requires Balanced(b) && r < |b.open| && b.open[r].phase.Waiting?
    ensures b.open[r].attempts != [] && Last(b.open[r]).outcome.None?
  {
    assert Sane(b.open[r]);
  }

  lemma NextKeeps(b: Books, e: Event)
    requires Balanced(b) && Fair(b)
    ensures Balanced(Next(b, e)) && Fair(Next(b, e))
  {
    hide Balanced, Fair;
    NextBalances(b, e);
    if Enabled(b, e) {
      match e
      case Begin(replayable, upgrade) => NewRequestIsFair(b, replayable, upgrade);
      case BodyUnreadable(_) => CloseIsFair(b, e);
      case NoBackend(_) => CloseIsFair(b, e);
      case Send(r, at) => SendIsFair(b, r, at);
      case End(r, o) => EndIsFair(b, r, o);
    }
  }

  lemma NewRequestIsFair(b: Books, replayable: bool, upgrade: bool)
    requires Fair(b)
    ensures Fair(Next(b, Begin(replayable, upgrade)))
  {
    var q := Request(replayable, upgrade, Choosing, []);
    assert (b.open + [q])[..|b.open|] == b.open;
  }

  /** A handler that returns with no attempt to show for it, or after its retry found nobody, has failed. */
  lemma CloseIsFair(b: Books, e: Event)
    requires Balanced(b) && Fair(b) && (e.BodyUnreadable? || e.NoBackend?) && Enabled(b, e)
    ensures Fair(Next(b, e))
  {
    hide Balanced, AllBlames, AllGaveUps, BlamesIn, GaveUpsIn, CountOf, CountServed;
    NothingServed(b, e.r);
    BlamesEverywhere(b.open, e.r, b.open[e.r].(phase := Finished));
    NamedAfter(b, e.r, b.open[e.r].(phase := Finished));
  }

  lemma NothingServed(b: Books, r: nat)
    requires Balanced(b) && r < |b.open| && (b.open[r].phase.Choosing? || b.open[r].phase.Retrying?)
    ensures KindOf(b.open[r].(phase := Finished)) == Bad && !WasServed(b.open[r].(phase := Finished))
  {
    assert Sane(b.open[r]);
  }

  function Start(backends: nat): Books {
    Books(0, 0, 0, 0, 0, 0, 0, seq(backends, _ => 0), seq(backends, _ => 0), [])
  }

  function Run(b: Books, events: seq<Event>): Books
    requires Balanced(b) && Fair(b)
    ensures Balanced(Run(b, events)) && Fair(Run(b, events))
    decreases |events|
  {
    if events == [] then b
    else
      NextKeeps(b, events[0]);
      Run(Next(b, events[0]), events[1..])
  }

  /** Whatever the interleaving and however attempts end, the books balance and no in-flight count leaks. */
  lemma TheBooksBalance(backends: nat, events: seq<Event>)
    ensures Balanced(Start(backends)) && Fair(Start(backends))
    ensures var b := Run(Start(backends), events);
            && b.requests == b.succeeded + b.failures + b.panicked + Active(b.open)
            && (Active(b.open) == 0 ==> forall k :: 0 <= k < |b.inflight| ==> b.inflight[k] == 0)
            && (forall k :: 0 <= k < |b.inflight| ==> b.inflight[k] == Present(b.open, k))
            && b.retried == Twice(b.open)
  {
    var b := Run(Start(backends), events);
    if Active(b.open) == 0 {
      forall k | 0 <= k < |b.inflight|
        ensures b.inflight[k] == 0
      {
        NoneActiveNonePresent(b.open, k);
      }
    }
  }

  lemma {:induction false} NoneActiveNonePresent(open: seq<Request>, k: nat)
    requires Active(open) == 0
    ensures Present(open, k) == 0
  {
    if open != [] {
      NoneActiveNonePresent(open[..|open| - 1], k);
    }
  }

  /**
   Over every run, what a back end has been blamed for is the number of attempts
   sent to it that failed with the client still there, first ones and replays
   alike; those the client gave up on are counted apart and blamed on nobody.
   */
  lemma BlameIsFair(backends: nat, events: seq<Event>)
    ensures Balanced(Start(backends)) && Fair(Start(backends))
    ensures var b := Run(Start(backends), events);
            && b.abandoned == AllGaveUps(b.open)
            && Named(b)
            && |b.blamed| == |Start(backends).blamed| == backends
            && forall k :: 0 <= k < backends ==> b.blamed[k] == AllBlames(b.open, k)
  {
    hide Balanced, AllBlames, AllGaveUps;
    TheBooksBalance(backends, events);
    BackendsStay(Start(backends), events);
  }

  lemma {:induction false} BackendsStay(b: Books, events: seq<Event>)
    requires Balanced(b) && Fair(b)
    ensures |Run(b, events).blamed| == |b.blamed|
    decreases |events|
  {
    if events != [] {
      hide Balanced, AllBlames, AllGaveUps;
      NextKeeps(b, events[0]);
      BackendsStay(Next(b, events[0]), events[1..]);
    }
  }

  /**
   An attempt that ends is followed by a second exactly when it was the first, the round
   trip failed with the client still there and nothing sent to it, the body can be sent
   again and the request is not an upgrade. Any other ending ends the request.
   */
  lemma RetryRule(b: Books, r: nat, o: Outcome)
    requires Balanced(b) && Enabled(b, End(r, o))
    ensures var q, t := b.open[r], Next(b, End(r, o)).open[r];
            && (t.phase.Retrying? <==> |q.attempts| == 1 && o == RoundTripFailed(false, false)
                                       && q.replayable && !q.upgrade)
            && (t.phase.Retrying? || t.phase.Finished?)
            && |t.attempts| == |q.attempts| && t.attempts[|t.attempts| - 1].outcome == Some(o)
  {}

  /** How many steps a request is from its end, at most. */
  function StepsLeft(q: Request): nat {
    match q.phase
    case Choosing => 4
    case Waiting => if |q.attempts| == 1 then 3 else 1
    case Retrying => 2
    case Finished => 0
  }

  function AllStepsLeft(open: seq<Request>): nat {
    if open == [] then 0 else AllStepsLeft(open[..|open| - 1]) + StepsLeft(open[|open| - 1])
  }

  lemma {:induction false} StepsAfter(open: seq<Request>, r: nat, q: Request)
    requires r < |open|
    ensures AllStepsLeft(open[r := q]) - AllStepsLeft(open) == StepsLeft(q) - StepsLeft(open[r])
  {
    var after, n := open[r := q], |open| - 1;
    if r == n {
      assert after[..n] == open[..n];
    } else {
      assert after[..n] == open[..n][r := q];
      StepsAfter(open[..n], r, q);
    }
  }

  /**
   Whatever happens to a request brings it nearer its end, and until it is there
   something can happen to it: nothing waits for ever for another attempt.
   */
  lemma EveryStepIsProgress(b: Books, e: Event)
    requires Balanced(b) && Enabled(b, e) && !e.Begin?
    ensures AllStepsLeft(Next(b, e).open) < AllStepsLeft(b.open)
    ensures |Next(b, e).open| == |b.open|
    ensures forall i :: 0 <= i < |b.open| && i != e.r ==> Next(b, e).open[i] == b.open[i]
  {
    hide Present, Active, Twice, At, AllStepsLeft;
    StepsAfter(b.open, e.r, Next(b, e).open[e.r]);
  }

  ghost predicate Placed(b: Books) {
    forall r, a :: 0 <= r < |b.open| && 0 <= a < |b.open[r].attempts| ==>
      b.open[r].attempts[a].backend < |b.inflight| == |b.blamed|
  }

  lemma {:induction false} RunIsPlaced(b: Books, events: seq<Event>)
    requires Balanced(b) && Fair(b) && Placed(b)
    ensures Placed(Run(b, events))
    decreases |events|
  {
    hide Balanced, Fair;
    if events != [] {
      NextKeeps(b, events[0]);
      NextIsPlaced(b, events[0]);
      RunIsPlaced(Next(b, events[0]), events[1..]);
    }
  }

  lemma NextIsPlaced(b: Books, e: Event)
    requires Placed(b)
    ensures Placed(Next(b, e))
  {
    var t := Next(b, e);
    forall r, a | 0 <= r < |t.open| && 0 <= a < |t.open[r].attempts|
      ensures t.open[r].attempts[a].backend < |t.inflight| == |t.blamed|
    {
      assert r < |b.open| && a < |b.open[r].attempts| ==>
          b.open[r].attempts[a].backend == t.open[r].attempts[a].backend;
    }
  }

  /** In every reachable state a request is over exactly when nothing more can happen to it. */
  lemma NobodyIsForgotten(backends: nat, events: seq<Event>, r: nat, o: Outcome)
    ensures Balanced(Start(backends)) && Fair(Start(backends))
    ensures var b := Run(Start(backends), events);
            r < |b.open| ==>
              (b.open[r].phase.Finished? <==> !Enabled(b, NoBackend(r)) && !Enabled(b, End(r, o)))
  {
    TheBooksBalance(backends, events);
    RunIsPlaced(Start(backends), events);
  }

  // --------------------------------------------------------------------- Body

  const MAX_REPLAY_BYTES: nat := 65536

  /** The body as forwarded, and whether it may be sent twice. A negative length stands for an unknown one. */
  datatype Forwarded = Forwarded(body: seq<int>, replayable: bool)

  function Buffer(body: seq<int>, contentLength: int, upgrade: bool): Forwarded {
    if upgrade || contentLength > MAX_REPLAY_BYTES then Forwarded(body, false)
    else
      var buffered := if |body| > MAX_REPLAY_BYTES + 1 then body[..MAX_REPLAY_BYTES + 1] else body;
      Forwarded(buffered, |buffered| <= MAX_REPLAY_BYTES)
  }

  /**
   A back end receives the body the client sent, except that a body of unknown
   length over the limit is cut short; whatever may be replayed is intact.
   */
  lemma BodyIsIntact(body: seq<int>, contentLength: int, upgrade: bool)
    requires contentLength < 0 || contentLength == |body|
    ensures Buffer(body, contentLength, upgrade).body == body
            <==> upgrade || contentLength >= 0 || |body| <= MAX_REPLAY_BYTES + 1
    ensures Buffer(body, contentLength, upgrade).replayable <==> !upgrade && |body| <= MAX_REPLAY_BYTES
    ensures Buffer(body, contentLength, upgrade).replayable ==> Buffer(body, contentLength, upgrade).body == body
    ensures Buffer(body, contentLength, upgrade).body <= body
    ensures Buffer(body, contentLength, upgrade).body != body ==> |Buffer(body, contentLength, upgrade).body| == 65537
  {}

  // ---------------------------------------------------------------- The class

  /** The shared counters and the back ends. Each method is one atomic section of a handler or a probe. */
  class Balancer {
    var requests: nat
    var succeeded: nat
    var failures: nat
    var retried: nat
    var abandoned: nat
    var sampled: nat
    const inflight: array<int>
    const blamed: array<nat>
    const health: seq<Health.Backend>

    ghost var panicked: nat
    ghost var open: seq<Request>

    ghost function State(): Books
      reads this, inflight, blamed
    {
      Books(requests, succeeded, failures, panicked, retried, abandoned, sampled, inflight[..], blamed[..], open)
    }

    /** Each blame is a failed attempt in its back end's record, and each such failure is a blame. */
    ghost predicate Recorded(): (recorded: bool)
      reads blamed, health
      ensures recorded ==> |health| == blamed.Length
    {
      && |health| == blamed.Length
      && (forall i, j :: 0 <= i < j < |health| ==> health[i] != health[j])
      && forall k :: 0 <= k < |health| ==> health[k].Valid() && Health.FailedAttempts(health[k].trace) == blamed[k]
    }

    ghost predicate Valid()
      reads this, inflight, blamed, health
    {
      Balanced(State()) && Fair(State()) && Recorded()
    }

    constructor (health: seq<Health.Backend>)
      requires forall i, j :: 0 <= i < j < |health| ==> health[i] != health[j]
      requires forall k :: 0 <= k < |health| ==> health[k].Valid() && health[k].trace == []
      ensures Valid() && State() == Start(|health|) && fresh(inflight) && fresh(blamed) && this.health == health
    {
      this.health := health;
      inflight := new int[|health|](_ => 0);
      blamed := new nat[|health|](_ => 0);
      requests, succeeded, failures, retried, abandoned, sampled := 0, 0, 0, 0, 0, 0;
      panicked, open := 0, [];
    }

    method Accept(ghost replayable: bool, ghost upgrade: bool)
      requires Valid()
      modifies this
      ensures Valid() && State() == Next(old(State()), Begin(replayable, upgrade))
    {
      hide Balanced, Fair;
      NextKeeps(State(), Begin(replayable, upgrade));
      requests := requests + 1;
      open := open + [Request(replayable, upgrade, Choosing, [])];
    }

    /** An unreadable body, or nobody to send to. */
    method Refuse(ghost r: nat)
      requires Valid() && Enabled(State(), NoBackend(r))
      modifies this
      ensures Valid() && State() == Next(old(State()), NoBackend(r))
      ensures old(open[r].phase.Choosing?) ==> State() == Next(old(State()), BodyUnreadable(r))
    {
      hide Balanced, Fair;
      NextKeeps(State(), NoBackend(r));
      failures := failures + 1;
      open := open[r := open[r].(phase := Finished)];
    }

    method Launch(ghost r: nat, at: nat, retry: bool)
      requires Valid() && Enabled(State(), Send(r, at)) && retry == open[r].phase.Retrying?
      modifies this, inflight
      ensures Valid() && State() == Next(old(State()), Send(r, at))
    {
      hide Balanced, Fair;
      NextKeeps(State(), Send(r, at));
      if retry {
        retried := retried + 1;
      }
      inflight[at] := inflight[at] + 1;
      open := open[r := open[r].(phase := Waiting, attempts := open[r].attempts + [Attempt(at, None)])];
    }

    /** The part of serveOnce() that decides whose fault a failed round trip was. */
    method Blame(at: nat, gaveUp: bool)
      requires Recorded() && at < |health|
      modifies this`abandoned, blamed, health[at]
      ensures Recorded()
      ensures abandoned == if gaveUp then old(abandoned) + 1 else old(abandoned)
      ensures blamed[..] == if gaveUp then old(blamed[..]) else old(blamed[..])[at := old(blamed[at]) + 1]
      ensures health[at].trace == if gaveUp then old(health[at].trace)
                                  else old(health[at].trace) + [Health.FailedAttempt]
    {
      Health.FailedAttemptsSnoc(health[at].trace, Health.FailedAttempt);
      if gaveUp {
        abandoned := abandoned + 1;
      } else {
        blamed[at] := blamed[at] + 1;
      }
      health[at].AfterAttempt(true, gaveUp);
    }

    /** A probe of one back end: no attempt, so no blame. */
    method Probe(at: nat, result: Option<Health.Report>, threshold: real, hysteresis: real)
      requires Valid() && at < |health| && health[at].limits == Health.Limits(threshold, hysteresis)
      modifies health[at]
      ensures Valid() && State() == old(State())
      ensures health[at].trace == old(health[at].trace)
                + [if result.Some? then Health.GoodProbe(Health.Raw(result.value)) else Health.BadProbe]
    {
      hide Balanced, Fair;
      match result
      case Some(report) =>
        Health.FailedAttemptsSnoc(health[at].trace, Health.GoodProbe(Health.Raw(report)));
        var switched := health[at].Probe(report, threshold, hysteresis);
      case None =>
        Health.FailedAttemptsSnoc(health[at].trace, Health.BadProbe);
        health[at].MarkFailure(Health.BadProbe);
    }

    /** finish(), for a request that ends with this outcome; a panic does not get there. */
    method Count(o: Outcome)
      modifies this`failures, this`succeeded, this`sampled, this`panicked
      ensures failures == old(failures) + (if o.RoundTripFailed? || (o.Served? && o.code >= 500) then 1 else 0)
      ensures succeeded == old(succeeded) + (if o.Served? && o.code < 500 then 1 else 0)
      ensures sampled == old(sampled) + (if o.Served? then 1 else 0)
      ensures panicked == old(panicked) + (if o.Panicked? then 1 else 0)
    {
      match o {
        case Panicked =>
          panicked := panicked + 1;
        case RoundTripFailed(_, _) =>
          failures := failures + 1;
        case Served(code, _) =>
          if code >= 500 {
            failures := failures + 1;
          } else {
            succeeded := succeeded + 1;
          }
          sampled := sampled + 1;
      }
    }

    /**
     The attempt is over, and the handler, from what it knows of its request,
     decides whether to try once more. The decrement is deferred, so a panic does
     not skip it.
     */
    method Land(ghost r: nat, at: nat, first: bool, replayable: bool, upgrade: bool, o: Outcome) returns (again: bool)
      requires Valid() && Enabled(State(), End(r, o)) && Last(open[r]).backend == at
      requires first == (|open[r].attempts| == 1) && replayable == open[r].replayable && upgrade == open[r].upgrade
      modifies this, inflight, blamed, health[at]
      ensures Valid() && State() == Next(old(State()), End(r, o))
      ensures r < |open| && again == open[r].phase.Retrying?
    {
      hide Balanced, Fair, Recorded;
      NextKeeps(State(), End(r, o));
      ghost var q := open[r];
      inflight[at] := inflight[at] - 1;
      if o.RoundTripFailed? {
        Blame(at, o.gaveUp);
      }
      again := o.RoundTripFailed? && first && !o.gaveUp && !o.wrote && replayable && !upgrade;
      if !again {
        Count(o);
      }
      open := open[r := q.(attempts := q.attempts[|q.attempts| - 1 := Last(q).(outcome := Some(o))],
                           phase := if again then Retrying else Finished)];
    }
  }
}
