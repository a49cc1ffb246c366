/**
 A message end to end: the balancer stamps an id and may send the request to a
 second back end; each back end queues it, the unique index decides, and the
 back end adds it to its feed before it answers.
 */
module Delivery {
  import opened Collections
  import opened EntryText
  import RoomSpec
  import WriteQueues
  import opened UniqueIndex

  type Id = string

  // -------------------------------------------------------------- The id used

  function TrimLeft(s: string): string {
    if s != "" && IsSpace(s[0]) then TrimLeft(s[1..]) else s
  }

  function TrimRight(s: string): string {
    if s != "" && IsSpace(s[|s| - 1]) then TrimRight(s[..|s| - 1]) else s
  }

  function Trim(s: string): string {
    TrimRight(TrimLeft(s))
  }

  /** The values of the id fields, in order of preference, in body, query string and header. */
  datatype Fields = Fields(body: seq<Option<string>>, query: seq<Option<string>>, header: Option<string>)

  /** The first value that is there and not the empty string. */
  function PickField(values: seq<Option<string>>): Option<string> {
    if values == [] then None
    else if values[0].Some? && values[0].value != "" then values[0]
    else PickField(values[1..])
  }

  /** What the router trims: body before query string before header. */
  function Candidate(f: Fields): string {
    match PickField(f.body)
    case Some(v) => v
    case None =>
      match PickField(f.query)
      case Some(v) => v
      case None => if f.header.Some? then f.header.value else ""
  }

  /** `uuid` is the UUID this back end would make up. */
  function ChooseId(f: Fields, uuid: Id): Id {
    if Trim(Candidate(f)) != "" then Trim(Candidate(f)) else uuid
  }

  /** The balancer sets the header only where there is none. */
  function Stamp(f: Fields, generated: Id): Fields {
    if f.header.None? || f.header.value == "" then f.(header := Some(generated)) else f
  }

  predicate Blank(s: string) {
    forall i :: 0 <= i < |s| ==> IsSpace(s[i])
  }

  lemma {:induction false} TrimLeftBlank(s: string)
    ensures TrimLeft(s) == "" <==> Blank(s)
    ensures TrimLeft(s) != "" ==> !IsSpace(TrimLeft(s)[0])
  {
    if s != "" {
      TrimLeftBlank(s[1..]);
      if IsSpace(s[0]) {
        assert Blank(s) <==> Blank(s[1..]) by {
          assert forall i :: 1 <= i < |s| ==> s[i] == s[1..][i - 1];
        }
      }
    }
  }

  lemma {:induction false} TrimRightKeeps(s: string)
    requires s != "" && !IsSpace(s[0])
    ensures TrimRight(s) != ""
  {
    if IsSpace(s[|s| - 1]) {
      TrimRightKeeps(s[..|s| - 1]);
    }
  }

  lemma TrimmedToNothing(s: string)
    ensures Trim(s) == "" <==> Blank(s)
  {
    TrimLeftBlank(s);
    if TrimLeft(s) != "" {
      TrimRightKeeps(TrimLeft(s));
    }
  }

  lemma {:induction false} TrimLeftSkips(a: string, s: string)
    requires Blank(a)
    ensures TrimLeft(a + s) == TrimLeft(s)
  {
    if a == "" {
      assert a + s == s;
    } else {
      assert (a + s)[1..] == a[1..] + s;
      TrimLeftSkips(a[1..], s);
    }
  }

  lemma {:induction false} TrimRightSkips(s: string, b: string)
    requires Blank(b)
    ensures TrimRight(s + b) == TrimRight(s)
  {
    if b == "" {
      assert s + b == s;
    } else {
      assert (s + b)[..|s + b| - 1] == s + b[..|b| - 1];
      TrimRightSkips(s, b[..|b| - 1]);
    }
  }

  /** A text with no white space at either end. */
  predicate Trimmed(s: string) {
    s != "" ==> !IsSpace(s[0]) && !IsSpace(s[|s| - 1])
  }

  /** Trimming takes off the white space at the ends and nothing else. */
  lemma TrimTakesOffTheEnds(a: string, s: string, b: string)
    requires Blank(a) && Blank(b) && Trimmed(s)
    ensures Trim(a + s + b) == s
  {
    if s == "" {
      TrimmedToNothing(a + s + b);
    } else {
      assert a + s + b == a + (s + b);
      TrimLeftSkips(a, s + b);
      TrimRightSkips(s, b);
    }
  }

  /**
   An id with no white space around it is used as it is, so different ids stay
   different messages.
   */
  lemma IdsStayDistinct(f1: Fields, f2: Fields, uuid1: Id, uuid2: Id)
    requires Trimmed(Candidate(f1)) && Candidate(f1) != "" && Trimmed(Candidate(f2)) && Candidate(f2) != ""
    ensures ChooseId(f1, uuid1) == Candidate(f1) && ChooseId(f2, uuid2) == Candidate(f2)
    ensures Candidate(f1) != Candidate(f2) ==> ChooseId(f1, uuid1) != ChooseId(f2, uuid2)
  {
    TrimTakesOffTheEnds("", Candidate(f1), "");
    TrimTakesOffTheEnds("", Candidate(f2), "");
    assert "" + Candidate(f1) + "" == Candidate(f1) && "" + Candidate(f2) + "" == Candidate(f2);
  }

  /**
   Two back ends given the same stamped request use the same id exactly when the
   value that reaches the router is not blank; otherwise each makes one up.
   */
  lemma SameIdEverywhere(f: Fields, generated: Id, uuid1: Id, uuid2: Id)
    requires uuid1 != uuid2
    ensures var stamped := Stamp(f, generated);
            ChooseId(stamped, uuid1) == ChooseId(stamped, uuid2) <==> !Blank(Candidate(stamped))
  {
    TrimmedToNothing(Candidate(Stamp(f, generated)));
  }

  /** The first of the values that is there and not empty. */
  lemma {:induction false} FirstFieldWins(values: seq<Option<string>>, i: nat)
    requires i < |values| && values[i].Some? && values[i].value != ""
    requires forall j :: 0 <= j < i ==> values[j].None? || values[j].value == ""
    ensures PickField(values) == values[i]
  {
    if i > 0 {
      FirstFieldWins(values[1..], i - 1);
    }
  }

  /**
   A caller's own id is used, whatever the balancer stamped: the first one in the
   body, or with none there the first one in the query string.
   */
  lemma CallerIdWins(f: Fields, generated: Id, uuid: Id, inBody: bool, i: nat)
    requires var values := if inBody then f.body else f.query;
             && i < |values| && values[i].Some? && !Blank(values[i].value)
             && forall j :: 0 <= j < i ==> values[j].None? || values[j].value == ""
    requires !inBody ==> PickField(f.body).None?
    ensures ChooseId(Stamp(f, generated), uuid) == Trim((if inBody then f.body else f.query)[i].value)
  {
    var values := if inBody then f.body else f.query;
    FirstFieldWins(values, i);
    TrimmedToNothing(values[i].value);
  }

  /** With no id of its own a request travels under the balancer's. */
  lemma StampedIdIsUsed(f: Fields, generated: Id, uuid: Id)
    requires PickField(f.body).None? && PickField(f.query).None?
    requires f.header.None? || f.header.value == ""
    ensures ChooseId(Stamp(f, generated), uuid) == if Blank(generated) then uuid else Trim(generated)
  {
    TrimmedToNothing(generated);
  }

  /** A caller's own header is left alone by the balancer, and used when body and query string name no id. */
  lemma OwnHeaderWins(f: Fields, generated: Id, uuid: Id)
    requires f.header.Some? && f.header.value != ""
    ensures Stamp(f, generated) == f
    ensures PickField(f.body).None? && PickField(f.query).None? ==>
              ChooseId(Stamp(f, generated), uuid) == if Blank(f.header.value) then uuid else Trim(f.header.value)
  {
    TrimmedToNothing(f.header.value);
  }

  // ------------------------------------------------------------------- System

  datatype Reply = Ok(duplicate: bool) | Unavailable

  /**
   `lost` says the balancer saw the round trip fail, before or after the back end answered;
   the back end carries on regardless.
   */
  datatype Attempt = Attempt(backend: nat, caller: nat, id: Id, lost: bool, reply: Option<Reply>)

  datatype Request = Request(fields: Fields, json: string, attempts: seq<Attempt>)

  datatype Feed = Feed(room: RoomSpec.Room, history: seq<RoomSpec.Entry>)

  datatype System = System(store: Store, feeds: seq<Feed>, requests: seq<Request>)

  datatype Event =
    | Database(step: Step)
    | Learn(backend: nat, id: Id, json: string)      // a feed hears of a message some other way
    | Accept(fields: Fields, generated: Id, json: string)
    | Forward(request: nat, backend: nat, uuid: Id)
    | Lose(request: nat)
    | Respond(request: nat, attempt: nat, verdict: WriteQueues.Verdict)

  /** A first attempt goes anywhere; a second only after the first was lost, and elsewhere. */
  predicate MayForward(r: Request, backend: nat) {
    r.attempts == [] || (|r.attempts| == 1 && r.attempts[0].lost && r.attempts[0].backend != backend)
  }

  function AddToFeed(f: Feed, id: Id, json: string): Feed
    requires RoomSpec.Holds(f.room, f.history)
  {
    Feed(RoomSpec.Push(f.room, id, json), RoomSpec.Pushed(f.room, f.history, id, json))
  }

  ghost predicate FeedsHold(feeds: seq<Feed>) {
    forall b :: 0 <= b < |feeds| ==> RoomSpec.Holds(feeds[b].room, feeds[b].history)
  }

  function Next(s: System, event: Event): System
    requires FeedsHold(s.feeds) && |s.feeds| == |s.store.queues|
  {
    match event
    case Database(step) => s.(store := UniqueIndex.Next(s.store, step))
    case Learn(b, id, json) =>
      if b < |s.feeds| then s.(feeds := s.feeds[b := AddToFeed(s.feeds[b], id, json)]) else s
    case Accept(fields, generated, json) =>
      s.(requests := s.requests + [Request(Stamp(fields, generated), json, [])])
    case Forward(r, b, uuid) =>
      if r < |s.requests| && b < |s.feeds| && MayForward(s.requests[r], b) then
        var id := ChooseId(s.requests[r].fields, uuid);
        var attempt := Attempt(b, |s.store.queues[b].arrivals|, id, false, None);
        s.(store := UniqueIndex.Next(s.store, Arrives(b, id)),
           requests := s.requests[r := s.requests[r].(attempts := s.requests[r].attempts + [attempt])])
      else s
    case Lose(r) =>
      if r < |s.requests| && |s.requests[r].attempts| == 1 then
        s.(requests := s.requests[r := s.requests[r].(attempts := [s.requests[r].attempts[0].(lost := true)])])
      else s
    case Respond(r, a, verdict) =>
      if r < |s.requests| && a < |s.requests[r].attempts| && s.requests[r].attempts[a].reply.None?
         && s.requests[r].attempts[a].backend < |s.feeds|
         && Told(s.store, s.requests[r].attempts[a].backend, s.requests[r].attempts[a].caller, verdict)
      then
        var attempt := s.requests[r].attempts[a];
        var reply := if verdict == WriteQueues.Rejected then Unavailable else Ok(verdict == WriteQueues.Duplicate);
        s.(feeds := if reply.Unavailable? then s.feeds
                    else s.feeds[attempt.backend :=
                      AddToFeed(s.feeds[attempt.backend], attempt.id, s.requests[r].json)],
           requests := s.requests[r := s.requests[r].(attempts :=
             s.requests[r].attempts[a := attempt.(reply := Some(reply))])])
      else s
  }

  // ---------------------------------------------------------------- Invariant

  ghost predicate AttemptOk(store: Store, f: Fields, a: Attempt) {
    && a.backend < |store.queues|
    && a.caller < |store.queues[a.backend].arrivals|
    && store.queues[a.backend].arrivals[a.caller] == a.id
    && (!Blank(Candidate(f)) ==> a.id == Trim(Candidate(f)))
    && (a.reply.Some? && a.reply.value.Ok? ==>
          && HasRow(store.rows, a.id)
          && Told(store, a.backend, a.caller,
                  if a.reply.value.duplicate then WriteQueues.Duplicate else WriteQueues.Stored))
  }

  ghost predicate RequestOk(store: Store, r: Request) {
    && |r.attempts| <= 2
    && (|r.attempts| == 2 ==> r.attempts[0].lost && r.attempts[0].backend != r.attempts[1].backend)
    && forall i :: 0 <= i < |r.attempts| ==> AttemptOk(store, r.fields, r.attempts[i])
  }

  ghost predicate SystemInv(s: System): (consistent: bool)
    ensures consistent ==> FeedsHold(s.feeds) && |s.feeds| == |s.store.queues|
  {
    && StoreInv(s.store)
    && |s.feeds| == |s.store.queues|
    && FeedsHold(s.feeds)
    && forall r :: 0 <= r < |s.requests| ==> RequestOk(s.store, s.requests[r])
  }

  function Start(backends: nat, maxBatch: nat, maxInFlight: nat, maxEntries: nat, trimAt: nat, chunkSize: nat): System
  {
    System(UniqueIndex.Start(backends, maxBatch, maxInFlight),
           seq(backends, _ => Feed(RoomSpec.EmptyRoom(maxEntries, trimAt, chunkSize), [])), [])
  }

  lemma StartKeeps(backends: nat, maxBatch: nat, maxInFlight: nat, maxEntries: nat, trimAt: nat, chunkSize: nat)
    requires maxBatch >= 1 && maxInFlight >= 1 && 1 <= maxEntries <= trimAt && chunkSize >= 1
    ensures SystemInv(Start(backends, maxBatch, maxInFlight, maxEntries, trimAt, chunkSize))
  {
    StartInv(backends, maxBatch, maxInFlight);
    RoomSpec.EmptyRoomInv(maxEntries, trimAt, chunkSize);
  }

  /** Rows, arrivals and answers are never taken back. */
  ghost predicate StoreGrows(s: Store, t: Store) {
    && s.rows <= t.rows
    && |s.queues| == |t.queues|
    && forall q :: 0 <= q < |s.queues| ==>
         s.queues[q].arrivals <= t.queues[q].arrivals && s.queues[q].settled <= t.queues[q].settled
  }

  lemma StepGrows(s: Store, step: Step)
    ensures StoreGrows(s, UniqueIndex.Next(s, step))
  {
    match step
    case Arrives(q, id) =>
      if q < |s.queues| {
        OnlyArrivals(s.queues[q], id);
      }
    case RunsCallback(q) =>
      if q < |s.queues| {
        OnlyArrivals(s.queues[q], "");
      }
    case _ =>
  }

  lemma AttemptStays(s: Store, t: Store, f: Fields, a: Attempt)
    requires AttemptOk(s, f, a) && StoreGrows(s, t)
    ensures AttemptOk(t, f, a)
  {
    if a.reply.Some? && a.reply.value.Ok? {
      var i :| 0 <= i < |s.rows| && s.rows[i].id == a.id;
      assert t.rows[i] == s.rows[i];
      var before, after := s.queues[a.backend].settled, t.queues[a.backend].settled;
      var told := WriteQueues.Settlement(a.caller,
        if a.reply.value.duplicate then WriteQueues.Duplicate else WriteQueues.Stored);
      var j :| 0 <= j < |before| && before[j] == told;
      assert after[j] == told;
    }
  }

  lemma RequestsStay(s: System, t: Store)
    requires SystemInv(s) && StoreGrows(s.store, t)
    ensures forall r :: 0 <= r < |s.requests| ==> RequestOk(t, s.requests[r])
  {
    forall r, i | 0 <= r < |s.requests| && 0 <= i < |s.requests[r].attempts|
      ensures AttemptOk(t, s.requests[r].fields, s.requests[r].attempts[i])
    {
      assert RequestOk(s.store, s.requests[r]);
      AttemptStays(s.store, t, s.requests[r].fields, s.requests[r].attempts[i]);
    }
  }

  lemma FeedTakes(feeds: seq<Feed>, b: nat, id: Id, json: string)
    requires FeedsHold(feeds) && b < |feeds|
    ensures FeedsHold(feeds[b := AddToFeed(feeds[b], id, json)])
    ensures id in AddToFeed(feeds[b], id, json).room.seen
  {
    RoomSpec.PushHolds(feeds[b].room, feeds[b].history, id, json);
  }

  lemma ForwardKeeps(s: System, r: nat, b: nat, uuid: Id)
    requires SystemInv(s) && r < |s.requests| && b < |s.feeds| && MayForward(s.requests[r], b)
    ensures SystemInv(Next(s, Forward(r, b, uuid)))
  {
    hide StoreInv, Blank, StoreGrows;
    var f := s.requests[r].fields;
    var id := ChooseId(f, uuid);
    var t := UniqueIndex.Next(s.store, Arrives(b, id));
    TrimmedToNothing(Candidate(f));
    UniqueIndex.NextKeeps(s.store, Arrives(b, id));
    StepGrows(s.store, Arrives(b, id));
    RequestsStay(s, t);
    ArrivalIsLast(s.store, b, id);
    assert AttemptOk(t, f, Attempt(b, |s.store.queues[b].arrivals|, id, false, None));
  }

  lemma ArrivalIsLast(s: Store, b: nat, id: Id)
    requires b < |s.queues|
    ensures var t := UniqueIndex.Next(s, Arrives(b, id));
            |t.queues| == |s.queues| && t.queues[b].arrivals == s.queues[b].arrivals + [id]
  {
    OnlyArrivals(s.queues[b], id);
  }

  lemma RespondKeeps(s: System, r: nat, a: nat, verdict: WriteQueues.Verdict)
    requires SystemInv(s)
    ensures SystemInv(Next(s, Respond(r, a, verdict)))
  {
    hide StoreInv, Blank, Told, HasRow;
    if Next(s, Respond(r, a, verdict)) != s {
      var request := s.requests[r];
      var attempt := request.attempts[a];
      assert RequestOk(s.store, request);
      if verdict != WriteQueues.Rejected {
        FeedTakes(s.feeds, attempt.backend, attempt.id, request.json);
        ResolvedMeansStored(s.store, attempt.backend, attempt.caller, verdict);
      }
      var reply := if verdict == WriteQueues.Rejected then Unavailable else Ok(verdict == WriteQueues.Duplicate);
      assert AttemptOk(s.store, request.fields, attempt.(reply := Some(reply)));
    }
  }

  lemma NextKeeps(s: System, event: Event)
    requires SystemInv(s)
    ensures SystemInv(Next(s, event))
  {
    match event
    case Database(step) =>
      UniqueIndex.NextKeeps(s.store, step);
      StepGrows(s.store, step);
      RequestsStay(s, UniqueIndex.Next(s.store, step));
    case Learn(b, id, json) =>
      if b < |s.feeds| {
        FeedTakes(s.feeds, b, id, json);
      }
    case Forward(r, b, uuid) =>
      if r < |s.requests| && b < |s.feeds| && MayForward(s.requests[r], b) {
        ForwardKeeps(s, r, b, uuid);
      }
    case Respond(r, a, verdict) => RespondKeeps(s, r, a, verdict);
    case _ =>
  }

  function Run(s: System, events: seq<Event>): System
    requires SystemInv(s)
    ensures SystemInv(Run(s, events))
    decreases |events|
  {
    if events == [] then s
    else
      NextKeeps(s, events[0]);
      Run(Next(s, events[0]), events[1..])
  }

  // ------------------------------------------------------------------ Promises

  /** Replaying a request does not repeat the message: one id, one row, one caller told it was new. */
  lemma ExactlyOnce(s: System, r: nat)
    requires SystemInv(s) && r < |s.requests| && !Blank(Candidate(s.requests[r].fields))
    ensures var id := Trim(Candidate(s.requests[r].fields));
            var attempts := s.requests[r].attempts;
            && |attempts| <= 2
            && (forall i :: 0 <= i < |attempts| ==> attempts[i].id == id)
            && (forall i, j :: 0 <= i < j < |attempts| ==> attempts[i].backend != attempts[j].backend)
            && (forall i, j :: 0 <= i < j < |s.store.rows| ==> s.store.rows[i].id != id || s.store.rows[j].id != id)
            && (forall i, j :: 0 <= i < j < |attempts| ==>
                  !(attempts[i].reply == Some(Ok(false)) && attempts[j].reply == Some(Ok(false))))
  {
    hide StoreInv, Blank, Told, HasRow;
    var request := s.requests[r];
    var attempts := request.attempts;
    assert RequestOk(s.store, request);
    assert forall i :: 0 <= i < |attempts| ==> AttemptOk(s.store, request.fields, attempts[i]);
    RowsAreUnique(s.store);
    if |attempts| == 2 && attempts[0].reply == Some(Ok(false)) && attempts[1].reply == Some(Ok(false)) {
      AtMostOneIsToldStored(s.store, attempts[0].backend, attempts[0].caller, attempts[1].backend, attempts[1].caller);
      assert false;
    }
  }

  lemma RowsAreUnique(s: Store)
    requires StoreInv(s)
    ensures OneRowPerId(s.rows)
  {}

  /** A 200 means the message is in the database, then and ever after. */
  lemma OkMeansStored(s: System, r: nat, a: nat, events: seq<Event>)
    requires SystemInv(s) && r < |s.requests| && a < |s.requests[r].attempts|
    requires s.requests[r].attempts[a].reply.Some? && s.requests[r].attempts[a].reply.value.Ok?
    ensures HasRow(Run(s, events).store.rows, s.requests[r].attempts[a].id)
    decreases |events|
  {
    hide StoreInv, Blank, Told;
    assert RequestOk(s.store, s.requests[r]);
    assert AttemptOk(s.store, s.requests[r].fields, s.requests[r].attempts[a]);
    RowsOnlyGrow(s, events);
    var i :| 0 <= i < |s.store.rows| && s.store.rows[i].id == s.requests[r].attempts[a].id;
    assert Run(s, events).store.rows[i] == s.store.rows[i];
  }

  lemma {:induction false} RowsOnlyGrow(s: System, events: seq<Event>)
    requires SystemInv(s)
    ensures s.store.rows <= Run(s, events).store.rows
    decreases |events|
  {
    if events != [] {
      hide SystemInv, StoreInv;
      NextKeeps(s, events[0]);
      NextGrows(s, events[0]);
      RowsOnlyGrow(Next(s, events[0]), events[1..]);
    }
  }

  lemma NextGrows(s: System, event: Event)
    requires SystemInv(s)
    ensures s.store.rows <= Next(s, event).store.rows
  {
    match event
    case Database(step) => StepGrows(s.store, step);
    case Forward(r, b, uuid) =>
      if r < |s.requests| && b < |s.feeds| {
        StepGrows(s.store, Arrives(b, ChooseId(s.requests[r].fields, uuid)));
      }
    case _ =>
  }

  /** When a back end answers 200, whoever asks that back end for the feed next is shown the message. */
  lemma AnswerIsInTheFeed(s: System, r: nat, a: nat, verdict: WriteQueues.Verdict)
    requires SystemInv(s) && r < |s.requests| && a < |s.requests[r].attempts|
    requires s.requests[r].attempts[a].reply.None? && verdict != WriteQueues.Rejected
    requires Told(s.store, s.requests[r].attempts[a].backend, s.requests[r].attempts[a].caller, verdict)
    ensures var attempt := s.requests[r].attempts[a];
            var t := Next(s, Respond(r, a, verdict));
            && r < |t.requests| && a < |t.requests[r].attempts| && attempt.backend < |t.feeds|
            && t.requests[r].attempts[a].reply == Some(Ok(verdict == WriteQueues.Duplicate))
            && attempt.id in t.feeds[attempt.backend].room.ids
            && HasRow(t.store.rows, attempt.id)
  {
    hide StoreInv, Blank, Told, HasRow;
    var attempt := s.requests[r].attempts[a];
    assert RequestOk(s.store, s.requests[r]);
    assert AttemptOk(s.store, s.requests[r].fields, attempt);
    FeedTakes(s.feeds, attempt.backend, attempt.id, s.requests[r].json);
    ResolvedMeansStored(s.store, attempt.backend, attempt.caller, verdict);
  }

  ghost predicate Pushed(before: Feed, after: Feed, id: Id, json: string) {
    after.history == before.history + (if id in before.room.seen then [] else [RoomSpec.Entry(id, json)])
  }

  /** What the answering back end pushes, unless it holds the id, is the text of this request; no other feed changes. */
  lemma AnswerAddsTheMessage(s: System, r: nat, a: nat, verdict: WriteQueues.Verdict)
    requires FeedsHold(s.feeds) && |s.feeds| == |s.store.queues|
    requires r < |s.requests| && a < |s.requests[r].attempts| && verdict != WriteQueues.Rejected
    requires s.requests[r].attempts[a].reply.None? && s.requests[r].attempts[a].backend < |s.feeds|
    requires Told(s.store, s.requests[r].attempts[a].backend, s.requests[r].attempts[a].caller, verdict)
    ensures var t, b := Next(s, Respond(r, a, verdict)), s.requests[r].attempts[a].backend;
            && |t.feeds| == |s.feeds| && t.store == s.store
            && Pushed(s.feeds[b], t.feeds[b], s.requests[r].attempts[a].id, s.requests[r].json)
            && forall other :: 0 <= other < |s.feeds| && other != b ==> t.feeds[other] == s.feeds[other]
  {
    hide Told, FeedsHold;
  }

  /** A new request holds the text and the fields it came with; only a header it lacked is added. */
  lemma AcceptedAsSent(s: System, fields: Fields, generated: Id, json: string)
    requires FeedsHold(s.feeds) && |s.feeds| == |s.store.queues|
    ensures var t, own := Next(s, Accept(fields, generated, json)), fields.header.Some? && fields.header.value != "";
            && |t.requests| == |s.requests| + 1 && t.requests[..|s.requests|] == s.requests
            && t.requests[|s.requests|].json == json && t.requests[|s.requests|].attempts == []
            && t.requests[|s.requests|].fields
               == Fields(fields.body, fields.query, if own then fields.header else Some(generated))
  {
    hide FeedsHold;
  }

  /** Over any run a request keeps its text and its fields, so every attempt at it sends the same message. */
  lemma {:induction false} RequestsKeepTheirMessage(s: System, events: seq<Event>, r: nat)
    requires SystemInv(s) && r < |s.requests|
    ensures SystemInv(Run(s, events)) && r < |Run(s, events).requests|
    ensures Run(s, events).requests[r].json == s.requests[r].json
    ensures Run(s, events).requests[r].fields == s.requests[r].fields
    decreases |events|
  {
    hide StoreInv, RequestOk, Told, UniqueIndex.Next, ChooseId;
    if events != [] {
      NextKeeps(s, events[0]);
      RequestsKeepTheirMessage(Next(s, events[0]), events[1..], r);
    }
  }

  /** What the change stream or a resync reports goes into that one feed, unless it holds the id. */
  lemma HeardOfIsAdded(s: System, b: nat, id: Id, json: string)
    requires FeedsHold(s.feeds) && |s.feeds| == |s.store.queues| && b < |s.feeds|
    ensures var t := Next(s, Learn(b, id, json));
            && |t.feeds| == |s.feeds| && t.store == s.store && t.requests == s.requests
            && Pushed(s.feeds[b], t.feeds[b], id, json) && id in t.feeds[b].room.seen
            && forall other :: 0 <= other < |s.feeds| && other != b ==> t.feeds[other] == s.feeds[other]
  {
    FeedTakes(s.feeds, b, id, json);
    hide FeedsHold;
  }

  /** A caller whose document was refused for another reason gets a 503, and no feed hears of it. */
  lemma RefusedIsUnavailable(s: System, r: nat, a: nat)
    requires SystemInv(s) && r < |s.requests| && a < |s.requests[r].attempts|
    requires s.requests[r].attempts[a].reply.None?
    requires Told(s.store, s.requests[r].attempts[a].backend, s.requests[r].attempts[a].caller, WriteQueues.Rejected)
    ensures var t := Next(s, Respond(r, a, WriteQueues.Rejected));
            && r < |t.requests| && a < |t.requests[r].attempts|
            && t.requests[r].attempts[a].reply == Some(Unavailable)
            && t.feeds == s.feeds && t.store == s.store
  {
    hide StoreInv, Told, Blank;
    assert RequestOk(s.store, s.requests[r]);
    assert AttemptOk(s.store, s.requests[r].fields, s.requests[r].attempts[a]);
  }

  /**
   A replay is made exactly once, of a request whose only attempt was lost, and at
   another back end; the copy queued there carries the id chosen for it.
   */
  lemma ReplayRule(s: System, r: nat, b: nat, uuid: Id)
    requires SystemInv(s) && r < |s.requests| && b < |s.feeds|
    ensures var t, q := Next(s, Forward(r, b, uuid)), s.requests[r];
            && (t != s <==> q.attempts == []
                            || (|q.attempts| == 1 && q.attempts[0].lost && q.attempts[0].backend != b))
            && (t != s ==> t.store.queues[b].arrivals == s.store.queues[b].arrivals + [ChooseId(q.fields, uuid)]
                           && t.requests[r].attempts == q.attempts
                              + [Attempt(b, |s.store.queues[b].arrivals|, ChooseId(q.fields, uuid), false, None)])
  {
    hide StoreInv, ChooseId, RequestOk, FeedsHold;
    ArrivalIsLast(s.store, b, ChooseId(s.requests[r].fields, uuid));
    if MayForward(s.requests[r], b) {
      assert |Next(s, Forward(r, b, uuid)).requests[r].attempts| == |s.requests[r].attempts| + 1;
    }
  }

  // ------------------------------------------------------------ A blank id

  lemma RunOne(s: System, a: Event, rest: seq<Event>)
    requires SystemInv(s)
    ensures SystemInv(Next(s, a)) && Run(s, [a] + rest) == Run(Next(s, a), rest)
  {
    hide Next;
    NextKeeps(s, a);
    assert ([a] + rest)[1..] == rest;
  }

  /** A request goes to back end 0, is lost there, and is sent again to back end 1; each writes what it was sent. */
  function Replayed(fields: Fields, generated: Id, json: string, first: Id, second: Id): seq<Event> {
    [Accept(fields, generated, json)] + ([Forward(0, 0, first)] + ([Database(RunsCallback(0))] + ([Lose(0)]
    + ([Forward(0, 1, second)] + ([Database(RunsCallback(1))] + Written())))))
  }

  function Written(): seq<Event> {
    [Database(Applies(0, 0, 0, None))] + ([Database(Applies(1, 0, 0, None))] + [])
  }

  /** A queue that was sent one document, once its callback, if one was scheduled, has run. */
  function AfterOne(q: WriteQueues.Queue, id: Id): WriteQueues.Queue {
    var longer := WriteQueues.Insert(q, id);
    if longer.ticks > 0 then WriteQueues.Tick(longer) else longer
  }

  lemma SentAtOnce(maxBatch: nat, maxInFlight: nat, id: Id)
    requires maxBatch >= 1 && maxInFlight >= 1
    ensures AfterOne(WriteQueues.EmptyQueue(maxBatch, maxInFlight), id).sent
            == [WriteQueues.Sent([WriteQueues.Item(id, 0)], false)]
  {
    var q := WriteQueues.Joined(WriteQueues.EmptyQueue(maxBatch, maxInFlight), id);
    assert q.pending == [WriteQueues.Item(id, 0)] && q.pending[..1] == q.pending;
  }

  /** The state in which both back ends have a bulk write with their copy at the database. */
  ghost predicate BothSent(s: System, first: Id, second: Id) {
    && s.store.rows == [] && s.store.results == map[] && |s.store.queues| == 2
    && s.store.queues[0].sent == [WriteQueues.Sent([WriteQueues.Item(first, 0)], false)]
    && s.store.queues[1].sent == [WriteQueues.Sent([WriteQueues.Item(second, 0)], false)]
  }

  lemma AfterTwoForwards(s: System, empty: WriteQueues.Queue, fields: Fields, generated: Id, json: string,
                         first: Id, second: Id)
    returns (t: System)
    requires SystemInv(s) && s.requests == [] && s.store == Store([], [empty, empty], map[])
    requires exists mb: nat, mi: nat :: mb >= 1 && mi >= 1 && empty == WriteQueues.EmptyQueue(mb, mi)
    requires Blank(Candidate(Stamp(fields, generated)))
    ensures SystemInv(t) && BothSent(t, first, second)
    ensures Run(s, Replayed(fields, generated, json, first, second)) == Run(t, Written())
  {
    hide SystemInv, Run, Blank, ChooseId, Written, WriteQueues.Insert, WriteQueues.Tick;
    var mb: nat, mi: nat :| mb >= 1 && mi >= 1 && empty == WriteQueues.EmptyQueue(mb, mi);
    BlankIsReplaced(fields, generated, first);
    BlankIsReplaced(fields, generated, second);
    SentAtOnce(mb, mi, first);
    SentAtOnce(mb, mi, second);
    var e5 := [Database(RunsCallback(1))] + Written();
    var e4 := [Forward(0, 1, second)] + e5;
    var e3 := [Lose(0)] + e4;
    var e2 := [Database(RunsCallback(0))] + e3;
    RunOne(s, Accept(fields, generated, json), [Forward(0, 0, first)] + e2);
    var s1 := Next(s, Accept(fields, generated, json));
    RunOne(s1, Forward(0, 0, first), e2);
    var s2 := Next(s1, Forward(0, 0, first));
    RunOne(s2, Database(RunsCallback(0)), e3);
    var s3 := Next(s2, Database(RunsCallback(0)));
    assert s3.store.queues == [AfterOne(empty, first), empty];
    RunOne(s3, Lose(0), e4);
    var s4 := Next(s3, Lose(0));
    RunOne(s4, Forward(0, 1, second), e5);
    var s5 := Next(s4, Forward(0, 1, second));
    RunOne(s5, Database(RunsCallback(1)), Written());
    t := Next(s5, Database(RunsCallback(1)));
    assert t.store.queues == [AfterOne(empty, first), AfterOne(empty, second)];
  }

  lemma BlankIsReplaced(fields: Fields, generated: Id, uuid: Id)
    requires Blank(Candidate(Stamp(fields, generated)))
    ensures ChooseId(Stamp(fields, generated), uuid) == uuid
  {
    TrimmedToNothing(Candidate(Stamp(fields, generated)));
  }

  /** With a blank id the balancer's one replay stores the message twice, whatever the configuration. */
  lemma BlankIdIsStoredTwice(fields: Fields, generated: Id, json: string, first: Id, second: Id,
                             maxBatch: nat, maxInFlight: nat, maxEntries: nat, trimAt: nat, chunkSize: nat)
    requires Blank(Candidate(Stamp(fields, generated))) && first != second
    requires maxBatch >= 1 && maxInFlight >= 1 && 1 <= maxEntries <= trimAt && chunkSize >= 1
    ensures SystemInv(Start(2, maxBatch, maxInFlight, maxEntries, trimAt, chunkSize))
    ensures Run(Start(2, maxBatch, maxInFlight, maxEntries, trimAt, chunkSize),
                Replayed(fields, generated, json, first, second)).store.rows
            == [Row(first, Of(0, 0)), Row(second, Of(1, 0))]
  {
    hide SystemInv, Run, Blank, ChooseId, Replayed;
    StartKeeps(2, maxBatch, maxInFlight, maxEntries, trimAt, chunkSize);
    var s, empty := Start(2, maxBatch, maxInFlight, maxEntries, trimAt, chunkSize),
                    WriteQueues.EmptyQueue(maxBatch, maxInFlight);
    assert s.store.queues == [empty, empty];
    var t := AfterTwoForwards(s, empty, fields, generated, json, first, second);
    RunOne(t, Database(Applies(0, 0, 0, None)), [Database(Applies(1, 0, 0, None))] + []);
    var u := Next(t, Database(Applies(0, 0, 0, None)));
    RunOne(u, Database(Applies(1, 0, 0, None)), []);
    assert u.store.rows == [Row(first, Of(0, 0))];
    RunNone(Next(u, Database(Applies(1, 0, 0, None))));
  }

  lemma RunNone(s: System)
    requires SystemInv(s)
    ensures Run(s, []) == s
  {}
}
