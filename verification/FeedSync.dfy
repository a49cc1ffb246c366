/**
 How one back end hears about the other back ends' messages: the startup read,
 the change stream with its resume token, and the resync that re-reads the room.
 The database is the log of inserts the change stream reports.
 */
module FeedSync {
  import opened Collections
  import opened RoomSpec
  import opened RoomLog

  /**
   A resync in progress: the newest room documents its query returned, newest
   first, how many of them have been prepared, what preparing kept, and how much
   of that, oldest first, has been pushed. `reopened` records a stream opened
   with no token since the query was answered.
   */
  datatype Resync =
    | Idle
    | Opened
    | Reading(found: seq<Doc>, done: nat, kept: seq<Entry>, reopened: bool)
    | Pushing(queue: seq<Entry>, pushed: nat, reopened: bool)

  /**
   `position` is how many inserts the open stream has been past, or the last one
   was when it broke.
   */
  datatype Sync = Sync(
    log: seq<Doc>,
    room: Room,
    history: seq<Entry>,
    open: bool,
    position: nat,
    token: Option<nat>,
    resync: Resync)

  /** Every id ever pushed, held or since dropped. */
  function Ever(history: seq<Entry>): set<Id> {
    Elements(Ids(history))
  }

  /** What the stream will never deliver and the feed was never given. */
  function Missing(s: Sync): set<Id> {
    set i | 0 <= i < |s.log| && i < s.position && s.log[i].ours && s.log[i].id !in Ever(s.history) :: s.log[i].id
  }

  function PushDoc(s: Sync, id: Id, json: string): Sync
    requires s.room.maxEntries <= s.room.trimAt && |s.room.ids| == |s.room.entries|
  {
    s.(room := Push(s.room, id, json), history := Pushed(s.room, s.history, id, json))
  }

  datatype Event =
    | Insert(doc: Doc)              // any back end writes a document
    | AddLocal(id: Id, json: string)  // this back end adds what it has just written
    | Deliver                       // the stream reports the next insert
    | Break                         // the stream fails, and will be reopened
    | Reopen                        // watch()
    | StartResync                   // resync(): forget the token, open the stream
    | Query                         // the resync's query is answered
    | Prepare                       // it decrypts the next document, unless its id is held
    | PushNext                      // it pushes the next one it kept

  function MarkReopened(r: Resync): Resync {
    match r
    case Idle => Idle
    case Opened => Opened
    case Reading(found, done, kept, _) => Reading(found, done, kept, true)
    case Pushing(queue, pushed, _) => Pushing(queue, pushed, true)
  }

  /** watch(): resume after the token, or start at the present moment. */
  function Watch(s: Sync): Sync {
    if s.token.Some? then s.(open := true, position := s.token.value)
    else s.(open := true, position := |s.log|, resync := MarkReopened(s.resync))
  }

  function Next(s: Sync, event: Event): Sync
    requires s.room.maxEntries <= s.room.trimAt && |s.room.ids| == |s.room.entries|
  {
    match event
    case Insert(doc) =>
      if exists i :: 0 <= i < |s.log| && (s.log[i].id == doc.id || s.log[i].key == doc.key) then s
      else s.(log := s.log + [doc])
    case AddLocal(id, json) => PushDoc(s, id, json)
    case Deliver =>
      if !s.open || s.position >= |s.log| then s
      else
        var doc := s.log[s.position];
        var t := s.(position := s.position + 1, token := Some(s.position + 1));
        if doc.ours then PushDoc(t, doc.id, doc.json) else t
    case Break => s.(open := false)
    case Reopen => if s.open then s else Watch(s)
    case StartResync => Watch(s.(token := None, resync := Idle)).(resync := Opened)
    case Query =>
      if !s.resync.Opened? then s
      else s.(resync := Reading(Newest(s.log, s.room.maxEntries), 0, [], false))
    case Prepare =>
      if !s.resync.Reading? then s
      else if s.resync.done < |s.resync.found| then
        var doc := s.resync.found[s.resync.done];
        var kept := if doc.id in s.room.seen then s.resync.kept else s.resync.kept + [Entry(doc.id, doc.json)];
        s.(resync := s.resync.(done := s.resync.done + 1, kept := kept))
      else s.(resync := Pushing(Reversed(s.resync.kept), 0, s.resync.reopened))
    case PushNext =>
      if !s.resync.Pushing? then s
      else if s.resync.pushed < |s.resync.queue| then
        var e := s.resync.queue[s.resync.pushed];
        PushDoc(s, e.id, e.json).(resync := s.resync.(pushed := s.resync.pushed + 1))
      else s.(resync := Idle)
  }

  // --------------------------------------------------------------- Invariant

  /** The documents a resync has still to account for: found and not prepared, or kept and not pushed. */
  ghost predicate Accounted(s: Sync, id: Id) {
    match s.resync
    case Idle => id in Ever(s.history)
    case Opened => true
    case Reading(found, done, kept, _) =>
      || id in Ever(s.history)
      || (exists i :: done <= i < |found| && found[i].id == id)
      || (exists i :: 0 <= i < |kept| && kept[i].id == id)
    case Pushing(queue, pushed, _) =>
      || id in Ever(s.history)
      || (exists i :: pushed <= i < |queue| && queue[i].id == id)
  }

  ghost predicate Inv(s: Sync): (consistent: bool)
    ensures consistent ==> s.room.maxEntries <= s.room.trimAt && |s.room.ids| == |s.room.entries|
  {
    && Holds(s.room, s.history)
    && Unique(s.log)
    && s.position <= |s.log|
    && (s.token.Some? ==> s.token.value == s.position)
    && s.room.seen <= Ever(s.history)
    && (s.resync.Reading? ==> s.resync.done <= |s.resync.found|)
    && (s.resync.Pushing? ==> s.resync.pushed <= |s.resync.queue|)
  }

  /**
   Once the query of a resync is answered for a room that fits the cap, and until a
   stream is opened without a token, whatever is missing is still in its hands.
   */
  ghost predicate InHand(s: Sync) {
    (s.resync.Reading? || s.resync.Pushing?) && !s.resync.reopened ==>
      forall id :: id in Missing(s) ==> Accounted(s, id)
  }

  lemma PushDocKeeps(s: Sync, id: Id, json: string)
    requires Inv(s)
    ensures Inv(PushDoc(s, id, json))
    ensures Missing(PushDoc(s, id, json)) <= Missing(s)
  {
    PushHolds(s.room, s.history, id, json);
    PushedIds(s.room, s.history, id, json);
  }

  lemma PushedIds(r: Room, history: seq<Entry>, id: Id, json: string)
    requires Holds(r, history)
    ensures Ever(Pushed(r, history, id, json)) == Ever(history) + {id}
    ensures Push(r, id, json).seen <= r.seen + {id}
  {
    if id in r.seen {
      var k :| 0 <= k < |r.ids| && r.ids[k] == id;
      assert Ids(history)[r.dropped + k] == id;
    } else {
      assert Ids(history + [Entry(id, json)]) == Ids(history) + [id];
    }
  }

  lemma NextKeeps(s: Sync, event: Event)
    requires Inv(s)
    ensures Inv(Next(s, event))
  {
    match event
    case AddLocal(id, json) => PushDocKeeps(s, id, json);
    case Deliver =>
      if s.open && s.position < |s.log| && s.log[s.position].ours {
        var t := s.(position := s.position + 1, token := Some(s.position + 1));
        PushDocKeeps(t, s.log[s.position].id, s.log[s.position].json);
      }
    case PushNext =>
      if s.resync.Pushing? && s.resync.pushed < |s.resync.queue| {
        PushDocKeeps(s, s.resync.queue[s.resync.pushed].id, s.resync.queue[s.resync.pushed].json);
      }
    case _ =>
  }

  // ------------------------------------------------------------- What is lost

  /** The stream is about to be opened with nothing to resume from. */
  predicate OpensBlind(s: Sync, event: Event) {
    event.StartResync? || (event.Reopen? && !s.open && s.token.None?)
  }

  /** Delivery, local adds, breaks, resumption and every step of a resync but its first lose nothing. */
  lemma NothingIsLost(s: Sync, event: Event)
    requires Inv(s) && !OpensBlind(s, event)
    ensures Missing(Next(s, event)) <= Missing(s)
  {
    match event
    case AddLocal(id, json) => PushDocKeeps(s, id, json);
    case Deliver =>
      if s.open && s.position < |s.log| && s.log[s.position].ours {
        DeliveredIsPushed(s);
      }
    case PushNext =>
      if s.resync.Pushing? && s.resync.pushed < |s.resync.queue| {
        PushDocKeeps(s, s.resync.queue[s.resync.pushed].id, s.resync.queue[s.resync.pushed].json);
      }
    case _ =>
  }

  lemma DeliveredIsPushed(s: Sync)
    requires Inv(s) && s.position < |s.log| && s.log[s.position].ours
    ensures var t := s.(position := s.position + 1, token := Some(s.position + 1));
            Missing(PushDoc(t, s.log[s.position].id, s.log[s.position].json)) <= Missing(s)
  {
    PushedIds(s.room, s.history, s.log[s.position].id, s.log[s.position].json);
  }

  /** The documents an open with no token skips. */
  function Skipped(s: Sync): set<Id> {
    set i | 0 <= i < |s.log| && s.position <= i && s.log[i].ours && s.log[i].id !in Ever(s.history) :: s.log[i].id
  }

  /**
   Exactly what a blind open loses: the room's documents written since the old position
   that nobody else added.
   */
  lemma BlindOpenLosesTheGap(s: Sync, event: Event)
    requires Inv(s) && OpensBlind(s, event)
    ensures Missing(Next(s, event)) == Missing(s) + Skipped(s)
    ensures Missing(Next(s, event)) <= Missing(s) <==> Skipped(s) == {}
  {
    assert forall id :: id in Skipped(s) ==> id !in Missing(s);
  }

  // ------------------------------------------------------------------ Resync

  lemma KeptIsQueued(kept: seq<Entry>, id: Id, i: nat)
    requires i < |kept| && kept[i].id == id
    ensures exists j :: 0 <= j < |Reversed(kept)| && Reversed(kept)[j].id == id
  {
    ReversedElements(kept, kept[i]);
    var j :| 0 <= j < |Reversed(kept)| && Reversed(kept)[j] == kept[i];
  }

  lemma InHandKept(s: Sync, event: Event)
    requires Inv(s) && InHand(s)
    requires event.Query? ==> |Ours(s.log)| <= s.room.maxEntries
    ensures InHand(Next(s, event))
  {
    NextKeeps(s, event);
    var t := Next(s, event);
    if (t.resync.Reading? || t.resync.Pushing?) && !t.resync.reopened {
      if !OpensBlind(s, event) {
        NothingIsLost(s, event);
      }
      forall id | id in Missing(t)
        ensures Accounted(t, id)
      {
        StillAccounted(s, event, id);
      }
    }
  }

  lemma StillAccounted(s: Sync, event: Event, id: Id)
    requires Inv(s) && InHand(s)
    requires event.Query? ==> |Ours(s.log)| <= s.room.maxEntries
    requires var t := Next(s, event);
             (t.resync.Reading? || t.resync.Pushing?) && !t.resync.reopened && id in Missing(t)
    requires !OpensBlind(s, event) ==> id in Missing(s)
    ensures Accounted(Next(s, event), id)
  {
    hide Push, Holds, Unique, Ever, Ours;
    var t := Next(s, event);
    if event.Query? && s.resync.Opened? {
      var i :| 0 <= i < |s.log| && s.log[i].ours && s.log[i].id == id;
      LatestHasEveryone(s.log, s.room.maxEntries, i);
      ReversedElements(Latest(s.log, s.room.maxEntries), s.log[i]);
    } else if event.Prepare? && s.resync.Reading? {
      if s.resync.done < |s.resync.found| {
        PrepareAccounts(s, id);
      } else if i :| 0 <= i < |s.resync.kept| && s.resync.kept[i].id == id {
        KeptIsQueued(s.resync.kept, id, i);
      }
    } else if event.PushNext? && s.resync.Pushing? {
      assert Accounted(s, id);
      if s.resync.pushed < |s.resync.queue| {
        var e := s.resync.queue[s.resync.pushed];
        PushedIds(s.room, s.history, e.id, e.json);
      }
    } else if !OpensBlind(s, event) {
      assert Accounted(s, id);
    }
  }

  lemma PrepareAccounts(s: Sync, id: Id)
    requires Inv(s) && s.resync.Reading? && s.resync.done < |s.resync.found|
    requires Accounted(s, id)
    ensures Accounted(Next(s, Prepare), id)
  {
    var r, t := s.resync, Next(s, Prepare);
    if id !in Ever(s.history) {
      if i :| 0 <= i < |r.kept| && r.kept[i].id == id {
        assert t.resync.kept[i].id == id;
      } else {
        var i :| r.done <= i < |r.found| && r.found[i].id == id;
        if i == r.done {
          assert t.resync.kept[|r.kept|].id == id;
        } else {
          assert t.resync.found[i].id == id;
        }
      }
    }
  }

  /** A resync of a room that fits the cap, with no blind reopen after its query, leaves nothing missing. */
  lemma CompletedResyncLosesNothing(s: Sync)
    requires Inv(s) && InHand(s)
    requires s.resync.Pushing? && s.resync.pushed == |s.resync.queue| && !s.resync.reopened
    ensures Next(s, PushNext).resync.Idle?
    ensures Missing(Next(s, PushNext)) == {}
  {
    assert Next(s, PushNext) == s.(resync := Idle);
    assert forall id :: id in Missing(s) ==> Accounted(s, id);
    assert forall id :: id in Missing(s) ==> id !in Ever(s.history);
    assert Missing(s) == {};
  }

  /**
   With nothing missing, a stream that has caught up and no trim so far, every document of
   the room is held.
   */
  lemma CaughtUpFeedIsComplete(s: Sync, i: nat)
    requires Inv(s) && Missing(s) == {} && s.position == |s.log| && s.room.dropped == 0
    requires i < |s.log| && s.log[i].ours
    ensures s.log[i].id in s.room.seen
  {
    var id := s.log[i].id;
    assert id in Ever(s.history) || id in Missing(s);
    assert s.history[0..] == s.history;
  }

  // --------------------------------------------------------------------- Runs

  function Run(s: Sync, events: seq<Event>): Sync
    requires Inv(s)
    ensures Inv(Run(s, events))
    decreases |events|
  {
    if events == [] then s
    else
      NextKeeps(s, events[0]);
      Run(Next(s, events[0]), events[1..])
  }

  lemma LogGrows(s: Sync, event: Event)
    requires Inv(s)
    ensures |Ours(s.log)| <= |Ours(Next(s, event).log)|
    ensures Next(s, event).room.maxEntries == s.room.maxEntries
  {
    match event
    case Insert(doc) => assert (s.log + [doc])[..|s.log|] == s.log;
    case _ =>
  }

  lemma {:induction false} RunGrows(s: Sync, events: seq<Event>)
    requires Inv(s)
    ensures |Ours(s.log)| <= |Ours(Run(s, events).log)|
    ensures Run(s, events).room.maxEntries == s.room.maxEntries
    decreases |events|
  {
    if events != [] {
      NextKeeps(s, events[0]);
      LogGrows(s, events[0]);
      RunGrows(Next(s, events[0]), events[1..]);
    }
  }

  /** Over any run in which the room fits the cap, a resync keeps everything missing in hand. */
  lemma {:induction false} RunKeepsInHand(s: Sync, events: seq<Event>)
    requires Inv(s) && InHand(s)
    requires |Ours(Run(s, events).log)| <= s.room.maxEntries
    ensures InHand(Run(s, events))
    decreases |events|
  {
    if events != [] {
      RunGrows(s, events);
      InHandKept(s, events[0]);
      NextKeeps(s, events[0]);
      LogGrows(s, events[0]);
      RunKeepsInHand(Next(s, events[0]), events[1..]);
    }
  }

  /**
   From any state with nothing in hand, such as the first, a resync that runs to
   its end while the room fits the cap and no stream is opened blind after its query
   leaves nothing missing, whatever else happens meanwhile.
   */
  lemma ResyncRecoversEverything(s: Sync, events: seq<Event>)
    requires Inv(s) && InHand(s)
    requires var t := Run(s, events);
             && |Ours(t.log)| <= s.room.maxEntries
             && t.resync.Pushing? && t.resync.pushed == |t.resync.queue| && !t.resync.reopened
    ensures Missing(Run(Run(s, events), [PushNext])) == {}
  {
    hide Missing, InHand;
    var t := Run(s, events);
    RunKeepsInHand(s, events);
    CompletedResyncLosesNothing(t);
    assert [PushNext][1..] == [];
    NextKeeps(t, PushNext);
    assert Run(t, [PushNext]) == Run(Next(t, PushNext), []);
  }

  ghost predicate NeverOpensBlind(s: Sync, events: seq<Event>)
    requires Inv(s)
    decreases |events|
  {
    events == [] ||
    (!OpensBlind(s, events[0])
     && (NextKeeps(s, events[0]); NeverOpensBlind(Next(s, events[0]), events[1..])))
  }

  /** Breaks and resumptions, however many, lose nothing: only a blind open can. */
  lemma {:induction false} ResumptionLosesNothing(s: Sync, events: seq<Event>)
    requires Inv(s) && NeverOpensBlind(s, events)
    ensures Missing(Run(s, events)) <= Missing(s)
    decreases |events|
  {
    hide Missing;
    if events != [] {
      NextKeeps(s, events[0]);
      NothingIsLost(s, events[0]);
      ResumptionLosesNothing(Next(s, events[0]), events[1..]);
    }
  }

  /** The step a resync takes next, and how many it has still to take at most. */
  function OwnStep(r: Resync): Event
    requires !r.Idle?
  {
    match r
    case Opened => Query
    case Reading(_, _, _, _) => Prepare
    case Pushing(_, _, _) => PushNext
  }

  function StepsLeft(r: Resync, max: nat): int {
    match r
    case Idle => 0
    case Opened => 2 * max + 3
    case Reading(found, done, kept, _) => 2 * (|found| - done) + |kept| + 2
    case Pushing(queue, pushed, _) => |queue| - pushed + 1
  }

  /** A resync of a room with a given cap is over after that many steps. */
  lemma ResyncGoesOn(s: Sync)
    requires Inv(s) && !s.resync.Idle?
    ensures var t := Next(s, OwnStep(s.resync));
            0 <= StepsLeft(t.resync, s.room.maxEntries) < StepsLeft(s.resync, s.room.maxEntries)
  {
    hide Push, Latest, Reversed, Missing;
    LatestRises(s.log, s.room.maxEntries);
    ReversedEach(Latest(s.log, s.room.maxEntries));
    if s.resync.Reading? {
      ReversedEach(s.resync.kept);
    }
  }

  // -------------------------------------------------------------------- Order

  /**
   What a resync has in hand, kept or still to be prepared, is in key order: highest first
   as found, lowest first as pushed.
   */
  ghost predicate InOrder(s: Sync) {
    match s.resync
    case Idle => true
    case Opened => true
    case Reading(found, done, kept, _) =>
      done <= |found| && InKeyOrder(s.log, Reversed(Ids(kept) + DocIds(found[done..])))
    case Pushing(queue, _, _) => InKeyOrder(s.log, Ids(queue))
  }

  /** Leaving one out leaves the others in order. */
  lemma OneLess(log: seq<Doc>, a: seq<Id>, x: Id, b: seq<Id>)
    requires InKeyOrder(log, Reversed(a + [x] + b))
    ensures InKeyOrder(log, Reversed(a + b))
  {
    hide Reversed, KeyBefore;
    var all, less := a + [x] + b, a + b;
    ReversedEach(all);
    ReversedEach(less);
    forall i, j | 0 <= i < j < |less|
      ensures KeyBefore(log, Reversed(less)[i], Reversed(less)[j])
    {
      var i' := if i < |b| then i else i + 1;
      var j' := if j < |b| then j else j + 1;
      assert Reversed(all)[i'] == Reversed(less)[i] && Reversed(all)[j'] == Reversed(less)[j];
    }
  }

  lemma ReversedIds(kept: seq<Entry>)
    ensures Ids(Reversed(kept)) == Reversed(Ids(kept))
  {
    ReversedEach(kept);
    ReversedEach(Ids(kept));
  }

  lemma PrepareKeepsOrder(s: Sync)
    requires s.resync.Reading? && InOrder(s)
    requires s.room.maxEntries <= s.room.trimAt && |s.room.ids| == |s.room.entries|
    ensures InOrder(Next(s, Prepare))
  {
    hide Reversed, KeyBefore, InKeyOrder;
    var r := s.resync;
    if r.done < |r.found| {
      var doc, rest := r.found[r.done], DocIds(r.found[r.done + 1..]);
      assert Ids(r.kept) + DocIds(r.found[r.done..]) == Ids(r.kept) + [doc.id] + rest;
      if doc.id in s.room.seen {
        OneLess(s.log, Ids(r.kept), doc.id, rest);
      } else {
        assert Ids(r.kept + [Entry(doc.id, doc.json)]) == Ids(r.kept) + [doc.id];
      }
    } else {
      assert Ids(r.kept) + DocIds(r.found[r.done..]) == Ids(r.kept);
      ReversedIds(r.kept);
    }
  }

  /** Whatever else happens meanwhile, a resync pushes what it recovers in key order. */
  lemma ResyncKeepsOrder(s: Sync, event: Event)
    requires Inv(s) && InOrder(s)
    ensures InOrder(Next(s, event))
  {
    hide Reversed, KeyBefore, InKeyOrder, Newest;
    match event
    case Insert(doc) =>
      if s.resync.Reading? {
        LongerLog(s.log, doc, Reversed(Ids(s.resync.kept) + DocIds(s.resync.found[s.resync.done..])));
      } else if s.resync.Pushing? {
        LongerLog(s.log, doc, Ids(s.resync.queue));
      }
    case Query =>
      NewestInKeyOrder(s.log, s.room.maxEntries);
      var found := Newest(s.log, s.room.maxEntries);
      assert Ids([]) + DocIds(found[0..]) == DocIds(found);
    case Prepare =>
      if s.resync.Reading? {
        PrepareKeepsOrder(s);
      }
    case _ =>
  }

  // ------------------------------------------------------------------ Startup

  /** load(): the newest documents of the room, put back in order and pushed. */
  function Load(log: seq<Doc>, empty: Room): Room
    requires empty.maxEntries <= empty.trimAt && |empty.ids| == |empty.entries|
  {
    PushAll(empty, Entries(Reversed(Newest(log, empty.maxEntries))))
  }

  lemma NewToTheRoom(r: Room, history: seq<Entry>, batch: seq<Entry>)
    requires Holds(r, history) && batch != [] && Distinct(Ids(history + batch))
    ensures batch[0].id !in r.seen
  {
    var all := Ids(history + batch);
    forall k | 0 <= k < |r.ids|
      ensures r.ids[k] != batch[0].id
    {
      assert all[r.dropped + k] == r.ids[k] && all[|history|] == batch[0].id;
    }
  }

  lemma PushJustAppends(r: Room, history: seq<Entry>, e: Entry)
    requires Holds(r, history) && e.id !in r.seen && |r.entries| < r.maxEntries
    ensures Holds(Push(r, e.id, e.json), history + [e])
    ensures Push(r, e.id, e.json).entries == r.entries + [e.json]
  {
    PushHolds(r, history, e.id, e.json);
  }

  /** Pushing distinct new entries that fit under the cap just appends them. */
  lemma {:induction false} PushAllAppends(r: Room, history: seq<Entry>, batch: seq<Entry>)
    requires Holds(r, history) && |r.entries| + |batch| <= r.maxEntries
    requires Distinct(Ids(history + batch))
    ensures Holds(PushAll(r, batch), history + batch)
    ensures PushAll(r, batch).entries == r.entries + Jsons(batch)
    decreases |batch|
  {
    hide Push, Distinct;
    if batch == [] {
      assert history + batch == history;
    } else {
      var e, rest := batch[0], batch[1..];
      NewToTheRoom(r, history, batch);
      PushJustAppends(r, history, e);
      assert history + batch == (history + [e]) + rest;
      PushAllAppends(Push(r, e.id, e.json), history + [e], rest);
      assert Jsons(batch) == [e.json] + Jsons(rest);
    }
  }

  lemma EmptyHolds(maxEntries: nat, trimAt: nat, chunkSize: nat)
    requires 1 <= maxEntries <= trimAt
    ensures Holds(EmptyRoom(maxEntries, trimAt, chunkSize), [])
  {}

  /** Loading gives the documents with the highest keys, up to the cap, in key order. */
  lemma LoadIsTheRoom(log: seq<Doc>, maxEntries: nat, trimAt: nat, chunkSize: nat)
    requires 1 <= maxEntries <= trimAt && Unique(log)
    ensures Load(log, EmptyRoom(maxEntries, trimAt, chunkSize)).entries == Jsons(Entries(Latest(log, maxEntries)))
    ensures Holds(Load(log, EmptyRoom(maxEntries, trimAt, chunkSize)), Entries(Latest(log, maxEntries)))
  {
    hide Latest, Reversed, PushAll, Ids, Jsons;
    var empty := EmptyRoom(maxEntries, trimAt, chunkSize);
    var batch := Entries(Latest(log, maxEntries));
    ReversedTwice(Latest(log, maxEntries));
    LatestRises(log, maxEntries);
    LatestInKeyOrder(log, maxEntries);
    assert Ids(batch) == DocIds(Latest(log, maxEntries));
    assert [] + batch == batch;
    assert Holds(empty, []) by { EmptyHolds(maxEntries, trimAt, chunkSize); }
    assert empty.entries + Jsons(batch) == Jsons(batch);
    PushAllAppends(empty, [], batch);
  }

  /** After load() and before the first watch(). */
  function Started(log: seq<Doc>, maxEntries: nat, trimAt: nat, chunkSize: nat): Sync
    requires maxEntries <= trimAt
  {
    Sync(log, Load(log, EmptyRoom(maxEntries, trimAt, chunkSize)), Entries(Latest(log, maxEntries)),
         false, 0, None, Idle)
  }

  lemma HeldWasPushed(r: Room, history: seq<Entry>)
    requires Holds(r, history)
    ensures r.seen <= Ever(history)
  {
    forall id | id in r.seen
      ensures id in Ever(history)
    {
      var k :| 0 <= k < |r.ids| && r.ids[k] == id;
      assert Ids(history)[r.dropped + k] == id;
    }
  }

  /**
   A back end starts in a consistent state. Its first open, if nothing is written before it,
   leaves behind exactly the documents the cap left out.
   */
  lemma StartIsConsistent(log: seq<Doc>, maxEntries: nat, trimAt: nat, chunkSize: nat)
    requires 1 <= maxEntries <= trimAt && Unique(log)
    ensures var s := Started(log, maxEntries, trimAt, chunkSize);
            Inv(s) && InHand(s) && InOrder(s) && Missing(s) == {}
            && Missing(Next(s, Reopen)) == OurIds(log) - Elements(DocIds(Latest(log, maxEntries)))
  {
    hide Load, Latest, Holds, Ids;
    var s := Started(log, maxEntries, trimAt, chunkSize);
    LoadIsTheRoom(log, maxEntries, trimAt, chunkSize);
    HeldWasPushed(s.room, s.history);
    assert Ever(s.history) == Elements(DocIds(Latest(log, maxEntries)));
    BlindOpenLosesTheGap(s, Reopen);
    assert Skipped(s) == OurIds(log) - Ever(s.history);
  }

  // ---------------------------------------------------------- What is pushed

  /** The entry of a document of the room. */
  ghost predicate OfTheRoom(log: seq<Doc>, e: Entry) {
    exists i :: 0 <= i < |log| && log[i].ours && log[i].id == e.id && log[i].json == e.json
  }

  ghost predicate AllOfTheRoom(log: seq<Doc>, entries: seq<Entry>) {
    forall i :: 0 <= i < |entries| ==> OfTheRoom(log, entries[i])
  }

  /** Everything pushed is a document of the room or was added here, and a resync holds documents of the room. */
  ghost predicate Sourced(s: Sync, added: set<Entry>) {
    && (forall i :: 0 <= i < |s.history| ==> s.history[i] in added || OfTheRoom(s.log, s.history[i]))
    && match s.resync
       case Idle => true
       case Opened => true
       case Reading(found, _, kept, _) => AllOfTheRoom(s.log, Entries(found)) && AllOfTheRoom(s.log, kept)
       case Pushing(queue, _, _) => AllOfTheRoom(s.log, queue)
  }

  lemma LongerStillOfTheRoom(log: seq<Doc>, doc: Doc)
    ensures forall e :: OfTheRoom(log, e) ==> OfTheRoom(log + [doc], e)
  {
    forall e | OfTheRoom(log, e)
      ensures OfTheRoom(log + [doc], e)
    {
      var i :| 0 <= i < |log| && log[i].ours && log[i].id == e.id && log[i].json == e.json;
      assert (log + [doc])[i] == log[i];
    }
  }

  lemma NewestOfTheRoom(log: seq<Doc>, max: nat)
    requires Unique(log)
    ensures AllOfTheRoom(log, Entries(Newest(log, max))) && AllOfTheRoom(log, Entries(Latest(log, max)))
  {
    hide Latest, Reversed;
    LatestRises(log, max);
    var newest, latest := Newest(log, max), Latest(log, max);
    ReversedEach(latest);
    forall i | 0 <= i < |latest|
      ensures OfTheRoom(log, Entries(latest)[i])
    {
      var k := OursAreLogged(log, latest[i]);
    }
    forall i | 0 <= i < |newest|
      ensures OfTheRoom(log, Entries(newest)[i])
    {
      assert Entries(newest)[i] == Entries(latest)[|latest| - 1 - i];
    }
  }

  function AddedBy(event: Event): set<Entry> {
    if event.AddLocal? then {Entry(event.id, event.json)} else {}
  }

  lemma PushSourced(s: Sync, e: Entry, added: set<Entry>, t: Sync)
    requires Inv(s) && t == PushDoc(s, e.id, e.json)
    requires forall i :: 0 <= i < |s.history| ==> s.history[i] in added || OfTheRoom(s.log, s.history[i])
    requires e in added || OfTheRoom(s.log, e)
    ensures forall i :: 0 <= i < |t.history| ==> t.history[i] in added || OfTheRoom(t.log, t.history[i])
  {
    hide OfTheRoom, Inv, Push;
  }

  lemma NextSourced(s: Sync, event: Event, added: set<Entry>)
    requires Inv(s) && Sourced(s, added)
    ensures Sourced(Next(s, event), added + AddedBy(event))
  {
    hide OfTheRoom, Push, Newest;
    var all := added + AddedBy(event);
    match event
    case Insert(doc) => LongerStillOfTheRoom(s.log, doc);
    case AddLocal(id, json) => PushSourced(s, Entry(id, json), all, Next(s, event));
    case Deliver =>
      if s.open && s.position < |s.log| && s.log[s.position].ours {
        DeliverSourced(s, all);
      }
    case Query => NewestOfTheRoom(s.log, s.room.maxEntries);
    case Prepare => PrepareSourced(s, all);
    case PushNext =>
      if s.resync.Pushing? && s.resync.pushed < |s.resync.queue| {
        var e := s.resync.queue[s.resync.pushed];
        PushSourced(s, e, all, PushDoc(s, e.id, e.json));
      }
    case _ =>
  }

  lemma DeliverSourced(s: Sync, added: set<Entry>)
    requires Inv(s) && Sourced(s, added) && s.open && s.position < |s.log| && s.log[s.position].ours
    ensures Sourced(Next(s, Deliver), added)
  {
    hide Push;
    var d := s.log[s.position];
    assert OfTheRoom(s.log, Entry(d.id, d.json));
    var t := s.(position := s.position + 1, token := Some(s.position + 1));
    PushSourced(t, Entry(d.id, d.json), added, PushDoc(t, d.id, d.json));
  }

  lemma PrepareSourced(s: Sync, added: set<Entry>)
    requires Inv(s) && Sourced(s, added)
    ensures Sourced(Next(s, Prepare), added)
  {
    hide OfTheRoom, Push, Reversed;
    if s.resync.Reading? {
      var r := s.resync;
      if r.done < |r.found| {
        assert Entries(r.found)[r.done] == Entry(r.found[r.done].id, r.found[r.done].json);
      } else {
        ReversedEach(r.kept);
      }
    }
  }

  function AllAdded(events: seq<Event>): set<Entry>
    decreases |events|
  {
    if events == [] then {} else AddedBy(events[0]) + AllAdded(events[1..])
  }

  lemma {:induction false} RunSourced(s: Sync, events: seq<Event>, added: set<Entry>)
    requires Inv(s) && Sourced(s, added)
    ensures Sourced(Run(s, events), added + AllAdded(events))
    decreases |events|
  {
    hide Sourced, AddedBy;
    if events == [] {
      assert added + {} == added;
    } else {
      NextKeeps(s, events[0]);
      NextSourced(s, events[0], added);
      RunSourced(Next(s, events[0]), events[1..], added + AddedBy(events[0]));
      assert added + AddedBy(events[0]) + AllAdded(events[1..]) == added + AllAdded(events);
    }
  }

  /**
   Over any run from the start, everything a back end pushes is a document of its room,
   with that document's text, or a message it was sent itself.
   */
  lemma OnlyTheRoomIsPushed(log: seq<Doc>, maxEntries: nat, trimAt: nat, chunkSize: nat, events: seq<Event>, k: nat)
    requires 1 <= maxEntries <= trimAt && Unique(log)
    ensures Inv(Started(log, maxEntries, trimAt, chunkSize))
    ensures var t := Run(Started(log, maxEntries, trimAt, chunkSize), events);
            k < |t.history| ==> t.history[k] in AllAdded(events) || OfTheRoom(t.log, t.history[k])
  {
    hide Load, Latest, Inv, OfTheRoom, Run;
    StartIsConsistent(log, maxEntries, trimAt, chunkSize);
    NewestOfTheRoom(log, maxEntries);
    var s := Started(log, maxEntries, trimAt, chunkSize);
    RunSourced(s, events, {});
    assert {} + AllAdded(events) == AllAdded(events);
  }

  // ------------------------------------------- When key order is write order

  /**
   A room that is loaded shows the last messages written, in the order written, exactly
   when their keys rise and are above those of all written before.
   */
  lemma LoadInWriteOrder(log: seq<Doc>, maxEntries: nat, trimAt: nat, chunkSize: nat)
    requires 1 <= maxEntries <= trimAt && Unique(log)
    ensures Load(log, EmptyRoom(maxEntries, trimAt, chunkSize)).ids == DocIds(LastOf(Ours(log), maxEntries))
            <==> RiseFrom(Ours(log), if |Ours(log)| > maxEntries then |Ours(log)| - maxEntries else 0)
  {
    hide Ours, RiseFrom, Load, Latest;
    LoadIsTheRoom(log, maxEntries, trimAt, chunkSize);
    var r, latest := Load(log, EmptyRoom(maxEntries, trimAt, chunkSize)), Latest(log, maxEntries);
    assert |r.entries| == |latest|;
    assert Entries(latest)[0..] == Entries(latest);
    assert r.ids == DocIds(latest);
    LatestIsLastWritten(log, maxEntries);
    LatestRises(log, maxEntries);
    if r.ids == DocIds(LastOf(Ours(log), maxEntries)) {
      SameDocs(log, latest, LastOf(Ours(log), maxEntries));
    }
  }

  /**
   A resync pushes what it recovers in the order written exactly when keys rise along the
   log among the documents it recovers.
   */
  lemma ResyncInWriteOrder(s: Sync)
    requires Inv(s) && InOrder(s) && s.resync.Pushing?
    ensures var queue := Ids(s.resync.queue);
            InWriteOrder(s.log, queue) <==>
              forall i, j :: 0 <= i < j < |s.log| && s.log[i].id in queue && s.log[j].id in queue ==>
                s.log[i].key < s.log[j].key
  {
    hide InKeyOrder, InWriteOrder;
    KeysTellTheOrder(s.log, Ids(s.resync.queue));
  }

  /** Over any run, what a resync has in hand is in key order. */
  lemma {:induction false} EveryResyncInKeyOrder(s: Sync, events: seq<Event>)
    requires Inv(s) && InOrder(s)
    ensures InOrder(Run(s, events))
    decreases |events|
  {
    hide InOrder;
    if events != [] {
      NextKeeps(s, events[0]);
      ResyncKeepsOrder(s, events[0]);
      EveryResyncInKeyOrder(Next(s, events[0]), events[1..]);
    }
  }

  /** Two documents whose drivers made keys in the other order than they were written in. */
  const CROSSED: seq<Doc> := [Doc(2, "a", true, "A"), Doc(1, "b", true, "B")]

  lemma CrossedByKey()
    ensures Unique(CROSSED) && !Rising(CROSSED)
    ensures Ours(CROSSED) == CROSSED && ByKey(CROSSED) == [CROSSED[1], CROSSED[0]]
  {
    var a, b := CROSSED[0], CROSSED[1];
    assert [a][..0] == [] && CROSSED[..1] == [a];
    assert Ours([a]) == Ours([]) + [a] == [a] && ByKey([a]) == Place(a, []) == [a];
    assert ByKey(CROSSED) == Place(b, [a]);
  }

  /**
   With crossed keys the room is loaded in the wrong order, and at the cap it is the newer
   message that is left out.
   */
  lemma CrossedKeysLoadCrossed()
    ensures Load(CROSSED, EmptyRoom(2, 3, 256)).entries == ["B", "A"]
    ensures Load(CROSSED, EmptyRoom(1, 2, 256)).entries == ["A"]
  {
    hide Load, Ours, ByKey;
    CrossedByKey();
    LoadIsTheRoom(CROSSED, 2, 3, 256);
    LoadIsTheRoom(CROSSED, 1, 2, 256);
    assert Latest(CROSSED, 2) == [CROSSED[1], CROSSED[0]] && Latest(CROSSED, 1) == [CROSSED[0]];
    assert Jsons(Entries(Latest(CROSSED, 2))) == ["B", "A"];
    assert Jsons(Entries(Latest(CROSSED, 1))) == ["A"];
  }

  // ---------------------------------------------------------- Runs that fail

  /** An empty collection; for caps up to ten the trim point is the next number. */
  function EmptyStart(maxEntries: nat): Sync {
    Sync([], EmptyRoom(maxEntries, maxEntries + 1, 256), [], false, 0, None, Idle)
  }

  ghost predicate StartsEmpty(maxEntries: nat) {
    && Inv(EmptyStart(maxEntries)) && maxEntries >= 1
    && EmptyStart(maxEntries) == Started([], maxEntries, maxEntries + 1, 256)
  }

  lemma EmptyStartInv(maxEntries: nat)
    requires maxEntries >= 1
    ensures StartsEmpty(maxEntries)
  {
    assert Latest([], maxEntries) == [] && Newest([], maxEntries) == [];
    StartIsConsistent([], maxEntries, maxEntries + 1, 256);
    assert Entries([]) == [];
  }

  lemma RunOne(s: Sync, a: Event, rest: seq<Event>)
    requires Inv(s)
    ensures Inv(Next(s, a)) && Run(s, [a] + rest) == Run(Next(s, a), rest)
  {
    hide Next;
    NextKeeps(s, a);
    assert ([a] + rest)[1..] == rest;
  }

  lemma RunThree(s: Sync, a: Event, b: Event, c: Event, rest: seq<Event>)
    requires Inv(s)
    ensures Inv(Next(s, a)) && Inv(Next(Next(s, a), b)) && Inv(Next(Next(Next(s, a), b), c))
    ensures Run(s, [a, b, c] + rest) == Run(Next(Next(Next(s, a), b), c), rest)
  {
    hide Next, Run, Inv;
    RunOne(s, a, [b, c] + rest);
    RunOne(Next(s, a), b, [c] + rest);
    RunOne(Next(Next(s, a), b), c, rest);
    assert [a, b, c] + rest == [a] + ([b, c] + rest) && [b, c] + rest == [b] + ([c] + rest);
  }

  /** So does a resync that recovers both. */
  lemma CrossedKeysResyncCrossed()
    ensures StartsEmpty(2)
    ensures Run(EmptyStart(2), [Insert(CROSSED[0]), Insert(CROSSED[1]), StartResync, Query, Prepare, Prepare, Prepare])
            .resync == Pushing([Entry("b", "B"), Entry("a", "A")], 0, false)
  {
    hide Run, Next, Ours, ByKey, Reversed, Inv;
    EmptyStartInv(2);
    var s, t, u := EmptyStart(2), CrossedOpened(), CrossedRead();
    CrossedSteps();
    assert [Insert(CROSSED[0]), Insert(CROSSED[1]), StartResync, Query, Prepare, Prepare, Prepare]
        == [Insert(CROSSED[0]), Insert(CROSSED[1]), StartResync] + ([Query, Prepare, Prepare] + [Prepare]);
    RunThree(s, Insert(CROSSED[0]), Insert(CROSSED[1]), StartResync, [Query, Prepare, Prepare] + [Prepare]);
    RunThree(t, Query, Prepare, Prepare, [Prepare]);
    RunOne(u, Prepare, []);
    assert [Prepare] + [] == [Prepare];
    RunNone(Next(u, Prepare));
  }

  lemma RunNone(s: Sync)
    requires Inv(s)
    ensures Run(s, []) == s
  {}

  function CrossedOpened(): Sync {
    EmptyStart(2).(log := CROSSED, open := true, position := 2, resync := Opened)
  }

  function CrossedRead(): Sync {
    CrossedOpened().(resync := Reading(CROSSED, 2, [Entry("a", "A"), Entry("b", "B")], false))
  }

  lemma CrossedSteps()
    ensures Next(Next(Next(EmptyStart(2), Insert(CROSSED[0])), Insert(CROSSED[1])), StartResync) == CrossedOpened()
    ensures Next(Next(Next(CrossedOpened(), Query), Prepare), Prepare) == CrossedRead()
    ensures Next(CrossedRead(), Prepare).resync == Pushing([Entry("b", "B"), Entry("a", "A")], 0, false)
  {
    hide Ours, ByKey, Reversed;
    CrossedByKey();
    assert Latest(CROSSED, 2) == [CROSSED[1], CROSSED[0]];
    ReversedEach(Latest(CROSSED, 2));
    assert Newest(CROSSED, 2) == CROSSED;
    var kept: seq<Entry> := [];
    assert kept + [Entry("a", "A")] == [Entry("a", "A")];
    assert [Entry("a", "A")] + [Entry("b", "B")] == [Entry("a", "A"), Entry("b", "B")];
    assert Next(CrossedOpened(), Query) == CrossedOpened().(resync := Reading(CROSSED, 0, [], false));
    assert Next(Next(CrossedOpened(), Query), Prepare)
        == CrossedOpened().(resync := Reading(CROSSED, 1, [Entry("a", "A")], false));
    ReversedEach([Entry("a", "A"), Entry("b", "B")]);
  }

  /**
   A back end that starts with an empty room, and whose first open comes after a message
   was written elsewhere, never hears of it.
   */
  lemma BlindOpenHappens()
    ensures StartsEmpty(1)
    ensures Missing(Run(EmptyStart(1), [Insert(Doc(0, "a", true, "A")), Reopen, Break])) == {"a"}
  {
    hide Inv;
    EmptyStartInv(1);
    var s := EmptyStart(1);
    RunThree(s, Insert(Doc(0, "a", true, "A")), Reopen, Break, []);
    var t := Next(Next(Next(s, Insert(Doc(0, "a", true, "A"))), Reopen), Break);
    assert t == s.(log := [Doc(0, "a", true, "A")], position := 1);
    assert [Insert(Doc(0, "a", true, "A")), Reopen, Break] + [] == [Insert(Doc(0, "a", true, "A")), Reopen, Break];
    assert t.log[0].id in Missing(t);
  }
}
