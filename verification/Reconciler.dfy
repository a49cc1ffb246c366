/**
 The check that compares the number of documents stored with the number pushed,
 and what it can never repair: the documents the cap left out when the room was
 loaded.
 */
module Reconciler {
  import opened Collections
  import opened RoomSpec
  import opened RoomLog
  import opened FeedSync

  /** `stored - held`: by how many messages the feed seems to be behind. */
  function Short(s: Sync): int {
    |Ours(s.log)| - (|s.room.entries| + s.room.dropped)
  }

  lemma {:induction false} OursCounted(log: seq<Doc>)
    requires Unique(log)
    ensures |OurIds(log)| == |Ours(log)|
  {
    if log != [] {
      var before, last := log[..|log| - 1], log[|log| - 1];
      OursCounted(before);
      assert forall i :: 0 <= i < |before| ==> log[i] == before[i];
      if last.ours {
        assert OurIds(log) == OurIds(before) + {last.id};
        assert last.id !in OurIds(before);
      } else {
        assert OurIds(log) == OurIds(before);
      }
    }
  }

  lemma {:induction false} ElementsAtMost(ids: seq<Id>)
    ensures |Elements(ids)| <= |ids|
  {
    if ids != [] {
      var before, last := ids[..|ids| - 1], ids[|ids| - 1];
      ElementsAtMost(before);
      assert ids == before + [last];
      assert Elements(ids) == Elements(before) + {last};
    }
  }

  /** Pushes of an id that had been pushed before, which the back end had forgotten. */
  function Repeats(s: Sync): int {
    |s.history| - |Ever(s.history)|
  }

  /** Ids pushed that are not the room's in the database. */
  function Foreign(s: Sync): nat {
    |Ever(s.history) - OurIds(s.log)|
  }

  /** The room's documents that were never pushed. */
  function Unpushed(s: Sync): set<Id> {
    OurIds(s.log) - Ever(s.history)
  }

  /** The shortfall is the number of the room's documents never pushed, less what was pushed needlessly. */
  lemma ShortIsWhatWasNeverPushed(s: Sync)
    requires Inv(s)
    ensures Short(s) == |Unpushed(s)| - Foreign(s) - Repeats(s)
    ensures Repeats(s) >= 0
  {
    hide Ours, Elements;
    OursCounted(s.log);
    ElementsAtMost(Ids(s.history));
    SetsApart(OurIds(s.log), Ever(s.history));
  }

  lemma SetsApart(a: set<Id>, b: set<Id>)
    ensures |a| - |b| == |a - b| - |b - a|
  {
    assert a == (a - b) + a * b && b == (b - a) + a * b;
  }

  // --------------------------------------------------------- Left out by the cap

  function CountAbove(docs: seq<Doc>, key: nat): nat {
    if docs == [] then 0 else (if docs[0].key > key then 1 else 0) + CountAbove(docs[1..], key)
  }

  lemma {:induction false} CountAboveSnoc(docs: seq<Doc>, d: Doc, key: nat)
    ensures CountAbove(docs + [d], key) == CountAbove(docs, key) + (if d.key > key then 1 else 0)
  {
    if docs != [] {
      assert (docs + [d])[1..] == docs[1..] + [d];
      CountAboveSnoc(docs[1..], d, key);
    }
  }

  lemma {:induction false} CountAbovePlaced(d: Doc, s: seq<Doc>, key: nat)
    ensures CountAbove(Place(d, s), key) == CountAbove(s, key) + (if d.key > key then 1 else 0)
  {
    if s != [] && d.key >= s[0].key {
      CountAbovePlaced(d, s[1..], key);
    }
  }

  lemma {:induction false} CountAboveSorted(docs: seq<Doc>, key: nat)
    ensures CountAbove(ByKey(docs), key) == CountAbove(docs, key)
  {
    if docs != [] {
      var before, last := docs[..|docs| - 1], docs[|docs| - 1];
      CountAboveSorted(before, key);
      CountAbovePlaced(last, ByKey(before), key);
      CountAboveSnoc(before, last, key);
      assert docs == before + [last];
    }
  }

  lemma {:induction false} AllAbove(s: seq<Doc>, key: nat)
    requires forall i :: 0 <= i < |s| ==> s[i].key > key
    ensures CountAbove(s, key) == |s|
  {
    if s != [] {
      AllAbove(s[1..], key);
    }
  }

  lemma {:induction false} AboveInRising(s: seq<Doc>, p: nat)
    requires Rising(s) && p < |s|
    ensures CountAbove(s, s[p].key) == |s| - 1 - p
  {
    if p == 0 {
      AllAbove(s[1..], s[0].key);
    } else {
      AboveInRising(s[1..], p - 1);
    }
  }

  /**
   A document of the room is among the newest `max` by key exactly when fewer than `max` of
   them have higher keys.
   */
  lemma AmongTheLatest(log: seq<Doc>, max: nat, d: Doc)
    requires Unique(log) && d in Ours(log)
    ensures d in Latest(log, max) <==> CountAbove(Ours(log), d.key) < max
  {
    hide Ours, ByKey, CountAbove;
    var room := Ours(log);
    var sorted := ByKey(room);
    OursDistinct(log);
    ByKeyRises(room);
    SameMembers(room, d);
    CountAboveSorted(room, d.key);
    var p :| 0 <= p < |sorted| && sorted[p] == d;
    AboveInRising(sorted, p);
    var n := if |sorted| > max then |sorted| - max else 0;
    assert Latest(log, max) == sorted[n..];
    if p >= n {
      assert sorted[n..][p - n] == d;
    } else {
      forall q | n <= q < |sorted|
        ensures sorted[q] != d
      {
        assert sorted[p].key < sorted[q].key;
      }
    }
  }

  /**
   Written before the stream's position, never pushed, in nobody's hands, and under too
   many others to be asked for again.
   */
  ghost predicate Behind(s: Sync, id: Id) {
    && id !in Ever(s.history)
    && (exists i :: 0 <= i < s.position <= |s.log| && Buried(s.log, i, id, s.room.maxEntries))
    && match s.resync
       case Idle => true
       case Opened => true
       case Reading(found, _, kept, _) => id !in DocIds(found) && id !in Ids(kept)
       case Pushing(queue, _, _) => id !in Ids(queue)
  }

  ghost predicate Buried(log: seq<Doc>, i: nat, id: Id, max: nat)
    requires i < |log|
  {
    log[i].ours && log[i].id == id && CountAbove(Ours(log), log[i].key) >= max
  }

  lemma BuriedDeeper(log: seq<Doc>, doc: Doc, i: nat, id: Id, max: nat)
    requires i < |log| && Buried(log, i, id, max)
    ensures Buried(log + [doc], i, id, max)
  {
    assert (log + [doc])[..|log|] == log;
    CountAboveSnoc(Ours(log), doc, log[i].key);
    assert Ours(log) + [] == Ours(log);
  }

  lemma BuriedIsNotFound(log: seq<Doc>, i: nat, id: Id, max: nat)
    requires Unique(log) && i < |log| && Buried(log, i, id, max)
    ensures id !in DocIds(Newest(log, max))
  {
    hide Ours, Latest, CountAbove, Reversed;
    OurDocIsOurs(log, i);
    AmongTheLatest(log, max, log[i]);
    LatestRises(log, max);
    forall j | 0 <= j < |Newest(log, max)|
      ensures Newest(log, max)[j].id != id
    {
      var d := Newest(log, max)[j];
      ReversedElements(Latest(log, max), d);
      var k := OursAreLogged(log, d);
    }
  }

  /** Nothing but the back end's own /message brings such a document back. */
  lemma StaysBehind(s: Sync, event: FeedSync.Event, id: Id)
    requires Inv(s) && Behind(s, id) && !(event.AddLocal? && event.id == id)
    ensures Behind(FeedSync.Next(s, event), id)
  {
    hide Ours, CountAbove, Newest, Push;
    var i :| 0 <= i < s.position <= |s.log| && Buried(s.log, i, id, s.room.maxEntries);
    FeedSync.NextKeeps(s, event);
    match event
    case Insert(doc) => BuriedDeeper(s.log, doc, i, id, s.room.maxEntries);
    case AddLocal(other, json) => PushedIds(s.room, s.history, other, json);
    case Deliver =>
      if s.open && s.position < |s.log| {
        PushedIds(s.room, s.history, s.log[s.position].id, s.log[s.position].json);
      }
    case Query => BuriedIsNotFound(s.log, i, id, s.room.maxEntries);
    case Prepare => PrepareStaysBehind(s, id);
    case PushNext =>
      if s.resync.Pushing? && s.resync.pushed < |s.resync.queue| {
        var e := s.resync.queue[s.resync.pushed];
        assert Ids(s.resync.queue)[s.resync.pushed] == e.id;
        PushedIds(s.room, s.history, e.id, e.json);
      }
    case _ =>
  }

  lemma PrepareStaysBehind(s: Sync, id: Id)
    requires Inv(s) && Behind(s, id)
    ensures Behind(FeedSync.Next(s, Prepare), id)
  {
    hide Ours, CountAbove, Reversed, Buried;
    if s.resync.Reading? {
      var r := s.resync;
      if r.done < |r.found| {
        assert DocIds(r.found)[r.done] == r.found[r.done].id;
        assert Ids(r.kept + [Entry(r.found[r.done].id, r.found[r.done].json)]) == Ids(r.kept) + [r.found[r.done].id];
      } else {
        ReversedIds(r.kept);
        ReversedElements(Ids(r.kept), id);
      }
    }
  }

  lemma {:induction false} BehindForEver(s: Sync, events: seq<FeedSync.Event>, id: Id)
    requires Inv(s) && Behind(s, id)
    requires forall i :: 0 <= i < |events| && events[i].AddLocal? ==> events[i].id != id
    ensures Behind(FeedSync.Run(s, events), id) && id in Missing(FeedSync.Run(s, events))
    decreases |events|
  {
    if events != [] {
      hide Behind, Missing;
      StaysBehind(s, events[0], id);
      FeedSync.NextKeeps(s, events[0]);
      BehindForEver(FeedSync.Next(s, events[0]), events[1..], id);
    }
  }

  /** What the cap leaves out at load is behind from the moment the stream is first opened. */
  lemma CapLeavesBehind(log: seq<Doc>, maxEntries: nat, trimAt: nat, chunkSize: nat, i: nat)
    requires 1 <= maxEntries <= trimAt && Unique(log)
    requires i < |log| && log[i].ours && log[i] !in Latest(log, maxEntries)
    ensures Inv(Started(log, maxEntries, trimAt, chunkSize))
    ensures Behind(FeedSync.Next(Started(log, maxEntries, trimAt, chunkSize), Reopen), log[i].id)
  {
    hide Ours, Latest, CountAbove, PushAll;
    StartIsConsistent(log, maxEntries, trimAt, chunkSize);
    LoadIsTheRoom(log, maxEntries, trimAt, chunkSize);
    OurDocIsOurs(log, i);
    AmongTheLatest(log, maxEntries, log[i]);
    LatestRises(log, maxEntries);
    var latest := Latest(log, maxEntries);
    forall j | 0 <= j < |latest|
      ensures Ids(Entries(latest))[j] != log[i].id
    {
      var k := OursAreLogged(log, latest[j]);
    }
    var s := Started(log, maxEntries, trimAt, chunkSize);
    assert s.room.maxEntries == maxEntries && s.history == Entries(latest);
    assert FeedSync.Next(s, Reopen) == s.(open := true, position := |log|);
    assert Buried(log, i, log[i].id, maxEntries);
  }

  function Added(events: seq<FeedSync.Event>): set<Id> {
    set i | 0 <= i < |events| && events[i].AddLocal? :: events[i].id
  }

  /**
   For a room over the cap at load the shortfall does not close by resyncing: over any
   run it stays at least the number of documents left out and not sent to this back end
   again, less what it pushed needlessly. It closes exactly when needless pushes make up
   for all the documents never pushed.
   */
  lemma ShortNeverCloses(s: Sync, events: seq<FeedSync.Event>, left: set<Id>)
    requires Inv(s) && forall id :: id in left ==> Behind(s, id)
    ensures var t := FeedSync.Run(s, events);
            && Short(t) >= |left - Added(events)| - Foreign(t) - Repeats(t)
            && left - Added(events) <= Unpushed(t)
            && (Short(t) <= 0 <==> |Unpushed(t)| <= Foreign(t) + Repeats(t))
  {
    hide Ours, Ever, Behind, Missing, OurIds;
    var t := FeedSync.Run(s, events);
    ShortIsWhatWasNeverPushed(t);
    var stays := left - Added(events);
    forall id | id in stays
      ensures id in Unpushed(t)
    {
      assert forall i :: 0 <= i < |events| && events[i].AddLocal? ==> events[i].id in Added(events);
      BehindForEver(s, events, id);
      BehindIsUnpushed(t, id);
    }
    assert |Unpushed(t) - stays| == |Unpushed(t)| - |stays|;
  }

  lemma BehindIsUnpushed(s: Sync, id: Id)
    requires Behind(s, id)
    ensures id in Unpushed(s)
  {}

  // ---------------------------------------------------- A shortfall that closes

  const TWO: seq<Doc> := [Doc(0, "x", true, "X"), Doc(1, "y", true, "Y")]
  const THIRD := Doc(2, "z", true, "Z")
  const FOURTH := Doc(3, "w", true, "W")

  lemma TwoByKey()
    ensures Unique(TWO) && Ours(TWO) == TWO && Latest(TWO, 1) == [TWO[1]]
  {
    var a, b := TWO[0], TWO[1];
    assert [a][..0] == [] && TWO[..1] == [a];
    assert Ours([a]) == Ours([]) + [a] == [a] && ByKey([a]) == Place(a, []) == [a];
    assert ByKey(TWO) == Place(b, [a]) == [a, b];
  }

  /** With a cap of one, so a trim point of two, only the second document is loaded. */
  function TwoStarted(): Sync {
    Started(TWO, 1, 2, 256)
  }

  lemma TwoLoaded()
    ensures var s := TwoStarted();
            && s.room.entries == ["Y"] && s.room.ids == ["y"] && s.room.seen == {"y"} && s.room.dropped == 0
            && s.room.maxEntries == 1 && s.room.trimAt == 2 && s.history == [Entry("y", "Y")]
            && s.log == TWO && !s.open && s.position == 0 && s.token.None? && s.resync.Idle?
  {
    hide Latest;
    TwoByKey();
    var latest := Latest(TWO, 1);
    assert Reversed(latest) == Reversed(latest[1..]) + [latest[0]] == latest;
    assert Reversed(Newest(TWO, 1)) == latest;
    var batch := Entries(latest);
    assert batch == [Entry("y", "Y")] && batch[1..] == [];
    assert PushAll(EmptyRoom(1, 2, 256), batch) == Push(EmptyRoom(1, 2, 256), "y", "Y");
  }

  /**
   Two more documents arrive and the room is trimmed, which forgets y; then y is sent to
   this back end again, pushed and counted again. The count is right and x still missing.
   */
  lemma RepeatsCloseTheShortfall()
    ensures Inv(TwoStarted()) && Short(TwoStarted()) == 1
    ensures var t := FeedSync.Run(TwoStarted(), [Reopen, Insert(THIRD), Deliver]
                                                + ([Insert(FOURTH), Deliver, AddLocal("y", "Y")] + []));
            Short(t) == 0 && "x" in Missing(t)
  {
    hide Inv, TwoStarted, FeedSync.Run, FeedSync.Next, Ours, Missing;
    TwoByKey();
    TwoLoaded();
    var s := TwoStarted();
    assert Inv(s) by { TwoIsConsistent(); }
    FeedSync.RunThree(s, Reopen, Insert(THIRD), Deliver, [Insert(FOURTH), Deliver, AddLocal("y", "Y")] + []);
    var t := FeedSync.Next(FeedSync.Next(FeedSync.Next(s, Reopen), Insert(THIRD)), Deliver);
    FeedSync.RunThree(t, Insert(FOURTH), Deliver, AddLocal("y", "Y"), []);
    var u := FeedSync.Next(FeedSync.Next(t, Insert(FOURTH)), Deliver);
    FeedSync.RunNone(FeedSync.Next(u, AddLocal("y", "Y")));
    FirstThree(s, t);
    LastThree(s, t, u);
  }

  lemma TwoIsConsistent()
    ensures Inv(TwoStarted())
  {
    TwoByKey();
    StartIsConsistent(TWO, 1, 2, 256);
  }

  /** The third document is delivered and pushed; the room is not yet over its trim point. */
  ghost predicate AfterThird(s: Sync, t: Sync) {
    && t.log == TWO + [THIRD] && t.open && t.position == 3 && t.resync.Idle?
    && t.room.ids == ["y", "z"] && t.room.seen == {"y", "z"} && t.room.entries == ["Y", "Z"] && t.room.dropped == 0
    && t.room.maxEntries == 1 && t.room.trimAt == 2
    && t.history == [Entry("y", "Y"), Entry("z", "Z")]
  }

  lemma FirstThree(s: Sync, t: Sync)
    requires s == TwoStarted() && Inv(s) && Inv(FeedSync.Next(s, Reopen))
    requires Inv(FeedSync.Next(FeedSync.Next(s, Reopen), Insert(THIRD)))
    requires t == FeedSync.Next(FeedSync.Next(FeedSync.Next(s, Reopen), Insert(THIRD)), Deliver)
    ensures AfterThird(s, t)
  {
    hide Inv, Started, Ours;
    TwoLoaded();
    assert FeedSync.Next(FeedSync.Next(s, Reopen), Insert(THIRD))
        == s.(log := TWO + [THIRD], open := true, position := 2);
  }

  lemma LastThree(s: Sync, t: Sync, u: Sync)
    requires AfterThird(s, t) && Inv(t) && Inv(FeedSync.Next(t, Insert(FOURTH))) && Inv(u)
    requires u == FeedSync.Next(FeedSync.Next(t, Insert(FOURTH)), Deliver)
    ensures var v := FeedSync.Next(u, AddLocal("y", "Y")); Short(v) == 0 && "x" in Missing(v)
  {
    hide Inv, Ours;
    FourOurs();
    assert FeedSync.Next(t, Insert(FOURTH)) == t.(log := TWO + [THIRD] + [FOURTH]);
    assert ["Y", "Z", "W"][2..] == ["W"] && ["y", "z", "w"][2..] == ["w"];
    assert u.room.ids == ["w"] && u.room.seen == {"w"} && u.room.dropped == 2 && u.room.entries == ["W"];
    var v := FeedSync.Next(u, AddLocal("y", "Y"));
    assert v.history == [Entry("y", "Y"), Entry("z", "Z"), Entry("w", "W"), Entry("y", "Y")];
    assert v.log[0].id == "x";
  }

  lemma FourOurs()
    ensures |Ours(TWO + [THIRD] + [FOURTH])| == 4
  {
    TwoByKey();
    assert (TWO + [THIRD])[..2] == TWO && (TWO + [THIRD] + [FOURTH])[..3] == TWO + [THIRD];
  }
}
