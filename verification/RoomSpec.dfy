/**
 One back end's copy of the room: the entries, the id index, the cached prefix
 and the compressed feed, and every interleaving of pushes, reads, rebuild
 callbacks and compressor failures.
 */
module RoomSpec {
  import opened Collections
  import opened Gzip
  import opened FeedSpec

  type Id = string

  // --------------------------------------------------------------- JSON text

  function Join(entries: seq<string>): string {
    if |entries| == 0 then ""
    else if |entries| == 1 then entries[0]
    else entries[0] + "," + Join(entries[1..])
  }

  /** What /feed promises: the entries as one JSON array. */
  function ArrayText(entries: seq<string>): string {
    "[" + Join(entries) + "]"
  }

  lemma {:induction false} JoinAppend(a: seq<string>, b: seq<string>)
    requires a != [] && b != []
    ensures Join(a + b) == Join(a) + "," + Join(b)
  {
    assert (a + b)[0] == a[0] && (a + b)[1..] == a[1..] + b;
    if |a| == 1 {
      assert a[1..] + b == b;
    } else {
      JoinAppend(a[1..], b);
      assert Join(a + b) == a[0] + "," + (Join(a[1..]) + "," + Join(b));
    }
  }

  /** An entry as it goes into the compressed stream: the separator belongs to it. */
  function Tag(first: bool, json: string): Text {
    Utf8((if first then "[" else ",") + json)
  }

  function Tagged(entries: seq<string>): (r: seq<Text>)
    ensures |r| == |entries|
  {
    seq(|entries|, i requires 0 <= i < |entries| => Tag(i == 0, entries[i]))
  }

  lemma TaggedSnoc(entries: seq<string>, json: string)
    ensures Tagged(entries + [json]) == Tagged(entries) + [Tag(entries == [], json)]
  {}

  lemma {:induction false} TaggedIsArray(entries: seq<string>)
    requires entries != []
    ensures Flatten(Tagged(entries)) == Utf8("[" + Join(entries))
  {
    var n := |entries| - 1;
    var before, last := entries[..n], entries[n];
    assert entries == before + [last];
    TaggedSnoc(before, last);
    FlattenSnoc(Tagged(before), Tag(before == [], last));
    if before == [] {
      assert entries == [last] && Tagged(before) == [];
    } else {
      TaggedIsArray(before);
      JoinAppend(before, [last]);
      assert "[" + Join(entries) == ("[" + Join(before)) + ("," + last);
      Utf8Append("[" + Join(before), "," + last);
    }
  }

  /**
   The compressed stream with its closing bracket is the array, except for a room nothing
   was ever pushed to.
   */
  lemma StreamIsArray(entries: seq<string>)
    ensures Flatten(Tagged(entries)) + CLOSING_BYTE == Utf8(ArrayText(entries)) <==> entries != []
  {
    assert Utf8("]") == CLOSING_BYTE;
    if entries == [] {
      assert Tagged(entries) == [];
      assert ArrayText(entries) == "[]" && Utf8("[]")[0] == 0x5b;
    } else {
      TaggedIsArray(entries);
      Utf8Append("[" + Join(entries), "]");
    }
  }

  // -------------------------------------------------------------------- Room

  const REBASE_AFTER: nat := 1024

  datatype Room = Room(
    entries: seq<string>,
    ids: seq<Id>,
    seen: set<Id>,
    base: Option<seq<Byte>>,
    baseCount: nat,
    dropped: nat,
    maxEntries: nat,
    trimAt: nat,
    gz: Feed)

  datatype Entry = Entry(id: Id, json: string)

  function Appended(r: Room, id: Id, json: string): (a: Room)
    ensures |a.entries| == |r.entries| + 1 && |a.ids| == |r.ids| + 1
  {
    r.(entries := r.entries + [json], ids := r.ids + [id], seen := r.seen + {id},
       gz := AppendFeed(r.gz, Tag(r.entries == [], json)))
  }

  /** Drops the oldest entries down to the cap, forgets their ids, and has the compressed feed rebuilt. */
  function Trimmed(r: Room): Room
    requires r.maxEntries <= |r.entries| == |r.ids|
  {
    var overflow := |r.entries| - r.maxEntries;
    var kept := r.entries[overflow..];
    r.(entries := kept, ids := r.ids[overflow..], seen := r.seen - Elements(r.ids[..overflow]),
       base := None, baseCount := 0, dropped := r.dropped + overflow,
       gz := RebuildFeed(r.gz, Tagged(kept)))
  }

  function Push(r: Room, id: Id, json: string): (r': Room)
    requires r.maxEntries <= r.trimAt && |r.ids| == |r.entries|
    ensures r'.maxEntries == r.maxEntries && r'.trimAt == r.trimAt && |r'.ids| == |r'.entries|
  {
    if id in r.seen then r
    else
      var longer := Appended(r, id, json);
      if |longer.entries| > r.trimAt then Trimmed(longer) else longer
  }

  /** Entries pushed one after another, as a load or a resync does. */
  function PushAll(r: Room, batch: seq<Entry>): (r': Room)
    requires r.maxEntries <= r.trimAt && |r.ids| == |r.entries|
    ensures r'.maxEntries == r.maxEntries && r'.trimAt == r.trimAt && |r'.ids| == |r'.entries|
    decreases |batch|
  {
    if batch == [] then r else PushAll(Push(r, batch[0].id, batch[0].json), batch[1..])
  }

  /** The two chunks of the uncompressed whole-room response. */
  datatype Payload = Payload(head: seq<Byte>, tail: seq<Byte>)

  function Rebase(r: Room): Room {
    if r.entries != [] && (r.base.None? || r.baseCount + REBASE_AFTER < |r.entries|)
    then r.(base := Some(Utf8("[" + Join(r.entries))), baseCount := |r.entries|)
    else r
  }

  function PayloadOf(r: Room): Payload
    requires r.entries != [] ==> Rebase(r).base.Some? && Rebase(r).baseCount <= |r.entries|
  {
    if r.entries == [] then Payload(Utf8("[]"), [])
    else
      var n := Rebase(r).baseCount;
      Payload(Rebase(r).base.value,
              if n < |r.entries| then Utf8("," + Join(r.entries[n..]) + "]") else CLOSING_BYTE)
  }

  // --------------------------------------------------------------- Invariant

  function Ids(h: seq<Entry>): (r: seq<Id>)
    ensures |r| == |h|
  {
    seq(|h|, i requires 0 <= i < |h| => h[i].id)
  }

  function Jsons(h: seq<Entry>): (r: seq<string>)
    ensures |r| == |h|
  {
    seq(|h|, i requires 0 <= i < |h| => h[i].json)
  }

  /**
   The entries are what remains of the successful pushes, in order: a suffix of
   them, short of it by exactly the number dropped. No id is held twice.
   */
  ghost predicate Suffix(r: Room, history: seq<Entry>) {
    && r.dropped <= |history|
    && r.entries == Jsons(history[r.dropped..])
    && r.ids == Ids(history[r.dropped..])
    && Distinct(r.ids)
    && r.seen == Elements(r.ids)
  }

  ghost predicate Holds(r: Room, history: seq<Entry>) {
    && Suffix(r, history)
    && 1 <= r.maxEntries <= r.trimAt
    && |r.entries| <= r.trimAt
    && (history != [] ==> r.entries != [])
  }

  /** The cached prefix is the opening of the array over the first baseCount entries. */
  ghost predicate Cached(r: Room) {
    r.base.Some? ==>
      && 1 <= r.baseCount <= |r.entries|
      && r.base.value == Utf8("[" + Join(r.entries[..r.baseCount]))
  }

  /** What the live stream holds: the pushes from `first` up to `last`. */
  datatype Span = Span(first: nat, last: nat)

  function Streamed(history: seq<Entry>, span: Span): seq<Text>
    requires span.first <= span.last <= |history|
  {
    Tagged(Jsons(history[span.first..span.last]))
  }

  ghost predicate Compressed(r: Room, history: seq<Entry>, span: Span) {
    && r.gz.Valid()
    && span.first <= span.last <= |history|
    && span.first <= r.dropped
    && (span.last > 0 ==> span.first < span.last)
    && r.gz.live.texts == Streamed(history, span)
    && (r.gz.enabled ==> span.last == |history|)
    && (r.gz.enabled && r.gz.building.None? ==> span.first == r.dropped)
    && (r.gz.building.Some? ==>
          && r.gz.ticks >= 1
          && r.entries != []
          && r.gz.building.value.texts + r.gz.snapshot[r.gz.cursor..] + r.gz.carry == Tagged(r.entries))
  }

  ghost predicate RoomInv(r: Room, history: seq<Entry>, span: Span) {
    Holds(r, history) && Cached(r) && Compressed(r, history, span)
  }

  function EmptyRoom(maxEntries: nat, trimAt: nat, chunkSize: nat): Room {
    Room([], [], {}, None, 0, 0, maxEntries, trimAt, EmptyFeed(chunkSize))
  }

  lemma EmptyRoomInv(maxEntries: nat, trimAt: nat, chunkSize: nat)
    requires 1 <= maxEntries <= trimAt && chunkSize >= 1
    ensures RoomInv(EmptyRoom(maxEntries, trimAt, chunkSize), [], Span(0, 0))
  {}

  // --------------------------------------------------------- What a push does

  function Pushed(r: Room, history: seq<Entry>, id: Id, json: string): seq<Entry> {
    if id in r.seen then history else history + [Entry(id, json)]
  }

  function PushedSpan(r: Room, id: Id, span: Span): Span {
    if id in r.seen || !r.gz.enabled then span else span.(last := span.last + 1)
  }

  lemma AppendHolds(r: Room, history: seq<Entry>, id: Id, json: string)
    requires Suffix(r, history) && id !in r.seen
    ensures Suffix(Appended(r, id, json), history + [Entry(id, json)])
  {
    var h := history + [Entry(id, json)];
    assert h[r.dropped..] == history[r.dropped..] + [Entry(id, json)];
    assert r.entries + [json] == Jsons(h[r.dropped..]);
    assert r.ids + [id] == Ids(h[r.dropped..]);
  }

  lemma TrimHolds(r: Room, history: seq<Entry>)
    requires Suffix(r, history) && 1 <= r.maxEntries <= |r.entries|
    ensures Suffix(Trimmed(r), history)
    ensures |Trimmed(r).entries| == r.maxEntries && r.ids[|r.ids| - 1] in Trimmed(r).seen
  {
    var overflow := |r.entries| - r.maxEntries;
    assert history[r.dropped..][overflow..] == history[r.dropped + overflow..];
    SuffixElements(r.ids, overflow);
    assert r.ids[overflow..][r.maxEntries - 1] == r.ids[|r.ids| - 1];
  }

  lemma PushHolds(r: Room, history: seq<Entry>, id: Id, json: string)
    requires Holds(r, history)
    ensures Holds(Push(r, id, json), Pushed(r, history, id, json))
    ensures id in Push(r, id, json).seen
  {
    if id !in r.seen {
      AppendHolds(r, history, id, json);
      if |r.entries| + 1 > r.trimAt {
        TrimHolds(Appended(r, id, json), history + [Entry(id, json)]);
      }
    }
  }

  /**
   A push is a no-op on an id that is held; below the trim point it adds one entry and
   drops none; at the trim point it leaves the newest entries, as many as the cap.
   */
  lemma PushTrimsOnlyWhenOver(r: Room, history: seq<Entry>, id: Id, json: string)
    requires Holds(r, history)
    ensures var p, longer := Push(r, id, json), r.entries + [json];
            && (id in r.seen ==> p == r)
            && (id !in r.seen && |r.entries| < r.trimAt ==>
                  p.entries == longer && p.ids == r.ids + [id] && p.dropped == r.dropped)
            && (id !in r.seen && |r.entries| == r.trimAt ==>
                  p.entries == longer[|longer| - r.maxEntries..] && p.dropped == r.dropped + |longer| - r.maxEntries)
  {
    hide Elements;
  }

  lemma SuffixElements(ids: seq<Id>, n: nat)
    requires Distinct(ids) && n <= |ids|
    ensures Elements(ids) - Elements(ids[..n]) == Elements(ids[n..])
    ensures Distinct(ids[n..])
  {
    assert ids == ids[..n] + ids[n..];
    forall x | x in Elements(ids[n..])
      ensures x !in Elements(ids[..n])
    {
      var j :| n <= j < |ids| && ids[j] == x;
    }
  }

  lemma PushCached(r: Room, history: seq<Entry>, id: Id, json: string)
    requires Holds(r, history) && Cached(r)
    ensures Cached(Push(r, id, json))
  {
    if id !in r.seen && r.base.Some? {
      assert (r.entries + [json])[..r.baseCount] == r.entries[..r.baseCount];
    }
  }

  lemma AppendCompressed(r: Room, history: seq<Entry>, span: Span, id: Id, json: string)
    requires Holds(r, history) && Compressed(r, history, span)
    ensures Compressed(Appended(r, id, json), history + [Entry(id, json)],
                       if r.gz.enabled then span.(last := span.last + 1) else span)
  {
    var e := Entry(id, json);
    assert (history + [e])[span.first..span.last] == history[span.first..span.last];
    if r.gz.enabled {
      StreamGrows(history, span.first, e);
      TaggedSnoc(r.entries, json);
      assert history[span.first..] == [] <==> r.entries == [];
    }
  }

  lemma TrimCompressed(r: Room, history: seq<Entry>, span: Span)
    requires Compressed(r, history, span)
    requires r.dropped + |r.entries| == |history| && 1 <= r.maxEntries <= |r.entries| == |r.ids|
    ensures Compressed(Trimmed(r), history, span)
  {
    var kept := Tagged(r.entries[|r.entries| - r.maxEntries..]);
    assert [] + kept[0..] + [] == kept;
  }

  lemma PushCompressed(r: Room, history: seq<Entry>, span: Span, id: Id, json: string)
    requires Holds(r, history) && Compressed(r, history, span)
    ensures Compressed(Push(r, id, json), Pushed(r, history, id, json), PushedSpan(r, id, span))
  {
    if id !in r.seen {
      AppendCompressed(r, history, span, id, json);
      if |r.entries| + 1 > r.trimAt {
        TrimCompressed(Appended(r, id, json), history + [Entry(id, json)], PushedSpan(r, id, span));
      }
    }
  }

  lemma StreamGrows(history: seq<Entry>, first: nat, e: Entry)
    requires first <= |history|
    ensures Streamed(history + [e], Span(first, |history| + 1))
            == Streamed(history, Span(first, |history|)) + [Tag(history[first..] == [], e.json)]
  {
    var before := history[first..|history|];
    assert before == history[first..];
    assert (history + [e])[first..|history| + 1] == before + [e];
    assert Jsons(before + [e]) == Jsons(before) + [e.json];
    TaggedSnoc(Jsons(before), e.json);
  }

  lemma PushKeeps(r: Room, history: seq<Entry>, span: Span, id: Id, json: string)
    requires RoomInv(r, history, span)
    ensures RoomInv(Push(r, id, json), Pushed(r, history, id, json), PushedSpan(r, id, span))
  {
    PushHolds(r, history, id, json);
    PushCached(r, history, id, json);
    PushCompressed(r, history, span, id, json);
  }

  // ------------------------------------------------------------ Uncompressed

  lemma RebaseKeeps(r: Room, history: seq<Entry>, span: Span)
    requires RoomInv(r, history, span)
    ensures RoomInv(Rebase(r), history, span)
    ensures r.entries != [] ==> Rebase(r).base.Some? && 1 <= Rebase(r).baseCount <= |r.entries|
    ensures r.entries != [] ==> |r.entries| - Rebase(r).baseCount <= REBASE_AFTER
  {
    assert r.entries[..|r.entries|] == r.entries;
  }

  /** A prefix that is not too far behind is used again as it is; otherwise it is made to cover everything. */
  lemma PrefixIsReused(r: Room)
    ensures r.base.Some? && |r.entries| <= r.baseCount + 1024 ==> Rebase(r) == r
    ensures r.entries != [] && (r.base.None? || |r.entries| > r.baseCount + 1024) ==> Rebase(r).baseCount == |r.entries|
    ensures Rebase(r).(base := r.base, baseCount := r.baseCount) == r
  {}

  /** The two chunks are the array of the entries held, and the part built per read is short. */
  lemma PayloadIsArray(r: Room, history: seq<Entry>, span: Span)
    requires RoomInv(r, history, span)
    ensures RoomInv(Rebase(r), history, span)
    ensures r.entries != [] ==> Rebase(r).base.Some? && Rebase(r).baseCount <= |r.entries|
    ensures PayloadOf(r).head + PayloadOf(r).tail == Utf8(ArrayText(r.entries))
    ensures r.entries != [] ==> |r.entries| - Rebase(r).baseCount <= REBASE_AFTER
  {
    RebaseKeeps(r, history, span);
    if r.entries == [] {
      assert ArrayText([]) == "[]";
    } else {
      PrefixAndTail(r.entries, Rebase(r).baseCount);
    }
  }

  lemma PrefixAndTail(entries: seq<string>, n: nat)
    requires 1 <= n <= |entries|
    ensures Utf8("[" + Join(entries[..n]))
            + (if n < |entries| then Utf8("," + Join(entries[n..]) + "]") else CLOSING_BYTE)
            == Utf8(ArrayText(entries))
  {
    var front, back := entries[..n], entries[n..];
    var opening := "[" + Join(front);
    assert entries == front + back;
    if back == [] {
      assert front == entries && Utf8("]") == CLOSING_BYTE;
      Utf8Append(opening, "]");
    } else {
      var closing := "," + Join(back) + "]";
      JoinAppend(front, back);
      assert ArrayText(entries) == opening + closing;
      Utf8Append(opening, closing);
    }
  }

  // ------------------------------------------------------ Everything together

  /**
   The room, its past, and the readers waiting for a compressed answer. A reader
   remembers which generation it captured and how much had been pushed by then.
   `retired` says of each replaced generation whether it had failed.
   */
  datatype Reader = Reader(generation: nat, since: nat)

  datatype System = System(room: Room, history: seq<Entry>, span: Span, retired: seq<bool>, readers: map<nat, Reader>)
  {
    ghost predicate Inv(): (consistent: bool)
      ensures consistent ==>
                room.maxEntries <= room.trimAt && |room.ids| == |room.entries| && room.gz.Valid()
    {
      && RoomInv(room, history, span)
      && ReadersOf(readers, |retired|, |history|, span.last)
    }

    function Update(gz: Feed): System {
      this.(room := room.(gz := gz))
    }
  }

  /** A reader of the live generation began when the stream held no more than it does now. */
  ghost predicate ReadersOf(readers: map<nat, Reader>, generation: nat, pushed: nat, last: nat) {
    forall k :: k in readers ==>
      && readers[k].generation <= generation
      && readers[k].since <= pushed
      && (readers[k].generation == generation ==> readers[k].since <= last)
  }

  datatype Event =
    | PushEntry(id: Id, json: string)
    | Callback                    // a setImmediate callback runs step()
    | StartFlush                  // waiting texts go into the live stream
    | FinishFlush                 // its flush callback
    | LiveFails | BuildingFails   // error events of the two streams
    | StartRead(reader: nat)
    | FinishRead(reader: nat)
    | ReadPlain

  /** What a compressed read comes to; the route answers NoBody and Threw with the uncompressed payload. */
  datatype Answer = Gzip(texts: seq<Text>) | NoBody | Threw | StillWaiting

  function AnswerTo(s: System, reader: Reader): Answer {
    if reader.generation < |s.retired| then
      if s.retired[reader.generation] then NoBody else Threw
    else if !s.room.gz.live.FlushLoopDone() then StillWaiting
    else if s.room.gz.live.failed then NoBody
    else Gzip(s.room.gz.live.texts)
  }

  function Next(s: System, event: Event): System
    requires s.room.maxEntries <= s.room.trimAt && |s.room.ids| == |s.room.entries| && s.room.gz.Valid()
  {
    var gz := s.room.gz;
    match event
    case PushEntry(id, json) =>
      s.(room := Push(s.room, id, json), history := Pushed(s.room, s.history, id, json),
         span := PushedSpan(s.room, id, s.span))
    case Callback =>
      if gz.ticks == 0 then s
      else
        var after := StepFeed(gz);
        var swapped := gz.building.Some? && after.building.None? && after.enabled;
        s.Update(after).(span := SpanAfterStep(s.room, s.history, s.span),
                         retired := if swapped then s.retired + [gz.live.failed] else s.retired)
    case StartFlush => s.Update(StartFlushFeed(gz))
    case FinishFlush => s.Update(FinishFlushFeed(gz))
    case LiveFails => s.Update(FailLive(gz))
    case BuildingFails => s.Update(FailBuilding(gz))
    case StartRead(k) =>
      if gz.enabled then s.(readers := s.readers[k := Reader(|s.retired|, |s.history|)]) else s
    case FinishRead(k) =>
      if k !in s.readers then s
      else (
        match AnswerTo(s, s.readers[k])
        case StillWaiting => s
        case NoBody => s.Update(DisableFeed(gz)).(readers := s.readers - {k})
        case _ => s.(readers := s.readers - {k})
      )
    case ReadPlain => s.(room := Rebase(s.room))
  }

  lemma ChunkMoves(built: seq<Text>, snapshot: seq<Text>, i: nat, j: nat, carry: seq<Text>)
    requires i <= j <= |snapshot|
    ensures built + snapshot[i..] + carry == (built + snapshot[i..j]) + snapshot[j..] + carry
  {
    assert snapshot[i..] == snapshot[i..j] + snapshot[j..];
  }

  function SpanAfterStep(r: Room, history: seq<Entry>, span: Span): Span
    requires r.gz.Valid() && r.gz.ticks > 0
  {
    var after := StepFeed(r.gz);
    if r.gz.building.Some? && after.building.None? && after.enabled then Span(r.dropped, |history|) else span
  }

  lemma StepKeeps(r: Room, history: seq<Entry>, span: Span)
    requires RoomInv(r, history, span) && r.gz.ticks > 0
    ensures RoomInv(r.(gz := StepFeed(r.gz)), history, SpanAfterStep(r, history, span))
  {
    var r' := r.(gz := StepFeed(r.gz));
    assert Holds(r', history) && Cached(r');
    if r.gz.building.Some? {
      StepCompressed(r, history, span);
    }
  }

  lemma StepCompressed(r: Room, history: seq<Entry>, span: Span)
    requires Compressed(r, history, span) && r.gz.ticks > 0 && r.gz.building.Some?
    requires r.dropped < |history| && r.entries == Jsons(history[r.dropped..])
    ensures Compressed(r.(gz := StepFeed(r.gz)), history, SpanAfterStep(r, history, span))
  {
    var f := r.gz;
    var end := if f.cursor + f.chunkSize < |f.snapshot| then f.cursor + f.chunkSize else |f.snapshot|;
    ChunkMoves(f.building.value.texts, f.snapshot, f.cursor, end, f.carry);
    if end == |f.snapshot| {
      assert f.snapshot[end..] == [];
      assert history[r.dropped..|history|] == history[r.dropped..];
    }
  }

  /** Progress inside the compressor, and its failures, leave what the streams hold alone. */
  lemma SameTexts(r: Room, gz: Feed, history: seq<Entry>, span: Span)
    requires RoomInv(r, history, span) && gz.Valid()
    requires gz.live.texts == r.gz.live.texts
    requires gz.enabled == r.gz.enabled && gz.ticks == r.gz.ticks
    requires gz.building.Some? <==> r.gz.building.Some?
    requires gz.building.Some? ==>
               && gz.building.value.texts == r.gz.building.value.texts
               && gz.snapshot == r.gz.snapshot && gz.cursor == r.gz.cursor && gz.carry == r.gz.carry
    ensures RoomInv(r.(gz := gz), history, span)
  {
    hide Streamed, Tagged, Ids, Jsons, Elements;
  }

  lemma DisableKeeps(r: Room, history: seq<Entry>, span: Span)
    requires RoomInv(r, history, span)
    ensures RoomInv(r.(gz := DisableFeed(r.gz)), history, span)
  {
    hide Streamed, Tagged, Ids, Jsons, Elements;
  }

  lemma NextKeeps(s: System, event: Event)
    requires s.Inv()
    ensures Next(s, event).Inv()
  {
    hide RoomInv, StepFeed, Push, Rebase;
    var gz := s.room.gz;
    FeedIsValid(s.room, s.history, s.span);
    match event
    case PushEntry(id, json) => PushKeeps(s.room, s.history, s.span, id, json);
    case Callback =>
      if gz.ticks > 0 {
        StepKeeps(s.room, s.history, s.span);
        StepSpans(s.room, s.history, s.span);
      }
    case FinishRead(k) => DisableKeeps(s.room, s.history, s.span);
    case ReadPlain => RebaseKeeps(s.room, s.history, s.span);
    case StartRead(k) =>
    case _ => SameTexts(s.room, Next(s, event).room.gz, s.history, s.span);
  }

  lemma FeedIsValid(r: Room, history: seq<Entry>, span: Span)
    requires RoomInv(r, history, span)
    ensures r.gz.Valid() && r.maxEntries <= r.trimAt && |r.ids| == |r.entries|
    ensures r.gz.enabled ==> span.last == |history|
    ensures span.last <= |history|
  {}

  /** Only a completed rebuild moves the span, and then to the whole of what has been pushed. */
  lemma StepSpans(r: Room, history: seq<Entry>, span: Span)
    requires RoomInv(r, history, span) && r.gz.ticks > 0
    ensures var after := StepFeed(r.gz);
            if r.gz.building.Some? && after.building.None? && after.enabled
            then SpanAfterStep(r, history, span).last == |history|
            else SpanAfterStep(r, history, span) == span
  {}

  /**
   The compressed feed goes off, for good, exactly when a failure is noticed: of the live
   stream by a push or at the end of a read, of the replacement by a callback.
   */
  lemma WhatTurnsTheFeedOff(s: System, event: Event)
    requires s.Inv()
    ensures Next(s, event).room.gz.enabled <==>
              && s.room.gz.enabled
              && !(event.PushEntry? && event.id !in s.room.seen && s.room.gz.live.failed)
              && !(event.Callback? && s.room.gz.building.Some? && s.room.gz.building.value.failed)
              && !(event.FinishRead? && event.reader in s.readers
                   && AnswerTo(s, s.readers[event.reader]) == NoBody)
    ensures Next(s, LiveFails).room.gz.live.failed
    ensures s.room.gz.building.Some? ==> Next(s, BuildingFails).room.gz.building.value.failed
  {
    hide Tagged, Elements, Streamed;
  }

  /**
   A read that begins while the feed is on is for everything pushed so far, from the
   stream then live, and it is over once it is answered.
   */
  lemma ReadBegins(s: System, k: nat)
    requires s.Inv()
    ensures Next(s, StartRead(k)).readers
            == if s.room.gz.enabled then s.readers[k := Reader(|s.retired|, |s.history|)] else s.readers
    ensures Next(s, StartRead(k)).room == s.room
    ensures k in s.readers ==>
              Next(s, FinishRead(k)).readers
              == if AnswerTo(s, s.readers[k]).StillWaiting? then s.readers else s.readers - {k}
  {}

  /** After a plain read the cached prefix covers all but 1024 of the entries, and nothing else has changed. */
  lemma PlainReadCaches(s: System)
    requires s.Inv()
    ensures var t := Next(s, ReadPlain);
            && (s.room.entries != [] ==>
                  && t.room.base.Some? && |s.room.entries| - 1024 <= t.room.baseCount <= |s.room.entries|
                  && t.room.base.value == Utf8("[" + Join(s.room.entries[..t.room.baseCount])))
            && t == s.(room := s.room.(base := t.room.base, baseCount := t.room.baseCount))
  {
    RebaseKeeps(s.room, s.history, s.span);
  }

  function Run(s: System, events: seq<Event>): System
    requires s.Inv()
    ensures Run(s, events).Inv()
    decreases |events|
  {
    if events == [] then s
    else
      NextKeeps(s, events[0]);
      Run(Next(s, events[0]), events[1..])
  }

  function Start(maxEntries: nat, trimAt: nat, chunkSize: nat): System {
    System(EmptyRoom(maxEntries, trimAt, chunkSize), [], Span(0, 0), [], map[])
  }

  /** Every state any interleaving leads to is consistent. */
  lemma EveryRunIsConsistent(maxEntries: nat, trimAt: nat, chunkSize: nat, events: seq<Event>)
    requires 1 <= maxEntries <= trimAt && chunkSize >= 1
    ensures Start(maxEntries, trimAt, chunkSize).Inv()
    ensures Run(Start(maxEntries, trimAt, chunkSize), events).Inv()
  {
    EmptyRoomInv(maxEntries, trimAt, chunkSize);
  }

  // ---------------------------------------------------------------- Progress

  /** How many callbacks a rebuild still needs, at least one while it runs. */
  function Remaining(f: Feed): nat {
    if f.building.None? then 0
    else if f.cursor < |f.snapshot| then |f.snapshot| - f.cursor + 1 else 1
  }

  lemma CallbackMakesProgress(s: System)
    requires s.Inv()
    ensures s.room.gz.building.Some? ==> s.room.gz.ticks > 0
    ensures Next(s, Callback).Inv() && Next(s, Callback).room.entries == s.room.entries
    ensures s.room.gz.building.Some? ==> Remaining(Next(s, Callback).room.gz) < Remaining(s.room.gz)
    ensures s.room.gz.building.None? ==> Next(s, Callback).room.gz.building.None?
  {
    NextKeeps(s, Callback);
  }

  function Callbacks(n: nat): seq<Event> {
    if n == 0 then [] else [Callback] + Callbacks(n - 1)
  }

  /** Left to itself a rebuild ends, and what it leaves is the room and nothing but the room. */
  lemma {:induction false} RebuildEnds(s: System, n: nat)
    requires s.Inv() && n >= Remaining(s.room.gz)
    ensures var t := Run(s, Callbacks(n));
            && t.room.gz.building.None?
            && t.room.entries == s.room.entries
            && (t.room.gz.enabled ==> t.room.gz.live.texts == Tagged(t.room.entries))
    decreases n
  {
    if n == 0 {
      assert s.history[s.span.first..|s.history|] == s.history[s.span.first..];
    } else {
      var t := Next(s, Callback);
      CallbackMakesProgress(s);
      assert Callbacks(n)[0] == Callback && Callbacks(n)[1..] == Callbacks(n - 1);
      assert Run(s, Callbacks(n)) == Run(t, Callbacks(n - 1));
      RebuildEnds(t, n - 1);
    }
  }

  // --------------------------------------------------------------- The reply

  /**
   While the feed is on, the live stream holds a run of entries just dropped, empty unless
   a rebuild runs, and then the room.
   */
  lemma StreamEndsWithTheRoom(r: Room, history: seq<Entry>, span: Span)
    requires RoomInv(r, history, span)
    ensures span.first <= span.last <= |history| && span.first <= r.dropped <= |history|
    ensures r.gz.enabled ==>
              && span.last == |history|
              && Jsons(history[span.first..span.last]) == Jsons(history[span.first..r.dropped]) + r.entries
    ensures r.gz.enabled && r.gz.building.None? ==>
              span.first == r.dropped && Jsons(history[span.first..span.last]) == r.entries
  {
    hide Tagged, Elements, Distinct;
    if r.gz.enabled {
      var gone, kept := history[span.first..r.dropped], history[r.dropped..];
      assert history[span.first..span.last] == gone + kept;
      assert Jsons(gone + kept) == Jsons(gone) + Jsons(kept);
      if r.gz.building.None? {
        assert Jsons(gone) == [];
      }
    }
  }

  /**
   What the texts of the live stream and its closing bracket spell: an array, or a bare
   bracket if nothing was ever pushed.
   */
  lemma StreamSpells(r: Room, history: seq<Entry>, span: Span)
    requires RoomInv(r, history, span)
    ensures span.first <= span.last <= |history|
    ensures Flatten(r.gz.live.texts) + CLOSING_BYTE
            == if span.last == 0 then CLOSING_BYTE else Utf8(ArrayText(Jsons(history[span.first..span.last])))
  {
    hide Utf8, Flatten, ArrayText, Suffix, Cached, Tagged;
    StreamIsArray(Jsons(history[span.first..span.last]));
    if span.last == 0 {
      assert history[span.first..span.last] == [];
      NothingTagged();
    }
  }

  lemma NothingTagged()
    ensures Flatten(Tagged([])) == [] && Jsons([]) == []
  {}

  /** What the live stream shows: StreamEndsWithTheRoom and StreamSpells together. */
  lemma StreamShows(r: Room, history: seq<Entry>, span: Span)
    requires RoomInv(r, history, span)
    ensures span.first <= span.last <= |history| && span.first <= r.dropped
    ensures Flatten(r.gz.live.texts) + CLOSING_BYTE
            == if span.last == 0 then CLOSING_BYTE else Utf8(ArrayText(Jsons(history[span.first..span.last])))
    ensures r.gz.enabled ==> span.last == |history|
                             && exists gone :: Jsons(history[span.first..span.last]) == gone + r.entries
    ensures r.gz.enabled && r.gz.building.None? ==>
              span.first == r.dropped && Jsons(history[span.first..span.last]) == r.entries
  {
    hide RoomInv, Utf8, Flatten, ArrayText;
    StreamEndsWithTheRoom(r, history, span);
    StreamSpells(r, history, span);
  }

  /**
   A compressed answer always comes from the stream now live. It misses nothing
   pushed before the read began, may show a run of entries just dropped while a
   rebuild is under way, and is otherwise exactly the room.
   */
  lemma CompressedAnswer(s: System, k: nat)
    requires s.Inv() && k in s.readers && AnswerTo(s, s.readers[k]).Gzip?
    ensures var shown := Jsons(s.history[s.span.first..s.span.last]);
            && AnswerTo(s, s.readers[k]).texts == Tagged(shown)
            && (Flatten(Tagged(shown)) + CLOSING_BYTE == Utf8(ArrayText(shown)) <==> shown != [])
            && s.span.first <= s.room.dropped
            && s.readers[k].since <= s.span.last
            && (s.room.gz.enabled ==> exists gone :: shown == gone + s.room.entries)
            && (s.room.gz.enabled && s.room.gz.building.None? ==> shown == s.room.entries)
    ensures s.readers[k].generation == |s.retired|
  {
    hide Utf8, Flatten, ArrayText, Suffix, Cached, Tagged;
    StreamIsArray(Jsons(s.history[s.span.first..s.span.last]));
    StreamEndsWithTheRoom(s.room, s.history, s.span);
  }

  /** A read of the live stream waits exactly as long as something it holds has not come out of the compressor. */
  lemma AnswersOnlyWhenFlushed(s: System, k: nat)
    requires s.Inv() && k in s.readers
    ensures var live, answer := s.room.gz.live, AnswerTo(s, s.readers[k]);
            && (answer.StillWaiting? <==>
                  s.readers[k].generation == |s.retired| && !live.failed && live.settled < |live.texts|)
            && (answer.Gzip? <==>
                  s.readers[k].generation == |s.retired| && !live.failed && live.settled == |live.texts|)
  {}

  /** What the route sends: the compressed answer if there is one, otherwise the payload as it is now. */
  function Reply(s: System, k: nat): seq<Byte>
    requires s.Inv() && k in s.readers
  {
    match AnswerTo(s, s.readers[k])
    case Gzip(texts) => Flatten(texts) + CLOSING_BYTE
    case _ =>
      PayloadIsArray(s.room, s.history, s.span);
      PayloadOf(s.room).head + PayloadOf(s.room).tail
  }

  /**
   Whatever happened to the compressor meanwhile, a read of a room that holds something
   gets one JSON array of consecutive entries.
   */
  lemma RouteAnswersWithTheRoom(s: System, k: nat)
    requires s.Inv() && k in s.readers && s.readers[k].since > 0
    requires !AnswerTo(s, s.readers[k]).StillWaiting?
    ensures exists first: nat, last: nat ::
              && first <= s.room.dropped && first <= last <= |s.history| && s.readers[k].since <= last
              && Reply(s, k) == Utf8(ArrayText(Jsons(s.history[first..last])))
  {
    if AnswerTo(s, s.readers[k]).Gzip? {
      CompressedAnswer(s, k);
      assert Reply(s, k) == Utf8(ArrayText(Jsons(s.history[s.span.first..s.span.last])));
    } else {
      PayloadIsArray(s.room, s.history, s.span);
      assert s.history[s.room.dropped..|s.history|] == s.history[s.room.dropped..];
      assert Reply(s, k) == Utf8(ArrayText(Jsons(s.history[s.room.dropped..|s.history|])));
    }
  }

  /**
   A callback cuts off a read of the live stream, which then throws whether or not
   all it asked for had been flushed, exactly when a rebuild is under way whose
   stream has not failed and whose snapshot ends with this chunk. What is live then
   is the room.
   */
  lemma SwapCutsOffReads(s: System, k: nat)
    requires s.Inv() && k in s.readers && s.readers[k].generation == |s.retired|
    ensures var t := Next(s, Callback);
            && k in t.readers
            && (AnswerTo(t, t.readers[k]) == Threw <==> !s.room.gz.live.failed && Swaps(s.room.gz))
            && (!Swaps(s.room.gz) ==> AnswerTo(t, t.readers[k]) == AnswerTo(s, s.readers[k]))
            && (Swaps(s.room.gz) && s.room.gz.live.failed ==> AnswerTo(t, t.readers[k]) == NoBody)
    ensures Swaps(s.room.gz) ==> Next(s, Callback).room.gz.live.texts == Tagged(s.room.entries)
  {
    NextKeeps(s, Callback);
    var t := Next(s, Callback);
    assert t.history[t.span.first..|t.history|] == t.history[t.span.first..];
  }

  /**
   A read waits for nothing but the compressor: with no push meanwhile it ends
   once the flush under way, if any, and one more have ended.
   */
  lemma ReadEnds(s: System, k: nat)
    requires s.Inv() && k in s.readers
    ensures var t := Run(s, [FinishFlush, StartFlush, FinishFlush]);
            k in t.readers && t.readers[k] == s.readers[k] && !AnswerTo(t, t.readers[k]).StillWaiting?
            && t.room.entries == s.room.entries
  {
    hide RoomInv;
    FeedIsValid(s.room, s.history, s.span);
    RunThree(s, FinishFlush, StartFlush, FinishFlush, []);
    assert [FinishFlush, StartFlush, FinishFlush] + [] == [FinishFlush, StartFlush, FinishFlush];
    RunNone(Next(Next(Next(s, FinishFlush), StartFlush), FinishFlush));
  }

  lemma RunOne(s: System, a: Event, rest: seq<Event>)
    requires s.Inv()
    ensures Next(s, a).Inv() && Run(s, [a] + rest) == Run(Next(s, a), rest)
  {
    hide Next, System.Inv;
    NextKeeps(s, a);
    assert ([a] + rest)[1..] == rest;
  }

  lemma RunThree(s: System, a: Event, b: Event, c: Event, rest: seq<Event>)
    requires s.Inv()
    ensures Next(s, a).Inv() && Next(Next(s, a), b).Inv() && Next(Next(Next(s, a), b), c).Inv()
    ensures Run(s, [a, b, c] + rest) == Run(Next(Next(Next(s, a), b), c), rest)
  {
    hide Next, Run, System.Inv;
    var two, one := [b, c] + rest, [c] + rest;
    RunOne(s, a, two);
    var s1 := Next(s, a);
    RunOne(s1, b, one);
    RunOne(Next(s1, b), c, rest);
    OneByOne(a, b, c, rest);
  }

  lemma OneByOne(a: Event, b: Event, c: Event, rest: seq<Event>)
    ensures [a, b, c] + rest == [a] + ([b, c] + rest) && [b, c] + rest == [b] + ([c] + rest)
  {}

  lemma RunNone(s: System)
    requires s.Inv()
    ensures Run(s, []) == s
  {}

  /**
   It happens: a cap of one, so a trim point of two, three pushes, and a read under way
   when the one callback of the rebuild runs.
   */
  lemma SwapCutOffHappens(a: string, b: string, c: string)
    ensures Start(1, 2, 256).Inv()
    ensures var t := Run(Start(1, 2, 256), [PushEntry("a", a), PushEntry("b", b), PushEntry("c", c)]
                                           + ([StartRead(0)] + ([Callback] + [])));
            0 in t.readers && AnswerTo(t, t.readers[0]) == Threw && t.room.entries == [c]
  {
    hide Run, System.Inv;
    EveryRunIsConsistent(1, 2, 256, []);
    var s := Start(1, 2, 256);
    RunThree(s, PushEntry("a", a), PushEntry("b", b), PushEntry("c", c), [StartRead(0)] + ([Callback] + []));
    var t := Next(Next(Next(s, PushEntry("a", a)), PushEntry("b", b)), PushEntry("c", c));
    TrimmedToOne(a, b, c);
    RunOne(t, StartRead(0), [Callback] + []);
    var u := Next(t, StartRead(0));
    RunOne(u, Callback, []);
    RunNone(Next(u, Callback));
    SwapCutsOffReads(u, 0);
  }

  lemma TrimmedToOne(a: string, b: string, c: string)
    ensures var r := Push(Push(Push(EmptyRoom(1, 2, 256), "a", a), "b", b), "c", c);
            && r.entries == [c] && r.gz.enabled && !r.gz.live.failed && r.gz.ticks == 1
            && r.gz.building == Some(EMPTY_GEN) && |r.gz.snapshot| == 1 && r.gz.cursor == 0 && r.gz.chunkSize == 256
  {
    var two := Push(Push(EmptyRoom(1, 2, 256), "a", a), "b", b);
    assert two.entries == [a, b] && two.ids == ["a", "b"] && two.seen == {"a", "b"};
    assert Push(two, "c", c).entries == [a, b, c][2..];
  }

  /** The one room the compressed answer gets wrong: with nothing ever pushed it is a bare closing bracket. */
  lemma EmptyRoomReply(maxEntries: nat, trimAt: nat, chunkSize: nat)
    requires 1 <= maxEntries <= trimAt && chunkSize >= 1
    ensures Start(maxEntries, trimAt, chunkSize).Inv()
    ensures (var s := Next(Start(maxEntries, trimAt, chunkSize), StartRead(0));
             s.Inv() && 0 in s.readers && Reply(s, 0) == Utf8("]") != Utf8(ArrayText(s.room.entries)))
  {
    EmptyRoomInv(maxEntries, trimAt, chunkSize);
    NextKeeps(Start(maxEntries, trimAt, chunkSize), StartRead(0));
    StreamIsArray([]);
    assert Flatten<Byte>([]) == [] && Tagged([]) == [];
  }
}
