/** The in-memory room: what /message and the change stream add to, and what /feed is served from. */
module FeedStores {
  import opened Collections
  import opened Gzip
  import opened FeedSpec
  import opened RoomSpec
  import opened EntryText
  import opened Generations
  import opened GzipFeeds

  class FeedStore {
    const maxEntries: nat
    const trimAt: nat
    var entries: seq<string>
    var ids: seq<Id>
    var seen: set<Id>
    var base: Option<seq<Byte>>
    var baseCount: nat
    var dropped: nat
    var gzip: GzipFeed

    /** Every entry a push ever added, and which of them the live compressed stream holds. */
    ghost var history: seq<Entry>
    ghost var span: Span

    ghost function State(): Room
      reads this, gzip, gzip.live, gzip.building
    {
      Room(entries, ids, seen, base, baseCount, dropped, maxEntries, trimAt, gzip.State())
    }

    ghost predicate Apart()
      reads this, gzip, gzip.live, gzip.building, gzip.Objects()
    {
      this !in gzip.Objects() && gzip.Valid()
    }

    ghost predicate Valid()
      reads this, gzip, gzip.live, gzip.building, gzip.Objects()
    {
      Apart() && RoomInv(State(), history, span)
    }

    constructor (ghost codec: Codec, maxEntries: nat, trimAt: nat, chunkSize: nat)
      requires 1 <= maxEntries <= trimAt && chunkSize >= 1
      ensures Valid() && State() == EmptyRoom(maxEntries, trimAt, chunkSize)
      ensures history == [] && span == Span(0, 0) && fresh(gzip.Objects())
    {
      hide RoomInv, Generation.Valid, GzipFeed.Valid;
      this.maxEntries := maxEntries;
      this.trimAt := trimAt;
      entries, ids, seen := [], [], {};
      base, baseCount, dropped := None, 0, 0;
      gzip := new GzipFeed(codec, chunkSize);
      history, span := [], Span(0, 0);
      new;
      EmptyRoomInv(maxEntries, trimAt, chunkSize);
    }

    method AppendEntry(id: Id, json: string)
      requires Apart()
      modifies this`seen, this`ids, this`entries, gzip, gzip.live, gzip.building
      ensures Apart() && State() == Appended(old(State()), id, json)
      ensures fresh(gzip.Objects() - old(gzip.Objects()))
    {
      hide Generation.Valid, Tag, GzipFeed.Valid;
      seen := seen + {id};
      ids := ids + [id];
      entries := entries + [json];
      gzip.Append(Tag(|entries| == 1, json));
    }

    method Trim()
      requires Apart() && maxEntries <= |entries| == |ids|
      modifies this`seen, this`ids, this`entries, this`dropped, this`base, this`baseCount, gzip, gzip.building
      ensures Apart() && State() == Trimmed(old(State()))
      ensures fresh(gzip.Objects() - old(gzip.Objects()))
    {
      hide Generation.Valid, Tagged, GzipFeed.Valid;
      var overflow := |entries| - maxEntries;
      seen := seen - Elements(ids[..overflow]);
      ids := ids[overflow..];
      entries := entries[overflow..];
      dropped := dropped + overflow;
      base, baseCount := None, 0;
      gzip.Rebuild(Tagged(entries));
    }

    /** An entry whose id is not held goes in; past the slack, the oldest go, down to the cap. */
    method AddNew(id: Id, json: string)
      requires Apart() && maxEntries <= trimAt && |ids| == |entries| && id !in seen
      modifies this`seen, this`ids, this`entries, this`dropped, this`base, this`baseCount
      modifies gzip, gzip.live, gzip.building
      ensures Apart() && State() == Push(old(State()), id, json)
      ensures fresh(gzip.Objects() - old(gzip.Objects()))
    {
      hide Generation.Valid, Appended, Trimmed, GzipFeed.Valid, Elements, RoomInv;
      AppendEntry(id, json);
      if |entries| > trimAt {
        Trim();
      }
    }

    /** Adds an entry unless its id is held. */
    method Add(id: Id, json: string) returns (added: bool)
      requires Valid()
      modifies this, gzip, gzip.live, gzip.building
      ensures Valid() && State() == Push(old(State()), id, json)
      ensures added <==> id !in old(seen)
      ensures id in seen
      ensures history == Pushed(old(State()), old(history), id, json)
      ensures gzip == old(gzip) && fresh(gzip.Objects() - old(gzip.Objects()))
    {
      hide RoomInv, Generation.Valid, Appended, Trimmed, GzipFeed.Valid, Elements;
      PushKeeps(State(), history, span, id, json);
      IdIsHeld(State(), history, span, id, json);
      if id in seen {
        return false;
      }
      history, span := Pushed(State(), history, id, json), PushedSpan(State(), id, span);
      AddNew(id, json);
      added := true;
    }

    /** Adds what a load or a resync has read, in order. */
    method AddAll(batch: seq<Entry>) returns (added: nat)
      requires Valid()
      modifies this, gzip, gzip.live, gzip.building
      ensures Valid()
      ensures old(maxEntries <= trimAt && |ids| == |entries|) && State() == PushAll(old(State()), batch)
      ensures |history| == |old(history)| + added
      ensures gzip == old(gzip) && fresh(gzip.Objects() - old(gzip.Objects()))
    {
      hide RoomInv, Generation.Valid, Push, GzipFeed.Valid;
      IdIsHeld(State(), history, span, "", "");
      added := 0;
      for i := 0 to |batch|
        invariant Valid() && gzip == old(gzip) && fresh(gzip.Objects() - old(gzip.Objects()))
        invariant maxEntries <= trimAt && |ids| == |entries|
        invariant PushAll(State(), batch[i..]) == PushAll(old(State()), batch)
        invariant |history| == |old(history)| + added
      {
        assert batch[i..][0] == batch[i] && batch[i..][1..] == batch[i + 1..];
        var isNew := Add(batch[i].id, batch[i].json);
        if isNew {
          added := added + 1;
        }
        IdIsHeld(State(), history, span, "", "");
      }
    }

    /** The uncompressed whole-room response, in two chunks. */
    method WholeRoom() returns (payload: Payload)
      requires Valid()
      modifies this`base, this`baseCount
      ensures Valid() && State() == Rebase(old(State()))
      ensures payload.head + payload.tail == Utf8(ArrayText(entries))
      ensures entries != [] ==> |entries| - baseCount <= REBASE_AFTER
    {
      hide RoomInv, Generation.Valid;
      PayloadIsArray(State(), history, span);
      if entries == [] {
        return Payload(Utf8("[]"), []);
      }
      if base.None? || |entries| - baseCount > REBASE_AFTER {
        base := Some(Utf8("[" + Join(entries)));
        baseCount := |entries|;
      }
      var tail := if |entries| > baseCount then Utf8("," + Join(entries[baseCount..]) + "]") else CLOSING_BYTE;
      payload := Payload(base.value, tail);
    }

    // ------------------------------------------------- Turns of the compressor

    /** A setImmediate callback runs step(). */
    method RunCallback()
      requires Valid() && gzip.ticks > 0
      modifies this`span, gzip, gzip.live, gzip.building
      ensures Valid() && State() == old(State()).(gz := StepFeed(old(gzip.State())))
      ensures old(gzip.State().Valid()) && span == SpanAfterStep(old(State()), history, old(span))
      ensures gzip.live != old(gzip.live) <==> old(Swaps(gzip.State()))
      ensures gzip.Left(old(gzip.live), old(gzip.live.pending), old(gzip.live.flushing), old(gzip.live.buffers))
      ensures old(gzip.live).State() == old(gzip.live.State())
      ensures gzip.Objects() <= old(gzip.Objects())
    {
      hide RoomInv, Generation.Valid, StepFeed;
      FeedIsValid(State(), history, span);
      StepKeeps(State(), history, span);
      span := SpanAfterStep(State(), history, span);
      gzip.Step();
    }

    /** The live stream's next round of flush(), if it is due. */
    method StartFlush() returns (chunk: Option<seq<Byte>>)
      requires Valid()
      modifies gzip.live
      ensures Valid() && State() == old(State()).(gz := StartFlushFeed(old(gzip.State())))
      ensures gzip.live.output == old(gzip.live.output)
      ensures gzip.live.pending == if chunk.Some? then [] else old(gzip.live.pending)
      ensures chunk.Some? ==>
                && gzip.live.flushing == chunk == Some(Flatten(old(gzip.live.pending)))
                && gzip.live.emerging == [] && gzip.live.through == old(gzip.live.through)
      ensures chunk.None? ==> gzip.live.flushing == old(gzip.live.flushing)
      ensures chunk.None? <==> gzip.live.failed || old(gzip.live.flushing).Some? || old(gzip.live.pending) == []
      ensures gzip.Objects() == old(gzip.Objects())
    {
      hide RoomInv, Generation.Valid;
      SameTexts(State(), StartFlushFeed(gzip.State()), history, span);
      chunk := gzip.StartFlush();
    }

    /** A piece of its output arrives. */
    method Collect(chunk: seq<Byte>)
      requires Valid() && gzip.live.flushing.Some?
      modifies gzip.live, gzip.live.output
      ensures Valid() && State() == old(State()) && gzip.live.flushing == old(gzip.live.flushing)
      ensures gzip.live.emerging == old(gzip.live.emerging) + chunk
      ensures gzip.live.through == old(gzip.live.through) && gzip.live.pending == old(gzip.live.pending)
      ensures fresh(gzip.Objects() - old(gzip.Objects()))
    {
      hide RoomInv, Generation.Valid;
      gzip.Collect(chunk);
    }

    /** The flush callback. */
    method FinishFlush()
      requires Valid() && gzip.live.flushing.Some?
      requires SyncFlushed(gzip.codec, gzip.live.through, gzip.live.emerging, gzip.live.flushing.value)
      modifies gzip.live
      ensures Valid() && State() == old(State()).(gz := FinishFlushFeed(old(gzip.State())))
      ensures gzip.live.flushing.None? && gzip.live.pending == old(gzip.live.pending)
      ensures gzip.Objects() == old(gzip.Objects())
    {
      hide RoomInv, Generation.Valid;
      SameTexts(State(), FinishFlushFeed(gzip.State()), history, span);
      gzip.FinishFlush();
    }

    /** The error events of the two streams. */
    method LiveFails()
      requires Valid()
      modifies gzip.live
      ensures Valid() && State() == old(State()).(gz := FailLive(old(gzip.State())))
      ensures gzip.Objects() == old(gzip.Objects())
    {
      hide RoomInv, Generation.Valid;
      SameTexts(State(), FailLive(gzip.State()), history, span);
      gzip.LiveFails();
    }

    method BuildingFails()
      requires Valid()
      modifies gzip.building
      ensures Valid() && State() == old(State()).(gz := FailBuilding(old(gzip.State())))
      ensures gzip.Objects() == old(gzip.Objects())
    {
      hide RoomInv, Generation.Valid;
      SameTexts(State(), FailBuilding(gzip.State()), history, span);
      gzip.BuildingFails();
    }

    // ---------------------------------------------------------------- The route

    /** What the live stream holds: the pushes from span.first up to span.last. */
    ghost function Streaming(): seq<string>
      requires span.first <= span.last <= |history|
      reads this
    {
      Jsons(history[span.first..span.last])
    }

    /**
     The end of a read by /feed, for a client that takes gzip. `generation` is the
     stream captured when the read began, null if the feed was off. The client gets
     either one gzip member, which decodes to the JSON array of what the live stream
     holds (or to a bare bracket if nothing was ever pushed), or the array itself.
     */
    method Serve(generation: Generation?) returns (served: Served)
      requires Valid()
      requires generation != null ==> generation.Valid()
      requires generation == gzip.live ==>
                 gzip.live.failed || (gzip.live.pending == [] && gzip.live.flushing.None?)
      requires generation != null && generation != gzip.live ==>
                 generation.output == null && gzip.Apart(generation)
      modifies this`base, this`baseCount, gzip, gzip.building
      modifies if generation == null then {} else {generation}
      ensures Valid() && history == old(history) && span == old(span) && entries == old(entries)
      ensures gzip.live == old(gzip.live)
      ensures gzip.State() == if generation != null && old(generation.failed) then DisableFeed(old(gzip.State()))
                              else old(gzip.State())
      ensures served.Zipped? <==> generation == gzip.live && !gzip.live.failed
      ensures span.first <= span.last <= |history| && span.first <= dropped
      ensures served.Zipped? ==>
                && served.body.used <= served.body.buffer.Length
                && served.body.length == |served.body.Bytes()|
                && Gunzip(gzip.codec, served.body.Bytes())
                   == Ok(if span.last == 0 then CLOSING_BYTE else Utf8(ArrayText(Streaming())))
      ensures gzip.enabled ==> span.last == |history| && exists gone :: Streaming() == gone + entries
      ensures gzip.enabled && gzip.building == null ==> span.first == dropped && Streaming() == entries
      ensures served.Plain? ==> served.payload.head + served.payload.tail == Utf8(ArrayText(entries))
    {
      hide RoomInv, Generation.Valid, Gunzip, Utf8, Flatten, Tagged, ArrayText;
      StreamShows(State(), history, span);
      if generation != null {
        DisableKeeps(State(), history, span);
        var answer := gzip.FinishBody(generation);
        if answer.Compressed? {
          return Zipped(answer.body);
        }
      }
      StreamShows(State(), history, span);
      var payload := WholeRoom();
      served := Plain(payload);
    }

    /**
     A whole read that nothing comes between: what waits is flushed, `emitted`
     being what the compressor makes of it behind the text it already has, and the
     client gets the array.
     */
    method ReadFeed(emitted: seq<Byte>) returns (served: Served)
      requires Valid() && gzip.live.flushing.None?
      requires SyncFlushed(gzip.codec, gzip.live.through, emitted, Flatten(gzip.live.pending))
      modifies this`base, this`baseCount, gzip, gzip.building, gzip.live, gzip.live.output
      ensures Valid() && history == old(history) && span == old(span) && entries == old(entries)
      ensures served.Zipped? <==> old(gzip.enabled && !gzip.live.failed)
      ensures span.first <= span.last <= |history|
      ensures served.Zipped? ==>
                && span.last == |history|
                && served.body.used <= served.body.buffer.Length
                && Gunzip(gzip.codec, served.body.Bytes())
                   == Ok(if history == [] then CLOSING_BYTE else Utf8(ArrayText(Streaming())))
                && exists gone :: Streaming() == gone + entries
      ensures span.first <= dropped && (served.Zipped? && gzip.building == null ==> span.first == dropped)
      ensures served.Zipped? && gzip.building == null && history != [] ==>
                Gunzip(gzip.codec, served.body.Bytes()) == Ok(Utf8(ArrayText(entries)))
      ensures served.Plain? ==> served.payload.head + served.payload.tail == Utf8(ArrayText(entries))
    {
      hide RoomInv, Generation.Valid, Gunzip, Utf8, Flatten, SyncFlushed, ArrayText;
      var generation := gzip.StartBody();
      var chunk := StartFlush();
      if chunk.Some? {
        Collect(emitted);
        assert [] + emitted == emitted;
        FinishFlush();
      }
      served := Serve(generation);
    }

    /**
     A read with a callback of step() between its two halves. If the callback
     swaps, the client gets the uncompressed array, and otherwise the compressed one.
     */
    method ReadAcrossCallback() returns (served: Served)
      requires Valid() && gzip.ticks > 0 && gzip.enabled && !gzip.live.failed
      requires gzip.live.pending == [] && gzip.live.flushing.None?
      modifies this`base, this`baseCount, this`span, gzip, gzip.live, gzip.building
      ensures Valid() && history == old(history) && entries == old(entries)
      ensures served.Plain? <==> old(Swaps(gzip.State()))
      ensures span.first <= span.last <= |history|
      ensures served.Zipped? ==>
                && served.body.used <= served.body.buffer.Length
                && Gunzip(gzip.codec, served.body.Bytes())
                   == Ok(if span.last == 0 then CLOSING_BYTE else Utf8(ArrayText(Streaming())))
      ensures served.Plain? ==> served.payload.head + served.payload.tail == Utf8(ArrayText(entries))
    {
      hide RoomInv, Generation.Valid, Gunzip, Utf8, Flatten, SyncFlushed, ArrayText, StepFeed, SpanAfterStep;
      var generation := gzip.StartBody();
      RunCallback();
      served := Serve(generation);
    }

    // ------------------------------------------------------------------ Messages

    /** Every push so far was one of these messages, in this order. */
    ghost predicate Speaks(messages: seq<Message>)
      reads this
    {
      Jsons(history) == Lines(messages)
    }

    /** addLocal(), and what a stored document comes to. */
    method AddMessage(m: Message, ghost messages: seq<Message>) returns (added: bool)
      requires Valid() && Speaks(messages)
      modifies this, gzip, gzip.live, gzip.building
      ensures Valid() && State() == Push(old(State()), m.id, Serialise(m))
      ensures added <==> m.id !in old(seen)
      ensures m.id in seen && Speaks(if added then messages + [m] else messages)
      ensures gzip == old(gzip) && fresh(gzip.Objects() - old(gzip.Objects()))
    {
      hide RoomInv, Generation.Valid, Push, Serialise, Lines;
      LinesSnoc(messages, m);
      added := Add(m.id, Serialise(m));
      assert added ==> Jsons(history) == Jsons(old(history)) + [Serialise(m)];
    }

    /** The entries held, and what the live stream holds, are messages pushed one after another. */
    lemma SpeaksInSlices(messages: seq<Message>)
      requires Valid() && Speaks(messages)
      ensures span.first <= span.last <= |messages| == |history| && dropped <= |messages|
      ensures entries == Lines(messages[dropped..])
      ensures Streaming() == Lines(messages[span.first..span.last])
    {
      hide Lines, Elements, Distinct, Generation.Valid, GzipFeed.Valid;
      LinesLength(messages);
      LinesSlice(messages, dropped, |messages|);
      assert messages[dropped..|messages|] == messages[dropped..];
      LinesSlice(messages, span.first, span.last);
      assert Jsons(history)[dropped..] == Jsons(history[dropped..]);
      assert Jsons(history)[span.first..span.last] == Jsons(history[span.first..span.last]);
    }

    /**
     The narrowed views: the last `limit` of the messages held that are newer than
     `since`, each bound being off if it is not positive.
     */
    method Narrowed(limit: int, since: int, ghost messages: seq<Message>) returns (body: seq<Byte>)
      requires Valid() && Speaks(messages)
      ensures dropped <= |messages|
      ensures var held := messages[dropped..];
              ReadBytes(body) == Some(Last(if since > 0 then Since(held, since) else held, limit))
    {
      hide RoomInv, Generation.Valid, Lines, ReadBytes, Since, Newer, Join, Utf8;
      SpeaksInSlices(messages);
      ghost var held := messages[dropped..];
      var selected := entries;
      if since > 0 {
        selected := Newer(selected, since);
      }
      if limit > 0 && |selected| > limit {
        selected := selected[|selected| - limit..];
      }
      NarrowedViewIsRight(held, limit, since);
      BytesRoundTrip(Last(if since > 0 then Since(held, since) else held, limit));
      body := Utf8(ArrayText(selected));
    }

    /**
     What goes in through /message comes back out of /feed: the messages held, in
     order, preceded during a rebuild by some just dropped.
     */
    method ReadMessages(emitted: seq<Byte>, ghost messages: seq<Message>) returns (served: Served)
      requires Valid() && Speaks(messages) && messages != [] && gzip.live.flushing.None?
      requires SyncFlushed(gzip.codec, gzip.live.through, emitted, Flatten(gzip.live.pending))
      modifies this`base, this`baseCount, gzip, gzip.building, gzip.live, gzip.live.output
      ensures Valid() && Speaks(messages) && dropped == old(dropped) <= |messages| && span == old(span)
      ensures served.Zipped? ==> served.body.used <= served.body.buffer.Length && span.first <= dropped
      ensures Received(gzip.codec, served)
              == Some(messages[if served.Zipped? then span.first else dropped..])
      ensures served.Zipped? && gzip.building == null ==> span.first == dropped
    {
      hide RoomInv, Generation.Valid, Gunzip, Utf8, Flatten, SyncFlushed, ArrayText, ReadBytes, Lines;
      SpeaksInSlices(messages);
      served := ReadFeed(emitted);
      SpeaksInSlices(messages);
      BytesRoundTrip(messages[dropped..]);
      BytesRoundTrip(messages[span.first..]);
      assert messages[span.first..|messages|] == messages[span.first..];
      if served.Zipped? {
        assert Gunzip(gzip.codec, served.body.Bytes()) == Ok(Utf8(ArrayText(Lines(messages[span.first..]))));
      }
    }
  }

  datatype Served = Zipped(body: GzipBody) | Plain(payload: Payload)

  /** What a client reads out of a response. */
  ghost function Received(codec: Codec, served: Served): Option<seq<Message>>
    requires served.Zipped? ==> served.body.used <= served.body.buffer.Length
    reads if served.Zipped? then {served.body.buffer} else {}
  {
    match served
    case Plain(payload) => ReadBytes(payload.head + payload.tail)
    case Zipped(body) =>
      match Gunzip(codec, body.Bytes())
      case Ok(plain) => ReadBytes(plain)
      case _ => None
  }

  lemma IdIsHeld(r: Room, history: seq<Entry>, span: Span, id: Id, json: string)
    requires RoomInv(r, history, span)
    ensures r.maxEntries <= r.trimAt && |r.ids| == |r.entries|
    ensures id in Push(r, id, json).seen
  {
    PushHolds(r, history, id, json);
  }
}
