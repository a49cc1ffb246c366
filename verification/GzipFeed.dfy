/** The compressed feed: the stream answering readers and, during a rebuild, the one that will replace it. */
module GzipFeeds {
  import opened Collections
  import opened Gzip
  import opened FeedSpec
  import opened Generations

  datatype Answer = Compressed(body: GzipBody) | NoBody | Threw

  class GzipFeed {
    ghost const codec: Codec
    const chunkSize: nat
    var enabled: bool
    var live: Generation
    var building: Generation?
    var snapshot: seq<Text>
    var carry: seq<Text>
    var cursor: nat

    /** Callbacks of step() handed to the event loop and not yet run. */
    ghost var ticks: nat

    ghost function Objects(): set<object>
      reads this, live, building
    {
      {this, live} + live.buffers + (if building == null then {} else {building} + building.buffers)
    }

    ghost function State(): Feed
      reads this, live, building
    {
      Feed(enabled, live.State(), if building == null then None else Some(building.State()),
           snapshot, carry, cursor, chunkSize, ticks)
    }

    ghost predicate Valid()
      reads this, live, building, Objects()
    {
      && State().Valid()
      && live.Valid() && live.output != null && live.codec == codec
      && (building != null ==>
            && building != live
            && building.Valid() && building.output != null && building.codec == codec
            && building.buffers !! live.buffers)
    }

    /**
     What a reader who captured `g` finds in it later: still what it was, and no part of the
     feed if it was replaced.
     */
    ghost predicate Left(g: Generation, pending: seq<Text>, flushing: Option<seq<Byte>>, buffers: set<array<Byte>>)
      reads this, live, building, g, g.buffers
    {
      && g.Valid() && g.codec == codec
      && g.pending == pending && g.flushing == flushing && g.buffers == buffers
      && (g == live || (g.output == null && Apart(g)))
    }

    ghost predicate Apart(g: Generation)
      reads this, live, building, g
    {
      g !in Objects() && g.buffers !! Objects()
    }

    constructor (ghost codec: Codec, chunkSize: nat)
      requires chunkSize >= 1
      ensures Valid() && State() == EmptyFeed(chunkSize) && this.codec == codec
      ensures fresh(Objects()) && building == null
    {
      this.codec := codec;
      this.chunkSize := chunkSize;
      enabled := true;
      live := new Generation(codec);
      building := null;
      snapshot, carry, cursor := [], [], 0;
      ticks := 0;
    }

    method Append(text: Text)
      requires Valid()
      modifies this, live, building
      ensures Valid() && State() == AppendFeed(old(State()), text)
      ensures live == old(live) && (building == old(building) || building == null)
      ensures Objects() <= old(Objects())
    {
      hide Generation.Valid;
      if !enabled {
        return;
      }
      live.Append(text);
      if building != null {
        carry := carry + [text];
      }
      if live.failed {
        Disable();
      }
    }

    /** Starts building a replacement from `texts`; one already under way is abandoned. */
    method Rebuild(texts: seq<Text>)
      requires Valid()
      modifies this, building
      ensures Valid() && State() == RebuildFeed(old(State()), texts)
      ensures live == old(live)
      ensures fresh(Objects() - old(Objects()))
    {
      hide Generation.Valid;
      if !enabled {
        return;
      }
      if building != null {
        building.Destroy();
        building := null;
      }
      building := new Generation(codec);
      snapshot := texts;
      cursor := 0;
      carry := [];
      ticks := ticks + 1;
    }

    /** One callback: a chunk of the snapshot, and after the last chunk the carried texts and the swap. */
    method Step()
      requires Valid() && ticks > 0
      modifies this, live, building
      ensures Valid() && State() == StepFeed(old(State()))
      ensures live != old(live) <==> old(Swaps(State()))
      ensures live != old(live) ==> live == old(building) && building == null && old(live).output == null
      ensures Left(old(live), old(live.pending), old(live.flushing), old(live.buffers))
      ensures old(live).State() == old(live.State())
      ensures Objects() <= old(Objects())
    {
      hide Generation.Valid;
      ticks := ticks - 1;
      if !enabled || building == null {
        return;
      }

      var end := if cursor + chunkSize < |snapshot| then cursor + chunkSize else |snapshot|;
      AppendToBuilding(snapshot[cursor..end]);
      cursor := end;

      if building.failed {
        Disable();
        return;
      }
      if cursor < |snapshot| {
        ticks := ticks + 1;
        return;
      }

      Swap();
    }

    /** The snapshot is consumed: what was carried goes in behind it, and the replacement is the live stream. */
    method Swap()
      requires Valid() && building != null && cursor == |snapshot|
      modifies this, live, building
      ensures Valid() && live == old(building) && building == null && old(live).output == null
      ensures live.State() == AppendAll(old(building.State()), old(carry))
      ensures snapshot == [] && carry == [] && cursor == 0 && enabled == old(enabled) && ticks == old(ticks)
      ensures Left(old(live), old(live.pending), old(live.flushing), old(live.buffers))
      ensures old(live).State() == old(live.State())
      ensures Objects() <= old(Objects())
    {
      hide Generation.Valid;
      AppendToBuilding(carry);
      var replaced := live;
      live := building;
      building := null;
      snapshot, carry, cursor := [], [], 0;
      replaced.Destroy();
    }

    method AppendToBuilding(texts: seq<Text>)
      requires Valid() && building != null
      modifies building
      ensures Valid() && building.State() == AppendAll(old(building.State()), texts)
      ensures live.State() == old(live.State())
      ensures building.buffers == old(building.buffers)
    {
      hide Generation.Valid;
      var b := building;
      for i := 0 to |texts|
        invariant building == b && building.Valid() && building.output == old(building.output)
        invariant building.State() == AppendAll(old(building.State()), texts[..i])
        invariant building.buffers == old(building.buffers)
        invariant live.Valid() && live.State() == old(live.State())
      {
        building.Append(texts[i]);
        assert texts[..i] + [texts[i]] == texts[..i + 1];
      }
      assert texts[..|texts|] == texts;
    }

    method Disable()
      requires Valid()
      modifies this`enabled, this`building, this`snapshot, this`carry, building
      ensures Valid() && State() == DisableFeed(old(State()))
      ensures live == old(live) && building == null
    {
      hide Generation.Valid;
      enabled := false;
      if building != null {
        building.Destroy();
      }
      building := null;
      snapshot, carry := [], [];
    }

    // --------------------------------------------- Turns of the live compressor

    /** The live stream's next round of flush(), if it is due. */
    method StartFlush() returns (chunk: Option<seq<Byte>>)
      requires Valid()
      modifies live
      ensures Valid() && State() == StartFlushFeed(old(State())) && Objects() == old(Objects())
      ensures live.output == old(live.output) && live.pending == (if chunk.Some? then [] else old(live.pending))
      ensures chunk.Some? ==>
                && live.flushing == chunk == Some(Flatten(old(live.pending)))
                && live.emerging == [] && live.through == old(live.through)
      ensures chunk.None? ==> live.flushing == old(live.flushing)
      ensures chunk.None? <==> live.failed || old(live.flushing).Some? || old(live.pending) == []
    {
      hide SyncFlushed, Flatten, SumsOf, Generation.Views, Generation.Output;
      if live.failed || live.flushing.Some? || |live.pending| == 0 {
        return None;
      }
      var taken := live.StartFlush();
      chunk := Some(taken);
    }

    /** A piece of its output arrives. */
    method Collect(chunk: seq<Byte>)
      requires Valid() && live.flushing.Some?
      modifies live, live.output
      ensures Valid() && State() == old(State()) && live.flushing == old(live.flushing)
      ensures live.emerging == old(live.emerging) + chunk
      ensures live.through == old(live.through) && live.pending == old(live.pending)
      ensures fresh(Objects() - old(Objects()))
    {
      assert live.output in live.buffers;
      hide Generation.Valid;
      live.Collect(chunk);
    }

    /** The flush callback. */
    method FinishFlush()
      requires Valid() && live.flushing.Some?
      requires SyncFlushed(codec, live.through, live.emerging, live.flushing.value)
      modifies live
      ensures Valid() && State() == FinishFlushFeed(old(State())) && Objects() == old(Objects())
      ensures live.flushing.None? && live.pending == old(live.pending)
    {
      hide Generation.Valid;
      live.FinishFlush();
    }

    /** The error event of the live stream, and of the one being built. */
    method LiveFails()
      requires Valid()
      modifies live
      ensures Valid() && State() == FailLive(old(State())) && Objects() == old(Objects())
    {
      hide Generation.Valid;
      live.Fail();
    }

    method BuildingFails()
      requires Valid()
      modifies building
      ensures Valid() && State() == FailBuilding(old(State())) && Objects() == old(Objects())
    {
      hide Generation.Valid;
      if building != null {
        building.Fail();
      }
    }

    // --------------------------------------------------------------------- Reads

    /** A read begins by capturing the live stream. */
    method StartBody() returns (generation: Generation?)
      requires Valid()
      ensures generation == if enabled then live else null
    {
      generation := if enabled then live else null;
    }

    /**
     The end of a read: `generation` is the one the read captured. If it is still
     live its flush loop is over, and the answer is one gzip member of everything
     it was ever given. A generation replaced meanwhile has no stream to flush
     with and no buffer to answer from.
     */
    method FinishBody(generation: Generation) returns (answer: Answer)
      requires Valid() && generation.Valid()
      requires generation == live ==> generation.failed || (generation.pending == [] && generation.flushing.None?)
      requires generation == live || (generation.output == null && Apart(generation))
      modifies this, building, generation`views
      ensures Valid() && live == old(live)
      ensures answer.NoBody? <==> generation.failed
      ensures answer.Threw? <==> !generation.failed && generation != live
      ensures State() == if answer.NoBody? then DisableFeed(old(State())) else old(State())
      ensures Objects() <= old(Objects())
      ensures answer.Compressed? ==>
                && answer.body.used <= answer.body.buffer.Length
                && Gunzip(codec, answer.body.Bytes()) == Ok(Flatten(live.texts) + CLOSING_BYTE)
                && answer.body.length == |answer.body.Bytes()|
    {
      hide SyncFlushed, Crc32, Gunzip, Generation.Views;
      if generation.failed {
        Disable();
        return NoBody;
      }
      if |generation.pending| > 0 || generation.flushing.Some? {
        return Threw;
      }
      var r := generation.CurrentBody();
      match r
      case Destroyed => answer := Threw;
      case Body(body) => answer := Compressed(body);
    }

    /**
     A read of a flushed stream with a callback of step() between its two halves: it is
     answered unless that callback swapped.
     */
    method ReadAcrossStep() returns (answer: Answer)
      requires Valid() && ticks > 0 && enabled
      requires live.failed || (live.pending == [] && live.flushing.None?)
      modifies this, live, building
      ensures Valid()
      ensures answer.NoBody? <==> old(live.failed)
      ensures answer.Threw? <==> !old(live.failed) && old(Swaps(State()))
      ensures answer.Compressed? ==>
                && answer.body.used <= answer.body.buffer.Length
                && Gunzip(codec, answer.body.Bytes()) == Ok(Flatten(old(live.texts)) + CLOSING_BYTE)
    {
      hide Generation.Valid, Flatten, Gunzip, StepFeed;
      var captured := StartBody();
      Step();
      answer := FinishBody(captured);
      assert answer.Compressed? ==> live.State() == old(live.State());
    }
  }
}
