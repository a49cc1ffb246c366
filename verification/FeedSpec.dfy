/**
 The compressed feed on values: which texts each deflate stream holds and how
 far they have got through the compressor. The classes Generation and GzipFeed
 are proved to change state exactly as these functions say.
 */
module FeedSpec {
  import opened Collections
  import opened Gzip

  /** A text as the bytes that go into the compressor. */
  type Text = seq<Byte>

  /**
   One deflate stream. texts[..settled] have come out of it, texts[settled..taken] are in
   it, the rest wait.
   */
  datatype Gen = Gen(texts: seq<Text>, settled: nat, taken: nat, failed: bool)
  {
    ghost predicate Valid() {
      settled <= taken <= |texts|
    }

    predicate Flushing() {
      settled != taken
    }

    predicate Waiting() {
      taken < |texts|
    }

    /** The condition under which the flush loop ends. */
    predicate FlushLoopDone() {
      failed || (!Waiting() && !Flushing())
    }
  }

  const EMPTY_GEN := Gen([], 0, 0, false)

  function AppendGen(g: Gen, text: Text): Gen {
    g.(texts := g.texts + [text])
  }

  function AppendAll(g: Gen, texts: seq<Text>): Gen {
    g.(texts := g.texts + texts)
  }

  /** `building` is None when no rebuild is running; `ticks` counts step callbacks handed to the event loop. */
  datatype Feed = Feed(
    enabled: bool,
    live: Gen,
    building: Option<Gen>,
    snapshot: seq<Text>,
    carry: seq<Text>,
    cursor: nat,
    chunkSize: nat,
    ticks: nat)
  {
    ghost predicate Valid() {
      && live.Valid()
      && chunkSize >= 1
      && (building.None? ==> snapshot == [] && carry == [])
      && (building.Some? ==> building.value.Valid() && enabled && cursor <= |snapshot|)
    }
  }

  function EmptyFeed(chunkSize: nat): Feed {
    Feed(true, EMPTY_GEN, None, [], [], 0, chunkSize, 0)
  }

  function DisableFeed(f: Feed): Feed {
    f.(enabled := false, building := None, snapshot := [], carry := [])
  }

  function AppendFeed(f: Feed, text: Text): Feed {
    if !f.enabled then f
    else
      var f' := f.(live := AppendGen(f.live, text),
                   carry := if f.building.Some? then f.carry + [text] else f.carry);
      if f.live.failed then DisableFeed(f') else f'
  }

  function RebuildFeed(f: Feed, texts: seq<Text>): Feed {
    if !f.enabled then f
    else f.(building := Some(EMPTY_GEN), snapshot := texts, cursor := 0, carry := [], ticks := f.ticks + 1)
  }

  /** The next callback completes a rebuild and replaces the live stream. */
  predicate Swaps(f: Feed) {
    && f.building.Some? && !f.building.value.failed
    && |f.snapshot| <= f.cursor + f.chunkSize
  }

  /** One callback of the event loop. */
  function StepFeed(f: Feed): Feed
    requires f.Valid() && f.ticks > 0
  {
    var g := f.(ticks := f.ticks - 1);
    if !f.enabled || f.building.None? then g
    else
      var end := if f.cursor + f.chunkSize < |f.snapshot| then f.cursor + f.chunkSize else |f.snapshot|;
      var built := AppendAll(f.building.value, f.snapshot[f.cursor..end]);
      if built.failed then DisableFeed(g.(cursor := end))
      else if end < |f.snapshot| then g.(building := Some(built), cursor := end, ticks := g.ticks + 1)
      else g.(live := AppendAll(built, f.carry), building := None, snapshot := [], carry := [], cursor := 0)
  }

  /** The live stream takes in whatever waits, unless it is still busy or has failed. */
  function StartFlushFeed(f: Feed): Feed {
    if f.live.failed || f.live.Flushing() then f else f.(live := f.live.(taken := |f.live.texts|))
  }

  /** It has emitted everything it took in. */
  function FinishFlushFeed(f: Feed): Feed {
    f.(live := f.live.(settled := f.live.taken))
  }

  function FailLive(f: Feed): Feed {
    f.(live := f.live.(failed := true))
  }

  function FailBuilding(f: Feed): Feed {
    if f.building.Some? then f.(building := Some(f.building.value.(failed := true))) else f
  }
}
