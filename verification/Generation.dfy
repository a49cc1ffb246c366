/** One deflate stream, its output buffer, and what has gone into it. */
module Generations {
  import opened Collections
  import opened Gzip
  import opened FeedSpec

  const INITIAL_OUTPUT_BYTES: nat := 65536

  /** The chunks of a response, the second of them a view of a buffer that is still being appended to. */
  datatype GzipBody = GzipBody(buffer: array<Byte>, used: nat, trailer: seq<Byte>, length: nat)
  {
    function Bytes(): seq<Byte>
      requires used <= buffer.Length
      reads buffer
    {
      Member(buffer[..used], trailer)
    }
  }

  datatype BodyResult = Body(body: GzipBody) | Destroyed

  /**
   The trailer is computed from everything appended; the member decodes if and
   only if all of that has been compressed.
   */
  lemma TrailerTellsTheTruth(codec: Codec, compressed: seq<Byte>, flushed: seq<Byte>, waiting: seq<Byte>)
    requires SyncFlushed(codec, [], compressed, flushed)
    requires |waiting| < TWO32
    ensures var whole := flushed + waiting + CLOSING_BYTE;
            Gunzip(codec, Member(compressed, Trailer(whole)))
            == if waiting == [] then Ok(whole) else BadTrailer
  {
    hide SyncFlushed, Crc32, Gunzip;
    var whole := flushed + waiting + CLOSING_BYTE;
    var decoded := flushed + CLOSING_BYTE;
    MemberDecodes(codec, compressed, flushed, Trailer(whole));
    if waiting == [] {
      assert whole == decoded;
    } else {
      assert Trailer(whole) != Trailer(decoded) by {
        LongerHasAnotherTrailer(decoded, whole, waiting);
      }
    }
  }

  /** Only lengths matter here: the longer content has a different ISIZE. */
  lemma LongerHasAnotherTrailer(short: seq<Byte>, long: seq<Byte>, more: seq<Byte>)
    requires 0 < |more| < TWO32 && |long| == |short| + |more|
    ensures Trailer(short) != Trailer(long)
  {
    SmallShiftShows(|short|, |more|);
    Le32RoundTrip(|short| % TWO32);
    Le32RoundTrip(|long| % TWO32);
    assert Trailer(short)[4..] == Le32(|short| % TWO32);
    assert Trailer(long)[4..] == Le32(|long| % TWO32);
  }

  /** The running checksum and length speak of every text. */
  ghost predicate SumsOf(texts: seq<Text>, whole: seq<Byte>, crc: bv32, plainBytes: nat) {
    && whole == Flatten(texts)
    && crc == Crc32(whole, 0)
    && plainBytes == |whole|
  }

  lemma SumsAfterAppend(texts: seq<Text>, whole: seq<Byte>, crc: bv32, plainBytes: nat, buffer: Text)
    requires SumsOf(texts, whole, crc, plainBytes)
    ensures SumsOf(texts + [buffer], whole + buffer, Crc32(buffer, crc), plainBytes + |buffer|)
  {
    FlattenSnoc(texts, buffer);
    CrcChains(whole, buffer, 0);
  }

  /** What has been through the compressor, what is inside it, and what waits. */
  ghost predicate QueueOf(texts: seq<Text>, settled: nat, taken: nat, through: seq<Byte>,
                          inside: Option<seq<Byte>>, pending: seq<Text>)
  {
    && settled <= taken <= |texts|
    && through == Flatten(texts[..settled])
    && (inside.Some? <==> settled < taken)
    && (inside.Some? ==> inside.value == Flatten(texts[settled..taken]))
    && |pending| == |texts| - taken
    && Flatten(pending) == Flatten(texts[taken..])
  }

  lemma QueueAfterAppend(texts: seq<Text>, settled: nat, taken: nat, through: seq<Byte>,
                         inside: Option<seq<Byte>>, pending: seq<Text>, buffer: Text)
    requires QueueOf(texts, settled, taken, through, inside, pending)
    ensures QueueOf(texts + [buffer], settled, taken, through, inside, pending + [buffer])
  {
    var longer := texts + [buffer];
    assert longer[..settled] == texts[..settled];
    assert longer[settled..taken] == texts[settled..taken];
    assert longer[taken..] == texts[taken..] + [buffer];
    FlattenSnoc(texts[taken..], buffer);
    FlattenSnoc(pending, buffer);
  }

  lemma QueueAfterStart(texts: seq<Text>, settled: nat, through: seq<Byte>, pending: seq<Text>, chunk: seq<Byte>)
    requires QueueOf(texts, settled, settled, through, None, pending) && pending != []
    requires chunk == if |pending| == 1 then pending[0] else Flatten(pending)
    ensures QueueOf(texts, settled, |texts|, through, Some(chunk), [])
    ensures chunk == Flatten(texts[settled..]) == Flatten(pending)
  {
    if |pending| == 1 {
      FlattenOne(pending[0]);
      assert pending == [pending[0]];
    }
    assert texts[settled..|texts|] == texts[settled..];
    assert Flatten(texts[|texts|..]) == [];
  }

  lemma QueueAfterFinish(texts: seq<Text>, settled: nat, taken: nat, through: seq<Byte>,
                         inside: seq<Byte>, pending: seq<Text>)
    requires QueueOf(texts, settled, taken, through, Some(inside), pending)
    ensures QueueOf(texts, taken, taken, through + inside, None, pending)
  {
    SlicesJoin(texts, 0, settled, taken);
    assert texts[0..settled] == texts[..settled] && texts[0..taken] == texts[..taken];
  }

  /** Joining two neighbouring slices. */
  lemma SlicesJoin(texts: seq<Text>, i: nat, j: nat, k: nat)
    requires i <= j <= k <= |texts|
    ensures Flatten(texts[i..j]) + Flatten(texts[j..k]) == Flatten(texts[i..k])
  {
    assert texts[i..j] + texts[j..k] == texts[i..k];
    FlattenAppend(texts[i..j], texts[j..k]);
  }

  class Generation {
    /** Decodes the compressor's Huffman blocks; never called by the code itself. */
    ghost const codec: Codec

    var output: array?<Byte>
    var compressedBytes: nat
    var crc: bv32
    var plainBytes: nat
    var pending: seq<seq<Byte>>
    var flushing: Option<seq<Byte>>
    var failed: bool

    /** Every text ever appended, and how many of them are through, and in, the compressor. */
    ghost var texts: seq<Text>
    ghost var settled: nat
    ghost var taken: nat

    /** The bytes of texts, and of texts[..settled]. */
    ghost var whole: seq<Byte>
    ghost var through: seq<Byte>

    /** Output of completed flushes, and output collected so far from the flush under way. */
    ghost var flushedOut: seq<Byte>
    ghost var emerging: seq<Byte>

    /** Every view handed to a reader, with what it showed when it was handed out. */
    ghost var views: seq<(array<Byte>, seq<Byte>)>
    ghost var buffers: set<array<Byte>>

    ghost function State(): Gen
      reads this
    {
      Gen(texts, settled, taken, failed)
    }

    /** What has come out, and the buffer it was collected into. */
    ghost predicate Output()
      reads this, buffers
    {
      && SyncFlushed(codec, [], flushedOut, through)
      && (output != null ==>
            && output in buffers
            && 0 < output.Length
            && compressedBytes <= output.Length
            && output[..compressedBytes] == flushedOut + emerging)
    }

    /** Every view still shows what it showed. */
    ghost predicate Views()
      reads this, buffers
    {
      forall i :: 0 <= i < |views| ==>
        && views[i].0 in buffers
        && |views[i].1| <= views[i].0.Length
        && views[i].0[..|views[i].1|] == views[i].1
        && (views[i].0 == output ==> |views[i].1| <= compressedBytes)
    }

    ghost predicate Valid()
      reads this, buffers
    {
      && SumsOf(texts, whole, crc, plainBytes)
      && QueueOf(texts, settled, taken, through, flushing, pending)
      && (flushing.None? ==> emerging == [])
      && Output()
      && Views()
    }

    constructor (ghost codec: Codec)
      ensures Valid() && output != null && fresh(buffers) && buffers == {output}
      ensures this.codec == codec && State() == EMPTY_GEN && views == [] && output.Length == 65536
    {
      this.codec := codec;
      var first := new Byte[INITIAL_OUTPUT_BYTES];
      output := first;
      compressedBytes := 0;
      crc := 0;
      plainBytes := 0;
      pending := [];
      flushing := None;
      failed := false;
      texts, settled, taken := [], 0, 0;
      whole, through := [], [];
      flushedOut, emerging := [], [];
      views, buffers := [], {first};
      new;
      NothingIsFlushed(codec, []);
      ComplementTwice(0);
      assert output[..0] == [];
    }

    /** Replaces a buffer that is too small by a bigger one; the old one is never written to again. */
    method Grow(needed: nat)
      requires Valid() && output != null
      modifies this`output, this`buffers
      ensures Valid() && State() == old(State()) && output != null && needed <= output.Length
      ensures output[..compressedBytes] == old(output[..compressedBytes])
      ensures output == old(output) || fresh(output)
      ensures buffers == old(buffers) + {output}
    {
      hide SyncFlushed, Flatten, Crc32, SumsOf, QueueOf;
      if needed > output.Length {
        var size := output.Length * 2;
        while size < needed
          invariant size >= output.Length
          decreases needed - size
        {
          size := size * 2;
        }

        var grown := new Byte[size];
        forall i | 0 <= i < compressedBytes {
          grown[i] := output[i];
        }
        assert grown[..compressedBytes] == output[..compressedBytes];
        output := grown;
        buffers := buffers + {grown};
      }
    }

    /** A piece of compressed output arrives: it goes behind what is there, and no reader's view changes. */
    method Collect(chunk: seq<Byte>)
      requires Valid() && output != null && flushing.Some?
      modifies this`output, this`buffers, this`compressedBytes, this`emerging, output
      ensures Valid() && State() == old(State()) && output != null
      ensures emerging == old(emerging) + chunk
      ensures compressedBytes == old(compressedBytes) + |chunk|
      ensures output[..compressedBytes] == old(output[..compressedBytes]) + chunk
      ensures old(output)[..old(compressedBytes)] == old(output[..compressedBytes])
      ensures output == old(output) || fresh(output)
      ensures buffers == old(buffers) + {output}
    {
      hide SyncFlushed, Flatten, Crc32, SumsOf, QueueOf;
      ghost var before := output[..compressedBytes];
      Grow(compressedBytes + |chunk|);
      assert Views();
      label grown:
      forall i | 0 <= i < |chunk| {
        output[compressedBytes + i] := chunk[i];
      }
      assert output[..compressedBytes + |chunk|] == before + chunk;
      forall i | 0 <= i < |views|
        ensures views[i].0[..|views[i].1|] == views[i].1
      {
        assert old@grown(views[i].0[..|views[i].1|]) == views[i].1;
      }
      assert before + chunk == flushedOut + (emerging + chunk);
      emerging := emerging + chunk;
      compressedBytes := compressedBytes + |chunk|;
    }

    method Append(buffer: Text)
      requires Valid()
      modifies this
      ensures Valid() && State() == AppendGen(old(State()), buffer)
      ensures output == old(output) && views == old(views) && buffers == old(buffers)
    {
      hide SyncFlushed, Flatten, Crc32, SumsOf, QueueOf;
      SumsAfterAppend(texts, whole, crc, plainBytes, buffer);
      QueueAfterAppend(texts, settled, taken, through, flushing, pending, buffer);
      pending := pending + [buffer];
      crc := Crc32(buffer, crc);
      plainBytes := plainBytes + |buffer|;
      texts := texts + [buffer];
      whole := whole + buffer;
    }

    /** The synchronous half of one round of flush(): everything waiting goes into the stream as one chunk. */
    method StartFlush() returns (chunk: seq<Byte>)
      requires Valid() && !failed && flushing.None? && pending != []
      modifies this
      ensures Valid() && State() == old(State()).(taken := |texts|)
      ensures chunk == Flatten(texts[settled..]) == Flatten(old(pending)) && flushing == Some(chunk)
      ensures pending == [] && emerging == [] && through == old(through)
      ensures output == old(output) && views == old(views) && buffers == old(buffers)
    {
      hide SyncFlushed, Flatten, Crc32;
      chunk := if |pending| == 1 then pending[0] else Flatten(pending);
      QueueAfterStart(texts, settled, through, pending, chunk);
      pending := [];
      flushing := Some(chunk);
      taken := |texts|;
    }

    /** The other half: the flush callback, once the compressor has emitted everything the chunk became. */
    method FinishFlush()
      requires Valid() && flushing.Some?
      requires SyncFlushed(codec, through, emerging, flushing.value)
      modifies this
      ensures Valid() && State() == old(State()).(settled := old(taken))
      ensures flushing.None? && pending == old(pending)
      ensures output == old(output) && views == old(views) && buffers == old(buffers)
    {
      hide SyncFlushed, Flatten, Crc32, SumsOf, QueueOf;
      ghost var out := flushedOut + emerging;
      assert out == out + [];
      QueueAfterFinish(texts, settled, taken, through, flushing.value, pending);
      assert [] + through == through;
      SyncFlushedAppend(codec, [], flushedOut, through, emerging, flushing.value);
      through := through + flushing.value;
      flushedOut := out;
      emerging := [];
      flushing := None;
      settled := taken;
    }

    /** The stream's error event. */
    method Fail()
      requires Valid()
      modifies this`failed
      ensures Valid() && State() == old(State()).(failed := true)
      ensures output == old(output) && views == old(views) && buffers == old(buffers)
    {
      failed := true;
    }

    method Destroy()
      requires Valid()
      modifies this`output
      ensures Valid() && State() == old(State()) && output == null
      ensures views == old(views) && buffers == old(buffers)
    {
      output := null;
    }

    /** What has been appended and is not yet compressed. */
    ghost function WaitingBytes(): seq<Byte>
      requires Valid()
      reads this, buffers
    {
      Flatten(texts[settled..])
    }

    /**
     The response, as it stands between two rounds of flushing. It is one gzip
     member holding every text appended and the closing bracket if and only if
     nothing is still waiting to be compressed.
     */
    method CurrentBody() returns (r: BodyResult)
      requires Valid() && flushing.None?
      modifies this`views
      ensures Valid() && State() == old(State())
      ensures r.Destroyed? <==> output == null
      ensures r.Destroyed? ==> views == old(views)
      ensures r.Body? ==> r.body.buffer == output && r.body.used == compressedBytes
      ensures r.Body? ==> r.body.length == |r.body.Bytes()|
      ensures r.Body? && WaitingBytes() == [] ==> Gunzip(codec, r.body.Bytes()) == Ok(whole + CLOSING_BYTE)
      ensures r.Body? && 0 < |WaitingBytes()| < TWO32 ==> Gunzip(codec, r.body.Bytes()) == BadTrailer
      ensures r.Body? ==> views == old(views) + [(r.body.buffer, r.body.buffer[..r.body.used])]
    {
      hide SyncFlushed, Flatten, Crc32, Gunzip, Le32;
      if output == null {
        return Destroyed;
      }
      var size := (plainBytes + |CLOSING_BYTE|) % TWO32;
      var trailer := Le32(Crc32(CLOSING_BYTE, crc) as nat) + Le32(size);
      assert trailer == Trailer(whole + CLOSING_BYTE) by { CrcChains(whole, CLOSING_BYTE, 0); }
      var body := GzipBody(output, compressedBytes, trailer, |HEADER| + compressedBytes + |CLOSING_BLOCK| + 8);
      views := views + [(output, output[..compressedBytes])];
      assert |body.Bytes()| == body.length;

      SlicesJoin(texts, 0, settled, |texts|);
      assert texts[..|texts|] == texts && texts[settled..|texts|] == texts[settled..];
      assert flushedOut + emerging == flushedOut;
      if |WaitingBytes()| < TWO32 {
        TrailerTellsTheTruth(codec, flushedOut, through, WaitingBytes());
      }
      r := Body(body);
    }
  }
}
