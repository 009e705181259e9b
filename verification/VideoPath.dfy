/** The whole video path: from the encoder's output, read in chunks, to the units a receiver behind the gateway gets. */
module VideoPath {
  import opened Bytes
  import opened Collections
  import opened AnnexB
  import opened AnnexBStreams
  import opened Rtp
  import opened MediaStream

  /** What each call of the splitter emits; every call's units make one body. */
  function Batches(chunks: seq<seq<byte>>): (batches: seq<seq<seq<byte>>>)
    ensures |batches| == |chunks|
  {
    if chunks == [] then
      []
    else
      var s := Feed(chunks[..|chunks| - 1]).carry + chunks[|chunks| - 1];
      Batches(chunks[..|chunks| - 1]) + [Units(s, Split(s).spans)]
  }

  lemma {:induction false} BatchesAreFeed(chunks: seq<seq<byte>>)
    ensures Flatten(Batches(chunks)) == Feed(chunks).nals
  {
    hide Units, Split, CarryFrom;
    if chunks != [] {
      var batches := Batches(chunks);
      BatchesAreFeed(chunks[..|chunks| - 1]);
      assert batches[..|batches| - 1] == Batches(chunks[..|chunks| - 1]);
    }
  }

  lemma {:induction false} FlatMembers<T(!new)>(parts: seq<seq<T>>)
    ensures forall p, x :: p in parts && x in p ==> x in Flatten(parts)
  {
    if parts != [] {
      FlatMembers(parts[..|parts| - 1]);
      assert forall p :: p in parts ==> p in parts[..|parts| - 1] || p == parts[|parts| - 1];
    }
  }

  lemma OneMoreChunk(chunks: seq<seq<byte>>, chunk: seq<byte>)
    ensures var s := Feed(chunks).carry + chunk;
      && Batches(chunks + [chunk]) == Batches(chunks) + [Units(s, Split(s).spans)]
      && Feed(chunks + [chunk]).carry == s[CarryFrom(s)..]
  {
    hide Units, Split, CarryFrom;
    assert (chunks + [chunk])[..|chunks|] == chunks;
  }

  /** The loop over the encoder's output: each chunk is split, its units become one body, and a body is sent unless empty. */
  method EncoderLoop(splitter: Splitter, muxer: RtpMuxer, chunks: seq<seq<byte>>) returns (bodies: seq<seq<byte>>)
    requires splitter.carry == [] && muxer.Valid()
    modifies splitter, muxer`sequence, muxer`timestamp
    ensures muxer.Valid() && splitter.carry == Feed(chunks).carry
    ensures bodies == NonEmpty(Bodies(Batches(chunks), Counters(old(muxer.sequence), old(muxer.timestamp)), muxer.ssrc))
  {
    hide Units, Split, CarryFrom, Frame, PacketsOf, CountersAfter, Bodies, CountersAt, Batches, Feed, NonEmpty;
    ghost var c, ssrc := Counters(muxer.sequence, muxer.timestamp), muxer.ssrc;
    bodies := [];
    NothingSent(c, ssrc);
    assert chunks[..0] == [];
    for i := 0 to |chunks|
      invariant muxer.Valid() && muxer.ssrc == ssrc && splitter.carry == Feed(chunks[..i]).carry
      invariant Counters(muxer.sequence, muxer.timestamp) == CountersAt(Batches(chunks[..i]), c, ssrc)
      invariant bodies == NonEmpty(Bodies(Batches(chunks[..i]), c, ssrc))
    {
      assert chunks[..i + 1] == chunks[..i] + [chunks[i]];
      OneMoreChunk(chunks[..i], chunks[i]);
      var nals := splitter.ParseNALUnits(chunks[i]);
      var body := Batch(muxer, nals);
      OneMoreBody(Batches(chunks[..i]), nals, c, ssrc);
      NonEmptyConcat(Bodies(Batches(chunks[..i]), c, ssrc), [body]);
      NonEmptyOne(body);
      if |body| > 0 {
        bodies := bodies + [body];
      }
    }
    assert chunks[..|chunks|] == chunks;
  }

  lemma NothingSent(c: Counters, ssrc: nat)
    ensures CountersAt(Batches([]), c, ssrc) == c && NonEmpty(Bodies(Batches([]), c, ssrc)) == [] && Feed([]).carry == []
  {
  }

  /**
   * However the encoder's output falls into reads, what the loop sends and the gateway delivers gives the receiver
   * exactly the non-empty units that lie between two start codes within one carried buffer: stretches of the stream,
   * in order, each once.
   */
  lemma ReceiverGetsTheStream(chunks: seq<seq<byte>>, c: Counters, ssrc: nat, partial: Option<Partial>)
    requires ValidHeader(Header(true, c.sequence, c.timestamp, ssrc))
    requires forall k :: 0 <= k < |Run(chunks).spans| ==> WellFormed(Unit(Flatten(chunks), Run(chunks).spans[k]))
    ensures Receive(partial, Delivered(NonEmpty(Bodies(Batches(chunks), c, ssrc)))).nals
         == NonEmpty(Units(Flatten(chunks), Run(chunks).spans))
    ensures AllDelimited(Flatten(chunks), Run(chunks).spans) && InOrder(Run(chunks).spans, 0, |Flatten(chunks)|)
  {
    hide Units, Batches, Bodies, Delivered, Feed, Run, WellFormed, Flatten, Receive, NonEmpty;
    EmittedUnitsAreDelimited(chunks);
    BatchesAreFeed(chunks);
    FlatMembers(Batches(chunks));
    OrderWidens(Run(chunks).spans, Run(chunks).carryStart, |Flatten(chunks)|);
    SessionRoundTrip(Batches(chunks), c, ssrc, partial);
    EmptyBodiesDoNotMatter(Bodies(Batches(chunks), c, ssrc));
  }

  /** Of a well-formed stream, however it falls into reads, the receiver gets the units that no chunk boundary cuts. */
  lemma ReceiverGetsSurvivors(units: seq<Coded>, chunks: seq<seq<byte>>, c: Counters, ssrc: nat, partial: Option<Partial>)
    requires AllClean(units) && Flatten(chunks) == Join(units)
    requires forall k :: 0 <= k < |units| ==> WellFormed(units[k].unit)
    requires ValidHeader(Header(true, c.sequence, c.timestamp, ssrc))
    ensures Receive(partial, Delivered(NonEmpty(Bodies(Batches(chunks), c, ssrc)))).nals
         == NonEmpty(Survivors(units, Bounds(chunks), |units|))
  {
    hide Units, Batches, Bodies, Delivered, Feed, WellFormed, Flatten, Receive, NonEmpty, Survivors, Join, AllClean;
    SurvivorsAreEmitted(units, chunks);
    BatchesAreFeed(chunks);
    FlatMembers(Batches(chunks));
    SurvivorsAreUnits(units, Bounds(chunks), |units|);
    SessionRoundTrip(Batches(chunks), c, ssrc, partial);
    EmptyBodiesDoNotMatter(Bodies(Batches(chunks), c, ssrc));
  }

  lemma {:induction false} SurvivorsAreUnits(units: seq<Coded>, bounds: seq<nat>, m: nat)
    requires m <= |units|
    ensures forall x :: x in Survivors(units, bounds, m) ==> exists k :: 0 <= k < m && units[k].unit == x
  {
    hide IsCut;
    if m > 0 {
      SurvivorsAreUnits(units, bounds, m - 1);
    }
  }
}
