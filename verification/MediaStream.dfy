/**
 * Packets on their way from the host agent to the gateway: length prefixes, and the gateway's loop that undoes
 * them.
 */
module MediaStream {
  import opened Bytes
  import opened Collections
  import opened Rtp

  const MAX_PACKET := 65535
  const POOL_BUFFER := 1500
  const TWO_TO_THE_64 := 0x1_0000_0000_0000_0000

  // --------------------------------------------------------------------------- the host agent

  /** A packet behind its length in two bytes; one too long for that is skipped. */
  function FrameOne(packet: seq<byte>): seq<byte> {
    if |packet| > MAX_PACKET then [] else Encode(|packet|, 2) + packet
  }

  function Frame(packets: seq<seq<byte>>): seq<byte> {
    if packets == [] then [] else FrameOne(packets[0]) + Frame(packets[1..])
  }

  /** The length stands in front in two bytes, the high one first. */
  lemma FrameOneBytes(packet: seq<byte>)
    ensures |packet| > 65535 ==> FrameOne(packet) == []
    ensures |packet| <= 65535 ==>
      var f := FrameOne(packet);
      |f| == 2 + |packet| && |packet| == 256 * f[0] as nat + f[1] as nat && f[2..] == packet
  {
    hide Encode;
    var length := Encode(|packet|, 2);
    SplitConcat(length, packet);
    if |packet| <= 65535 {
      Powers();
      hide Decode, Pow256;
      DecodeEncode(|packet|, 2);
      DecodeTwo(length);
      assert FrameOne(packet) == length + packet;
    }
  }

  lemma {:induction false} FrameConcat(p: seq<seq<byte>>, q: seq<seq<byte>>)
    ensures Frame(p + q) == Frame(p) + Frame(q)
  {
    hide FrameOne;
    if p == [] {
      assert p + q == q;
    } else {
      FrameConcat(p[1..], q);
      assert (p + q)[1..] == p[1..] + q;
      ConcatAssociates(FrameOne(p[0]), Frame(p[1..]), Frame(q));
    }
  }

  lemma FrameNext(packets: seq<seq<byte>>, k: nat)
    requires k < |packets|
    ensures Frame(packets[k..]) == FrameOne(packets[k]) + Frame(packets[k + 1..])
  {
    hide FrameOne;
    assert packets[k..][1..] == packets[k + 1..];
  }

  method AppendFrames(batch: seq<byte>, packets: seq<seq<byte>>) returns (longer: seq<byte>)
    ensures longer == batch + Frame(packets)
  {
    hide Frame, Encode;
    longer := batch;
    assert packets[0..] == packets;
    for k := 0 to |packets|
      invariant longer + Frame(packets[k..]) == batch + Frame(packets)
    {
      FrameNext(packets, k);
      ConcatAssociates(longer, FrameOne(packets[k]), Frame(packets[k + 1..]));
      if |packets[k]| > MAX_PACKET {
        assert longer + FrameOne(packets[k]) == longer;
        continue;
      }
      ConcatAssociates(longer, Encode(|packets[k]|, 2), packets[k]);
      longer := longer + Encode(|packets[k]|, 2) + packets[k];
    }
    FrameNothing();
    assert packets[|packets|..] == [];
  }

  lemma PacketsOfFirst(nals: seq<seq<byte>>, sequence: nat, timestamp: nat, ssrc: nat)
    requires nals != []
    ensures var t := (timestamp + TIMESTAMP_STEP) % TWO_TO_THE_32;
      var now := Stamp(Payloads(nals[0]), sequence, t, ssrc);
      PacketsOf(nals, sequence, timestamp, ssrc) == now + PacketsOf(nals[1..], Number(sequence, |now|), t, ssrc)
  {
  }

  /** The muxer's counters, between two units. */
  datatype Counters = Counters(sequence: nat, timestamp: nat)

  /** Every packet takes a number; every unit, even an empty one, moves the timestamp on. */
  function CountersAfter(c: Counters, nals: seq<seq<byte>>, ssrc: nat): Counters {
    Counters(Number(c.sequence, |PacketsOf(nals, c.sequence, c.timestamp, ssrc)|), Ticked(c.timestamp, |nals|))
  }

  function Ticked(timestamp: nat, n: nat): (t: nat)
    ensures t < TWO_TO_THE_32
  {
    (timestamp + TIMESTAMP_STEP * n) % TWO_TO_THE_32
  }

  lemma TickedOnce(timestamp: nat, n: nat)
    ensures (Ticked(timestamp, n) + TIMESTAMP_STEP) % TWO_TO_THE_32 == Ticked(timestamp, n + 1)
    ensures timestamp < TWO_TO_THE_32 ==> Ticked(timestamp, 0) == timestamp
  {
    Remainder32(timestamp + TIMESTAMP_STEP * n, TIMESTAMP_STEP);
    assert timestamp + TIMESTAMP_STEP * n + TIMESTAMP_STEP == timestamp + TIMESTAMP_STEP * (n + 1);
  }

  /** The body that one read of the encoder's output turns into. */
  method Batch(muxer: RtpMuxer, nals: seq<seq<byte>>) returns (batch: seq<byte>)
    requires muxer.Valid()
    modifies muxer`sequence, muxer`timestamp
    ensures muxer.Valid()
    ensures batch == Frame(PacketsOf(nals, old(muxer.sequence), old(muxer.timestamp), muxer.ssrc))
    ensures Counters(muxer.sequence, muxer.timestamp)
         == CountersAfter(Counters(old(muxer.sequence), old(muxer.timestamp)), nals, muxer.ssrc)
  {
    hide Number, Stamp, Payloads, Frame, PacketsOf, Ticked;
    ghost var all := PacketsOf(nals, muxer.sequence, muxer.timestamp, muxer.ssrc);
    ghost var sent: seq<seq<byte>> := [];
    batch := [];
    FrameNothing();
    NumberSum(muxer.sequence, 0, 0);
    TickedOnce(muxer.timestamp, 0);
    for i := 0 to |nals|
      invariant muxer.Valid() && muxer.ssrc == old(muxer.ssrc) && muxer.timestamp == Ticked(old(muxer.timestamp), i)
      invariant batch == Frame(sent) && muxer.sequence == Number(old(muxer.sequence), |sent|)
      invariant sent + PacketsOf(nals[i..], muxer.sequence, muxer.timestamp, muxer.ssrc) == all
    {
      PacketsOfFirst(nals[i..], muxer.sequence, muxer.timestamp, muxer.ssrc);
      TickedOnce(old(muxer.timestamp), i);
      muxer.timestamp := (muxer.timestamp + TIMESTAMP_STEP) % TWO_TO_THE_32;
      var packets := muxer.WrapNAL(nals[i]);
      batch := AppendFrames(batch, packets);
      FrameConcat(sent, packets);
      NumberSum(old(muxer.sequence), |sent|, |packets|);
      assert nals[i..][1..] == nals[i + 1..];
      ghost var later := PacketsOf(nals[i + 1..], muxer.sequence, muxer.timestamp, muxer.ssrc);
      assert (sent + packets) + later == sent + (packets + later);
      sent := sent + packets;
    }
    NoPackets(muxer.sequence, muxer.timestamp, muxer.ssrc);
    assert nals[|nals|..] == [] && sent == all;
  }

  lemma FrameNothing()
    ensures Frame([]) == []
  {
  }

  lemma NoPackets(sequence: nat, timestamp: nat, ssrc: nat)
    ensures PacketsOf([], sequence, timestamp, ssrc) == []
  {
  }

  // --------------------------------------------------------------------------- the gateway

  datatype End = Closed | BadLength | Truncated | WriteFailed

  datatype Ingest = Ingest(packets: seq<seq<byte>>, end: End)

  /** What the gateway makes of a body, when the video track takes `accepts` packets before it fails. */
  function Deframe(body: seq<byte>, accepts: nat): Ingest
    decreases |body|
  {
    if |body| < 2 then
      Ingest([], Closed)
    else
      var n := Decode(body[..2]);
      if n == 0 then
        Ingest([], BadLength)
      else if |body| < 2 + n then
        Ingest([], Truncated)
      else if accepts == 0 then
        Ingest([], WriteFailed)
      else
        var rest := Deframe(body[2 + n..], accepts - 1);
        Ingest([body[2..2 + n]] + rest.packets, rest.end)
  }

  /** The first packet of a body byte by byte, and when there is none, why. */
  lemma DeframeByBytes(body: seq<byte>, accepts: nat)
    ensures |body| < 2 ==> Deframe(body, accepts) == Ingest([], Closed)
    ensures |body| >= 2 ==>
      var n := 256 * body[0] as nat + body[1] as nat;
      && (n == 0 ==> Deframe(body, accepts) == Ingest([], BadLength))
      && (n > |body| - 2 ==> Deframe(body, accepts) == Ingest([], Truncated))
      && (0 < n <= |body| - 2 && accepts == 0 ==> Deframe(body, accepts) == Ingest([], WriteFailed))
      && (0 < n <= |body| - 2 && accepts > 0 ==>
            var rest := Deframe(body[2 + n..], accepts - 1);
            Deframe(body, accepts) == Ingest([body[2..2 + n]] + rest.packets, rest.end))
  {
    hide Decode, Deframe;
    if |body| >= 2 { DecodeTwo(body[..2]); }
    DeframeStep(body, 0, accepts);
    assert body[0..] == body;
  }

  function Size(packets: seq<seq<byte>>): nat {
    if packets == [] then 0 else Size(packets[..|packets| - 1]) + |packets[|packets| - 1]|
  }

  function Wrap64(n: nat): (r: nat)
    ensures r < TWO_TO_THE_64
  {
    n % TWO_TO_THE_64
  }

  lemma Wrap64Sum(a: nat, b: nat)
    ensures Wrap64(Wrap64(a) + b) == Wrap64(a + b)
  {
  }

  /** The gateway's side of a session: its track, its 64-bit counters, and a buffer from the pool. */
  class MediaIngest {
    var buffer: array<byte>
    var track: seq<seq<byte>>
    var packetsSent: nat
    var bytesSent: nat

    constructor ()
      ensures fresh(buffer) && buffer.Length == POOL_BUFFER
      ensures track == [] && packetsSent == 0 && bytesSent == 0
    {
      buffer := new byte[POOL_BUFFER](_ => 0);
      track, packetsSent, bytesSent := [], 0, 0;
    }

    /** Read n bytes, through the pool buffer when they fit in it. */
    method ReadPacket(body: seq<byte>, at: nat, n: nat) returns (packet: seq<byte>)
      requires at + n <= |body|
      modifies buffer
      ensures packet == body[at..at + n]
    {
      if buffer.Length < n {
        packet := body[at..at + n];
      } else {
        forall k | 0 <= k < n {
          buffer[k] := body[at + k];
        }
        packet := buffer[..n];
      }
    }

    method HandleVideo(body: seq<byte>, accepts: nat) returns (end: End)
      requires packetsSent < TWO_TO_THE_64 && bytesSent < TWO_TO_THE_64
      modifies this`track, this`packetsSent, this`bytesSent, buffer
      ensures end == Deframe(body, accepts).end
      ensures track == old(track) + Deframe(body, accepts).packets
      ensures packetsSent == Wrap64(old(packetsSent) + |Deframe(body, accepts).packets|)
      ensures bytesSent == Wrap64(old(bytesSent) + Size(Deframe(body, accepts).packets))
    {
      hide Decode, Deframe, Size, Wrap64, Halfway;
      ghost var written: seq<seq<byte>> := [];
      var at, left := 0, accepts;
      StartCounting(packetsSent, bytesSent);
      NothingYet(body, accepts);
      while true
        invariant at <= |body| && Halfway(body, accepts, at, left, written)
        invariant track == old(track) + written
        invariant packetsSent == Wrap64(old(packetsSent) + |written|)
        invariant bytesSent == Wrap64(old(bytesSent) + Size(written))
        decreases |body| - at
      {
        OneTurn(body, accepts, at, left, written);
        if |body| - at < 2 {
          return Closed;
        }
        var n := Decode(body[at..at + 2]);
        if n == 0 {
          return BadLength;
        }
        if |body| - at - 2 < n {
          return Truncated;
        }
        var packet := ReadPacket(body, at + 2, n);
        if left == 0 {
          return WriteFailed;
        }
        track := track + [packet];
        packetsSent := Wrap64(packetsSent + 1);
        bytesSent := Wrap64(bytesSent + n);
        CountOne(old(packetsSent), old(bytesSent), written, packet);
        written := written + [packet];
        at, left := at + 2 + n, left - 1;
      }
    }
  }

  /** What the loop has written so far, and what it still has to do, are together the specified outcome. */
  ghost predicate Halfway(body: seq<byte>, accepts: nat, at: nat, left: nat, written: seq<seq<byte>>)
    requires at <= |body|
  {
    var rest := Deframe(body[at..], left);
    Deframe(body, accepts) == Ingest(written + rest.packets, rest.end)
  }

  lemma NothingYet(body: seq<byte>, accepts: nat)
    ensures Halfway(body, accepts, 0, accepts, [])
  {
    hide Deframe;
    assert body[0..] == body;
    assert [] + Deframe(body, accepts).packets == Deframe(body, accepts).packets;
  }

  lemma OneTurn(body: seq<byte>, accepts: nat, at: nat, left: nat, written: seq<seq<byte>>)
    requires at <= |body| && Halfway(body, accepts, at, left, written)
    ensures |body| - at < 2 ==> Deframe(body, accepts) == Ingest(written, Closed)
    ensures |body| - at >= 2 ==>
      var n := Decode(body[at..at + 2]);
      && (n == 0 ==> Deframe(body, accepts) == Ingest(written, BadLength))
      && (n > 0 && |body| - at - 2 < n ==> Deframe(body, accepts) == Ingest(written, Truncated))
      && (0 < n <= |body| - at - 2 && left == 0 ==> Deframe(body, accepts) == Ingest(written, WriteFailed))
      && (0 < n <= |body| - at - 2 && left > 0 ==>
            Halfway(body, accepts, at + 2 + n, left - 1, written + [body[at + 2..at + 2 + n]]))
  {
    hide Deframe, Decode;
    DeframeStep(body, at, left);
    assert written + [] == written;
    if |body| - at >= 2 {
      var n := Decode(body[at..at + 2]);
      if 0 < n <= |body| - at - 2 && left > 0 {
        ConcatAssociates(written, [body[at + 2..at + 2 + n]], Deframe(body[at + 2 + n..], left - 1).packets);
      }
    }
  }

  lemma StartCounting(p: nat, b: nat)
    requires p < TWO_TO_THE_64 && b < TWO_TO_THE_64
    ensures p == Wrap64(p + 0) && b == Wrap64(b + Size([]))
  {
  }

  lemma CountOne(p: nat, b: nat, written: seq<seq<byte>>, packet: seq<byte>)
    ensures Wrap64(Wrap64(p + |written|) + 1) == Wrap64(p + |written + [packet]|)
    ensures Wrap64(Wrap64(b + Size(written)) + |packet|) == Wrap64(b + Size(written + [packet]))
  {
    Wrap64Sum(p + |written|, 1);
    Wrap64Sum(b + Size(written), |packet|);
    hide Wrap64;
    assert (written + [packet])[..|written|] == written;
  }

  /** One turn of the loop, seen from position at of the body. */
  lemma DeframeStep(body: seq<byte>, at: nat, accepts: nat)
    requires at <= |body|
    ensures |body| - at < 2 ==> Deframe(body[at..], accepts) == Ingest([], Closed)
    ensures |body| - at >= 2 ==>
      var n := Decode(body[at..at + 2]);
      && (n == 0 ==> Deframe(body[at..], accepts) == Ingest([], BadLength))
      && (n > 0 && |body| - at - 2 < n ==> Deframe(body[at..], accepts) == Ingest([], Truncated))
      && (0 < n <= |body| - at - 2 && accepts == 0 ==> Deframe(body[at..], accepts) == Ingest([], WriteFailed))
      && (0 < n <= |body| - at - 2 && accepts > 0 ==>
            var rest := Deframe(body[at + 2 + n..], accepts - 1);
            Deframe(body[at..], accepts) == Ingest([body[at + 2..at + 2 + n]] + rest.packets, rest.end))
  {
    hide Decode;
    if |body| - at >= 2 {
      var rest := body[at..];
      assert rest[..2] == body[at..at + 2];
      var n := Decode(body[at..at + 2]);
      if n <= |body| - at - 2 {
        assert rest[2..2 + n] == body[at + 2..at + 2 + n] && rest[2 + n..] == body[at + 2 + n..];
      }
    }
  }

  // --------------------------------------------------------------------------- there and back

  ghost predicate Framable(packets: seq<seq<byte>>) {
    forall p :: p in packets ==> 0 < |p| <= MAX_PACKET
  }

  lemma FrameFirst(packets: seq<seq<byte>>, tail: seq<byte>)
    requires Framable(packets) && packets != []
    ensures var body := Frame(packets) + tail;
      var n := |packets[0]|;
      && |body| >= 2 + n && Decode(body[..2]) == n
      && body[2..2 + n] == packets[0] && body[2 + n..] == Frame(packets[1..]) + tail
  {
    var p := packets[0];
    assert p in packets;
    assert Pow256(2) == 65536;
    DecodeEncode(|p|, 2);
    hide Encode, Decode, Pow256;
    var later := Frame(packets[1..]) + tail;
    ConcatAssociates(FrameOne(p), Frame(packets[1..]), tail);
    hide Frame;
    Pieces(Encode(|p|, 2), p, later);
  }

  lemma Pieces<T>(a: seq<T>, b: seq<T>, c: seq<T>)
    ensures var s := (a + b) + c;
      s[..|a|] == a && s[|a|..|a| + |b|] == b && s[|a| + |b|..] == c
  {
  }

  /** One turn of the gateway's loop on a body that holds a whole packet. */
  lemma DeframeFirst(body: seq<byte>, n: nat, accepts: nat)
    requires |body| >= 2 && Decode(body[..2]) == n
    requires 0 < n <= |body| - 2 && accepts > 0
    ensures var rest := Deframe(body[2 + n..], accepts - 1);
      Deframe(body, accepts) == Ingest([body[2..2 + n]] + rest.packets, rest.end)
  {
    hide Decode;
  }

  predicate Whole(body: seq<byte>) {
    |body| >= 2 && 0 < Decode(body[..2]) <= |body| - 2
  }

  lemma DeframeStops(body: seq<byte>, accepts: nat)
    requires !Whole(body) || accepts == 0
    ensures Deframe(body, accepts).packets == []
    ensures Deframe(body, accepts).end == Closed <==> |body| < 2
    ensures Deframe(body, accepts).end == BadLength <==> |body| >= 2 && Decode(body[..2]) == 0
  {
    hide Decode;
  }

  /** The gateway recovers the packets, and goes on with whatever follows them. */
  lemma {:induction false} DeframeFrame(packets: seq<seq<byte>>, tail: seq<byte>, accepts: nat)
    requires Framable(packets) && |packets| <= accepts
    ensures var rest := Deframe(tail, accepts - |packets|);
      Deframe(Frame(packets) + tail, accepts) == Ingest(packets + rest.packets, rest.end)
    decreases |packets|
  {
    hide Decode, Deframe, FrameOne;
    var rest := Deframe(tail, accepts - |packets|);
    if packets == [] {
      assert Frame(packets) + tail == tail;
    } else {
      hide Frame;
      FrameFirst(packets, tail);
      DeframeFrame(packets[1..], tail, accepts - 1);
      assert packets[0] in packets;
      DeframeFirst(Frame(packets) + tail, |packets[0]|, accepts);
      ConcatAssociates([packets[0]], packets[1..], rest.packets);
      assert packets == [packets[0]] + packets[1..];
    }
  }

  lemma FrameFramed(prefix: seq<byte>, packet: seq<byte>, packets: seq<seq<byte>>)
    requires |prefix| == 2 && Decode(prefix) == |packet| > 0 && Framable(packets)
    ensures Framable([packet] + packets)
    ensures Frame([packet] + packets) == (prefix + packet) + Frame(packets)
  {
    DecodeBound(prefix);
    EncodeDecode(prefix);
    assert Pow256(2) == 65536;
    hide Encode, Decode, Pow256;
    assert ([packet] + packets)[1..] == packets;
  }

  lemma FrameWhole(body: seq<byte>, packets: seq<seq<byte>>)
    requires Whole(body)
    requires var rest := body[2 + Decode(body[..2])..];
      Framable(packets) && Frame(packets) <= rest
    ensures var n := Decode(body[..2]);
      var all := [body[2..2 + n]] + packets;
      Framable(all) && Frame(all) <= body && |Frame(all)| == 2 + n + |Frame(packets)|
  {
    hide Decode, Frame, Framable;
    var n := Decode(body[..2]);
    var packet, rest := body[2..2 + n], body[2 + n..];
    FrameFramed(body[..2], packet, packets);
    PrefixConcat(body[..2] + packet, Frame(packets), rest);
    assert body == (body[..2] + packet) + rest;
  }

  /** Conversely, what the gateway delivers, framed again, is what it consumed. */
  lemma {:induction false} FrameDeframe(body: seq<byte>, accepts: nat)
    ensures var d := Deframe(body, accepts);
      && Framable(d.packets) && Frame(d.packets) <= body
      && (d.end == Closed ==> |body| <= |Frame(d.packets)| + 1)
    decreases |body|
  {
    hide Decode, Frame, Deframe;
    if Whole(body) && accepts > 0 {
      var n := Decode(body[..2]);
      DeframeFirst(body, n, accepts);
      FrameDeframe(body[2 + n..], accepts - 1);
      FrameWhole(body, Deframe(body[2 + n..], accepts - 1).packets);
    } else {
      DeframeStops(body, accepts);
      FrameNothing();
    }
  }

  lemma CutOne(packets: seq<seq<byte>>, cut: nat)
    requires Framable(packets) && packets != [] && 2 <= cut <= |Frame(packets)|
    ensures var body, n := Frame(packets)[..cut], |packets[0]|;
      && Decode(body[..2]) == n > 0
      && (Whole(body) <==> cut >= 2 + n)
      && (cut >= 2 + n ==>
            && cut - 2 - n <= |Frame(packets[1..])|
            && body[2..2 + n] == packets[0] && body[2 + n..] == Frame(packets[1..])[..cut - 2 - n])
  {
    assert packets[0] in packets;
    hide Decode, Frame;
    var whole, n := Frame(packets), |packets[0]|;
    FrameFirst(packets, []);
    hide Framable;
    assert whole + [] == whole && Frame(packets[1..]) + [] == Frame(packets[1..]);
    CutPieces(whole, cut, n);
    assert |Frame(packets[1..])| == |whole| - 2 - n;
  }

  lemma CutPieces<T>(whole: seq<T>, cut: nat, n: nat)
    requires 2 <= cut <= |whole| && 2 + n <= |whole|
    ensures whole[..cut][..2] == whole[..2]
    ensures cut >= 2 + n ==> whole[..cut][2..2 + n] == whole[2..2 + n]
    ensures cut >= 2 + n ==> whole[..cut][2 + n..] == whole[2 + n..][..cut - 2 - n]
  {
  }

  /** A body that is cut short delivers a prefix of the packets and nothing else. */
  lemma {:induction false} CutBody(packets: seq<seq<byte>>, cut: nat, accepts: nat)
    requires Framable(packets) && cut <= |Frame(packets)|
    ensures Deframe(Frame(packets)[..cut], accepts).packets <= packets
    ensures Deframe(Frame(packets)[..cut], accepts).end != BadLength
    decreases |packets|
  {
    hide Decode, Deframe, Frame, Whole;
    FrameNothing();
    var body := Frame(packets)[..cut];
    if cut < 2 {
      ShortBody(body, accepts);
    } else {
      CutOne(packets, cut);
      if Whole(body) && accepts > 0 {
        var n := |packets[0]|;
        DeframeFirst(body, n, accepts);
        CutBody(packets[1..], cut - 2 - n, accepts - 1);
        PrefixConcat([packets[0]], Deframe(body[2 + n..], accepts - 1).packets, packets[1..]);
        assert packets == [packets[0]] + packets[1..];
      } else {
        DeframeStops(body, accepts);
      }
    }
  }

  lemma ShortBody(body: seq<byte>, accepts: nat)
    requires |body| < 2
    ensures Deframe(body, accepts) == Ingest([], Closed)
  {
  }

  /** What is sent as one body comes out of the track and the receiver as the units that went in. */
  lemma EndToEnd(nals: seq<seq<byte>>, sequence: nat, timestamp: nat, ssrc: nat, accepts: nat, partial: Option<Partial>)
    requires ValidHeader(Header(true, sequence, timestamp, ssrc))
    requires forall nal :: nal in nals ==> WellFormed(nal)
    requires |PacketsOf(nals, sequence, timestamp, ssrc)| <= accepts
    ensures var ingest := Deframe(Frame(PacketsOf(nals, sequence, timestamp, ssrc)), accepts);
      ingest.end == Closed && Receive(partial, ingest.packets).nals == NonEmpty(nals)
  {
    hide Frame, PacketsOf, Receive, Decode;
    var packets := PacketsOf(nals, sequence, timestamp, ssrc);
    PacketShape(nals, sequence, timestamp, ssrc);
    DeframeFrame(packets, [], accepts);
    assert Frame(packets) + [] == Frame(packets) && packets + [] == packets;
    UnitsReassemble(nals, sequence, timestamp, ssrc, partial);
  }

  // --------------------------------------------------------------------------- a whole session

  /** The counters after a session's batches, one batch per read. */
  function CountersAt(batches: seq<seq<seq<byte>>>, c: Counters, ssrc: nat): Counters {
    if batches == [] then
      c
    else
      CountersAfter(CountersAt(batches[..|batches| - 1], c, ssrc), batches[|batches| - 1], ssrc)
  }

  /** The bodies of a session, one for every batch; the muxer's counters run on from each to the next. */
  function Bodies(batches: seq<seq<seq<byte>>>, c: Counters, ssrc: nat): (bodies: seq<seq<byte>>)
    ensures |bodies| == |batches|
  {
    if batches == [] then
      []
    else
      var init, at := batches[..|batches| - 1], CountersAt(batches[..|batches| - 1], c, ssrc);
      Bodies(init, c, ssrc) + [Frame(PacketsOf(batches[|batches| - 1], at.sequence, at.timestamp, ssrc))]
  }

  /** What the gateway makes of bodies in turn, when the track takes every packet. */
  function Delivered(bodies: seq<seq<byte>>): seq<seq<byte>> {
    if bodies == [] then
      []
    else
      var last := bodies[|bodies| - 1];
      Delivered(bodies[..|bodies| - 1]) + Deframe(last, |last|).packets
  }

  lemma OneMoreBody(batches: seq<seq<seq<byte>>>, batch: seq<seq<byte>>, c: Counters, ssrc: nat)
    ensures var at := CountersAt(batches, c, ssrc);
      && Bodies(batches + [batch], c, ssrc) ==
           Bodies(batches, c, ssrc) + [Frame(PacketsOf(batch, at.sequence, at.timestamp, ssrc))]
      && CountersAt(batches + [batch], c, ssrc) == CountersAfter(at, batch, ssrc)
  {
    hide Frame, PacketsOf, CountersAfter;
    assert (batches + [batch])[..|batches|] == batches;
  }

  lemma OneMoreDelivered(bodies: seq<seq<byte>>, body: seq<byte>)
    ensures Delivered(bodies + [body]) == Delivered(bodies) + Deframe(body, |body|).packets
  {
    hide Deframe;
    assert (bodies + [body])[..|bodies|] == bodies;
  }

  /** The handler, called with one body after another. */
  method IngestAll(ingest: MediaIngest, bodies: seq<seq<byte>>)
    requires ingest.packetsSent < TWO_TO_THE_64 && ingest.bytesSent < TWO_TO_THE_64
    modifies ingest`track, ingest`packetsSent, ingest`bytesSent, ingest.buffer
    ensures ingest.track == old(ingest.track) + Delivered(bodies)
    ensures ingest.packetsSent == (old(ingest.packetsSent) + |Delivered(bodies)|) % 0x1_0000_0000_0000_0000
    ensures ingest.bytesSent == (old(ingest.bytesSent) + Size(Delivered(bodies))) % 0x1_0000_0000_0000_0000
  {
    hide Deframe, Size, Wrap64;
    assert bodies[..0] == [];
    StartCounting(ingest.packetsSent, ingest.bytesSent);
    for i := 0 to |bodies|
      invariant ingest.buffer == old(ingest.buffer)
      invariant ingest.track == old(ingest.track) + Delivered(bodies[..i])
      invariant ingest.packetsSent == Wrap64(old(ingest.packetsSent) + |Delivered(bodies[..i])|)
      invariant ingest.bytesSent == Wrap64(old(ingest.bytesSent) + Size(Delivered(bodies[..i])))
    {
      ghost var before, more := Delivered(bodies[..i]), Deframe(bodies[i], |bodies[i]|).packets;
      OneMoreDelivered(bodies[..i], bodies[i]);
      assert bodies[..i + 1] == bodies[..i] + [bodies[i]];
      CountMore(old(ingest.packetsSent), old(ingest.bytesSent), before, more);
      var _ := ingest.HandleVideo(bodies[i], |bodies[i]|);
      ConcatAssociates(old(ingest.track), before, more);
    }
    assert bodies[..|bodies|] == bodies;
    WrapIs(old(ingest.packetsSent) + |Delivered(bodies)|);
    WrapIs(old(ingest.bytesSent) + Size(Delivered(bodies)));
  }

  lemma WrapIs(n: nat)
    ensures Wrap64(n) == n % 0x1_0000_0000_0000_0000
  {
  }

  lemma CountMore(p: nat, b: nat, written: seq<seq<byte>>, more: seq<seq<byte>>)
    ensures Wrap64(Wrap64(p + |written|) + |more|) == Wrap64(p + |written + more|)
    ensures Wrap64(Wrap64(b + Size(written)) + Size(more)) == Wrap64(b + Size(written + more))
  {
    Wrap64Sum(p + |written|, |more|);
    Wrap64Sum(b + Size(written), Size(more));
    SizeConcat(written, more);
  }

  lemma {:induction false} SizeConcat(a: seq<seq<byte>>, b: seq<seq<byte>>)
    ensures Size(a + b) == Size(a) + Size(b)
    decreases |b|
  {
    if b == [] {
      assert a + b == a;
    } else {
      var init := b[..|b| - 1];
      SizeConcat(a, init);
      assert (a + b)[..|a + b| - 1] == a + init;
    }
  }

  /** A body of nothing delivers nothing, so it need not be sent. */
  lemma {:induction false} EmptyBodiesDoNotMatter(bodies: seq<seq<byte>>)
    ensures Delivered(NonEmpty(bodies)) == Delivered(bodies)
  {
    if bodies != [] {
      var init, last := bodies[..|bodies| - 1], bodies[|bodies| - 1];
      EmptyBodiesDoNotMatter(init);
      assert bodies == init + [last];
      NonEmptyConcat(init, [last]);
      NonEmptyOne(last);
      hide Deframe;
      if last == [] {
        ShortBody(last, |last|);
        assert NonEmpty(init) + [] == NonEmpty(init);
      } else {
        OneMoreDelivered(NonEmpty(init), last);
      }
      OneMoreDelivered(init, last);
    }
  }

  lemma NonEmptyOne(body: seq<byte>)
    ensures NonEmpty([body]) == if body == [] then [] else [body]
  {
    assert [body][1..] == [];
  }

  /** Every packet takes up more than its length's two bytes, so a track that takes |body| packets takes them all. */
  lemma {:induction false} FewerPacketsThanBytes(packets: seq<seq<byte>>)
    requires Framable(packets)
    ensures |packets| <= |Frame(packets)|
  {
    hide Encode;
    if packets != [] {
      assert packets[0] in packets;
      FewerPacketsThanBytes(packets[1..]);
    }
  }

  lemma BodyDelivers(batch: seq<seq<byte>>, at: Counters, ssrc: nat, partial: Option<Partial>)
    requires ValidHeader(Header(true, at.sequence, at.timestamp, ssrc)) && forall nal :: nal in batch ==> WellFormed(nal)
    ensures var body := Frame(PacketsOf(batch, at.sequence, at.timestamp, ssrc));
      Receive(partial, Deframe(body, |body|).packets).nals == NonEmpty(batch)
  {
    hide Frame, PacketsOf, Receive, Deframe, WellFormed;
    var packets := PacketsOf(batch, at.sequence, at.timestamp, ssrc);
    PacketShape(batch, at.sequence, at.timestamp, ssrc);
    FewerPacketsThanBytes(packets);
    EndToEnd(batch, at.sequence, at.timestamp, ssrc, |Frame(packets)|, partial);
  }

  /** Over a whole session, however the encoder's output falls into batches, no unit is lost, repeated or reordered. */
  lemma {:induction false} SessionRoundTrip(batches: seq<seq<seq<byte>>>, c: Counters, ssrc: nat, partial: Option<Partial>)
    requires ValidHeader(Header(true, c.sequence, c.timestamp, ssrc))
    requires forall b, nal :: b in batches && nal in b ==> WellFormed(nal)
    ensures Receive(partial, Delivered(Bodies(batches, c, ssrc))).nals == NonEmpty(Flatten(batches))
    ensures ValidHeader(Header(true, CountersAt(batches, c, ssrc).sequence, CountersAt(batches, c, ssrc).timestamp, ssrc))
  {
    hide Frame, PacketsOf, Receive, Deframe, WellFormed, Number, Ticked;
    if batches == [] {
      NothingReceived(partial);
    } else {
      var init, last := batches[..|batches| - 1], batches[|batches| - 1];
      assert last in batches && forall b :: b in init ==> b in batches;
      SessionRoundTrip(init, c, ssrc, partial);
      var at := CountersAt(init, c, ssrc);
      var body := Frame(PacketsOf(last, at.sequence, at.timestamp, ssrc));
      var before := Delivered(Bodies(init, c, ssrc));
      OneMoreDelivered(Bodies(init, c, ssrc), body);
      BodyDelivers(last, at, ssrc, Receive(partial, before).partial);
      ReceiveConcat(partial, before, Deframe(body, |body|).packets);
      NonEmptyConcat(Flatten(init), last);
    }
  }

  lemma {:induction false} NonEmptyConcat(p: seq<seq<byte>>, q: seq<seq<byte>>)
    ensures NonEmpty(p + q) == NonEmpty(p) + NonEmpty(q)
  {
    if p == [] {
      assert p + q == q;
    } else {
      NonEmptyConcat(p[1..], q);
      assert (p + q)[1..] == p[1..] + q;
      ConcatAssociates(if p[0] == [] then [] else [p[0]], NonEmpty(p[1..]), NonEmpty(q));
    }
  }
}
