/** The host agent's RTP packetiser for H.264, and a receiver that follows RFC 6184. */
module Rtp {
  import opened Bytes
  import opened Collections

  const MTU := 1400
  const TIMESTAMP_STEP := 3000
  const TWO_TO_THE_16 := 0x1_0000
  const TWO_TO_THE_32 := 0x1_0000_0000

  /** What goes into one RTP packet: a whole NAL unit, or one FU-A fragment of it. */
  datatype Payload = Payload(bytes: seq<byte>, marker: bool)

  datatype Header = Header(marker: bool, sequence: nat, timestamp: nat, ssrc: nat)

  ghost predicate ValidHeader(h: Header) {
    h.sequence < TWO_TO_THE_16 && h.timestamp < TWO_TO_THE_32 && h.ssrc < TWO_TO_THE_32
  }

  /** The sequence number k packets after sequence. */
  function Number(sequence: nat, k: nat): (n: nat)
    ensures n < TWO_TO_THE_16
  {
    (sequence + k) % TWO_TO_THE_16
  }

  lemma NumberSum(sequence: nat, j: nat, k: nat)
    ensures Number(Number(sequence, j), k) == Number(sequence, j + k)
    ensures sequence < TWO_TO_THE_16 ==> Number(sequence, 0) == sequence
  {
  }

  // --------------------------------------------------------------------------- one packet

  /** The fixed RTP header, section 5.1 of RFC 3550, followed by the payload. */
  function Packet(h: Header, payload: seq<byte>): (p: seq<byte>)
    ensures |p| == 12 + |payload|
  {
    [0x80, if h.marker then 0xE0 else 0x60] + Encode(h.sequence, 2) + Encode(h.timestamp, 4) + Encode(h.ssrc, 4) + payload
  }

  /** What a receiver reads from a packet of version 2, with no extension, of payload type 96. */
  function Parse(p: seq<byte>): Option<(Header, seq<byte>)> {
    if |p| < 12 || p[0] != 0x80 || p[1] & 0x7F != 96 then
      None
    else
      Some((Header(p[1] & 0x80 != 0, Decode(p[2..4]), Decode(p[4..8]), Decode(p[8..12])), p[12..]))
  }

  lemma ParsePacket(h: Header, payload: seq<byte>)
    requires ValidHeader(h)
    ensures Parse(Packet(h, payload)) == Some((h, payload))
  {
    PacketPieces(h, payload);
    hide Encode, Decode;
  }

  lemma PacketPieces(h: Header, payload: seq<byte>)
    requires ValidHeader(h)
    ensures var p := Packet(h, payload);
      && Decode(p[2..4]) == h.sequence && Decode(p[4..8]) == h.timestamp && Decode(p[8..12]) == h.ssrc && p[12..] == payload
  {
    Powers();
    hide Encode, Decode, Pow256;
    var p := Packet(h, payload);
    DecodeEncode(h.sequence, 2);
    DecodeEncode(h.timestamp, 4);
    DecodeEncode(h.ssrc, 4);
    assert p[2..4] == Encode(h.sequence, 2) && p[4..8] == Encode(h.timestamp, 4) && p[8..12] == Encode(h.ssrc, 4);
    assert p[12..] == payload;
  }

  /** The header byte by byte, section 5.1 of RFC 3550: version 2, payload type 96, and numbers in network order. */
  lemma PacketByBytes(h: Header, payload: seq<byte>)
    requires ValidHeader(h)
    ensures var p := Packet(h, payload);
      && |p| == 12 + |payload| && p[12..] == payload
      && p[0] == 0x80 && p[1] == (if h.marker then 0x80 else 0) + 96
      && h.sequence == 256 * p[2] as nat + p[3] as nat
      && h.timestamp == 0x100_0000 * p[4] as nat + 0x1_0000 * p[5] as nat + 0x100 * p[6] as nat + p[7] as nat
      && h.ssrc == 0x100_0000 * p[8] as nat + 0x1_0000 * p[9] as nat + 0x100 * p[10] as nat + p[11] as nat
  {
    PacketPieces(h, payload);
    hide Encode, Decode;
    var p := Packet(h, payload);
    DecodeTwo(p[2..4]);
    DecodeFour(p[4..8]);
    DecodeFour(p[8..12]);
  }

  // --------------------------------------------------------------------------- fragmentation

  function Indicator(nalHeader: byte): byte {
    0x80 | (nalHeader & 0x60) | 0x1C
  }

  function FuHeader(nalHeader: byte, first: bool, last: bool): byte {
    (nalHeader & 0x1F) | (if first then 0x80 else 0) | (if last then 0x40 else 0)
  }

  /** The FU-A fragments of a unit whose body is rest. */
  function Fragments(nalHeader: byte, rest: seq<byte>, first: bool): seq<Payload>
    decreases |rest|
  {
    if rest == [] then
      []
    else
      var last := |rest| <= MTU;
      var n := if last then |rest| else MTU;
      [Payload([Indicator(nalHeader), FuHeader(nalHeader, first, last)] + rest[..n], last)] + Fragments(nalHeader, rest[n..], false)
  }

  /** The payloads that carry one NAL unit. */
  function Payloads(nal: seq<byte>): seq<Payload> {
    if nal == [] then
      []
    else if |nal| <= MTU then
      [Payload(nal, true)]
    else
      Fragments(nal[0], nal[1..], true)
  }

  /** The packets that carry the payloads, numbered from sequence onwards. */
  function Stamp(payloads: seq<Payload>, sequence: nat, timestamp: nat, ssrc: nat): (packets: seq<seq<byte>>)
    ensures |packets| == |payloads|
  {
    if payloads == [] then
      []
    else
      [Packet(Header(payloads[0].marker, sequence, timestamp, ssrc), payloads[0].bytes)]
      + Stamp(payloads[1..], Number(sequence, 1), timestamp, ssrc)
  }

  /** The packets of a list of units; every unit, even an empty one, moves the timestamp on. */
  function PacketsOf(nals: seq<seq<byte>>, sequence: nat, timestamp: nat, ssrc: nat): seq<seq<byte>> {
    if nals == [] then
      []
    else
      var t := (timestamp + TIMESTAMP_STEP) % TWO_TO_THE_32;
      var payloads := Payloads(nals[0]);
      Stamp(payloads, sequence, t, ssrc) + PacketsOf(nals[1..], Number(sequence, |payloads|), t, ssrc)
  }

  /** The first fragment of a body is one packet; the others follow it. */
  lemma StampFragments(nalHeader: byte, rest: seq<byte>, first: bool, sequence: nat, timestamp: nat, ssrc: nat)
    requires rest != []
    ensures var last := |rest| <= MTU;
      var n := if last then |rest| else MTU;
      var payload := [Indicator(nalHeader), FuHeader(nalHeader, first, last)] + rest[..n];
      Stamp(Fragments(nalHeader, rest, first), sequence, timestamp, ssrc)
        == [Packet(Header(last, sequence, timestamp, ssrc), payload)]
           + Stamp(Fragments(nalHeader, rest[n..], false), Number(sequence, 1), timestamp, ssrc)
  {
    hide Packet, Indicator, FuHeader, Number;
    var fragments := Fragments(nalHeader, rest, first);
    assert fragments[1..] == Fragments(nalHeader, rest[if |rest| <= MTU then |rest| else MTU..], false);
  }

  lemma WhenLong(nal: seq<byte>)
    ensures |nal| > MTU ==> Payloads(nal) == Fragments(nal[0], nal[1..], true)
  {
  }

  lemma StampNothing(sequence: nat, timestamp: nat, ssrc: nat)
    ensures forall h: byte, first: bool :: Stamp(Fragments(h, [], first), sequence, timestamp, ssrc) == []
    ensures Stamp(Payloads([]), sequence, timestamp, ssrc) == []
  {
  }

  lemma StampWhole(nal: seq<byte>, sequence: nat, timestamp: nat, ssrc: nat)
    requires 0 < |nal| <= MTU
    ensures Stamp(Payloads(nal), sequence, timestamp, ssrc) == [Packet(Header(true, sequence, timestamp, ssrc), nal)]
  {
    hide Packet;
  }

  /** The packetiser's counters: a 16-bit sequence number and a 32-bit timestamp, both wrapping. */
  class RtpMuxer {
    var sequence: nat
    var timestamp: nat
    var ssrc: nat

    ghost predicate Valid()
      reads this
    {
      sequence < TWO_TO_THE_16 && timestamp < TWO_TO_THE_32 && ssrc < TWO_TO_THE_32
    }

    constructor (ssrc: nat)
      requires ssrc < TWO_TO_THE_32
      ensures Valid() && sequence == 1 && timestamp == 0 && this.ssrc == ssrc
    {
      sequence, timestamp, this.ssrc := 1, 0, ssrc;
    }

    method Marshal(payload: seq<byte>, marker: bool) returns (packet: seq<byte>)
      requires Valid()
      modifies this`sequence
      ensures Valid() && sequence == Number(old(sequence), 1)
      ensures packet == Packet(Header(marker, old(sequence), timestamp, ssrc), payload)
    {
      packet := [0x80, 96];
      if marker {
        packet := packet[1 := packet[1] | 0x80];
      }
      packet := packet + Encode(sequence, 2) + Encode(timestamp, 4) + Encode(ssrc, 4) + payload;
      sequence := Number(sequence, 1);
    }

    method WrapNAL(nal: seq<byte>) returns (packets: seq<seq<byte>>)
      requires Valid()
      modifies this`sequence
      ensures Valid() && packets == Stamp(Payloads(nal), old(sequence), timestamp, ssrc)
      ensures sequence == Number(old(sequence), |packets|)
    {
      hide Packet, Number, Indicator, FuHeader, Stamp, Fragments, Payloads;
      packets := [];
      WhenLong(nal);
      NumberSum(sequence, 0, 0);
      if |nal| == 0 {
        StampNothing(sequence, timestamp, ssrc);
        return;
      }
      if |nal| <= MTU {
        StampWhole(nal, sequence, timestamp, ssrc);
        var packet := Marshal(nal, true);
        packets := [packet];
        return;
      }
      ghost var all := Stamp(Payloads(nal), sequence, timestamp, ssrc);
      var payload := nal[1..];
      var start := 0;
      while start < |payload|
        invariant Valid() && 0 <= start <= |payload|
        invariant sequence == Number(old(sequence), |packets|)
        invariant packets + Stamp(Fragments(nal[0], payload[start..], start == 0), sequence, timestamp, ssrc) == all
      {
        ghost var rest, before := payload[start..], packets;
        var end, isEnd := start + MTU, false;
        if end >= |payload| {
          end, isEnd := |payload|, true;
        }
        StampFragments(nal[0], rest, start == 0, sequence, timestamp, ssrc);
        assert payload[start..end] == rest[..end - start] && payload[end..] == rest[end - start..];
        NumberSum(old(sequence), |packets|, 1);
        var packet := Marshal([Indicator(nal[0]), FuHeader(nal[0], start == 0, isEnd)] + payload[start..end], isEnd);
        packets := packets + [packet];
        ghost var later := Stamp(Fragments(nal[0], payload[end..], false), sequence, timestamp, ssrc);
        assert packets + later == before + ([packet] + later);
        start := end;
      }
      StampNothing(sequence, timestamp, ssrc);
      assert payload[start..] == [];
    }
  }

  /** Sizes, S on the first fragment only, E and the marker on the last only. */
  lemma {:induction false} FragmentShape(nalHeader: byte, rest: seq<byte>, first: bool)
    requires rest != []
    ensures var fs := Fragments(nalHeader, rest, first);
      && fs != []
      && forall k :: 0 <= k < |fs| ==>
           && 3 <= |fs[k].bytes| <= 1402
           && (fs[k].bytes[1] & 0x80 != 0 <==> k == 0 && first)
           && (fs[k].bytes[1] & 0x40 != 0 <==> k == |fs| - 1)
           && (fs[k].marker <==> k == |fs| - 1)
    decreases |rest|
  {
    var fs := Fragments(nalHeader, rest, first);
    var n := if |rest| <= MTU then |rest| else MTU;
    if n < |rest| {
      FragmentShape(nalHeader, rest[n..], false);
      assert forall k :: 1 <= k < |fs| ==> fs[k] == Fragments(nalHeader, rest[n..], false)[k - 1];
    } else {
      assert rest[n..] == [];
      assert fs == [fs[0]];
    }
  }

  /** Fragment k of a unit of more than 1400 bytes, section 5.8 of RFC 6184: NRI and type 28 in front, the unit's type
    * with S on the first and E on the last, and 1400 bytes of the unit's body, or what is left of it. */
  lemma FragmentAt(nal: seq<byte>, k: nat)
    requires |nal| > 1400 && 1400 * k < |nal| - 1
    ensures var last, from := |nal| - 1 <= 1400 * (k + 1), 1 + 1400 * k;
      && k < |Payloads(nal)| && (last <==> k == |Payloads(nal)| - 1)
      && Payloads(nal)[k].marker == last
      && Payloads(nal)[k].bytes ==
         [0x80 + (nal[0] & 0x60) + 28, nal[0] % 32 + (if k == 0 then 0x80 else 0) + (if last then 0x40 else 0)]
         + nal[from..if last then |nal| else from + 1400]
  {
    hide Fragments, Indicator, FuHeader;
    var last, from := |nal| - 1 <= 1400 * (k + 1), 1 + 1400 * k;
    FragmentsAt(nal[0], nal[1..], true, k);
    FragmentNumbers(nal[0], k == 0, last);
    assert nal[1..][1400 * k..if last then |nal| - 1 else 1400 * (k + 1)] == nal[from..if last then |nal| else from + 1400];
  }

  lemma FragmentNumbers(h: byte, first: bool, last: bool)
    ensures Indicator(h) == 0x80 + (h & 0x60) + 28
    ensures FuHeader(h, first, last) == h % 32 + (if first then 0x80 else 0) + (if last then 0x40 else 0)
  {
  }

  lemma {:induction false} FragmentsAt(nalHeader: byte, rest: seq<byte>, first: bool, k: nat)
    requires 1400 * k < |rest|
    ensures var last := |rest| <= 1400 * (k + 1);
      var fs := Fragments(nalHeader, rest, first);
      && k < |fs| && (last <==> k == |fs| - 1)
      && fs[k] == Payload([Indicator(nalHeader), FuHeader(nalHeader, first && k == 0, last)]
           + rest[1400 * k..if last then |rest| else 1400 * (k + 1)], last)
    decreases |rest|
  {
    hide Indicator, FuHeader;
    var fs := Fragments(nalHeader, rest, first);
    if k > 0 {
      var later := rest[1400..];
      FragmentsAt(nalHeader, later, false, k - 1);
      var last := |rest| <= 1400 * (k + 1);
      assert |rest| > 1400;
      assert fs == [fs[0]] + Fragments(nalHeader, later, false);
      assert fs[k] == fs[1..][k - 1];
      assert later[1400 * (k - 1)..if last then |later| else 1400 * k] == rest[1400 * k..if last then |rest| else 1400 * (k + 1)];
    } else {
      var n := if |rest| <= 1400 then |rest| else 1400;
      assert rest[n..] == [] <==> |rest| <= 1400;
      assert fs[1..] == Fragments(nalHeader, rest[n..], false);
    }
  }

  /** The k-th packet holds the k-th payload and the k-th number after sequence, modulo 2^16. */
  lemma {:induction false} StampAt(payloads: seq<Payload>, sequence: nat, timestamp: nat, ssrc: nat, k: nat)
    requires k < |payloads| && sequence < TWO_TO_THE_16
    ensures Stamp(payloads, sequence, timestamp, ssrc)[k]
         == Packet(Header(payloads[k].marker, Number(sequence, k), timestamp, ssrc), payloads[k].bytes)
  {
    hide Packet, Number;
    if k == 0 {
      NumberSum(sequence, 0, 0);
    } else {
      StampAt(payloads[1..], Number(sequence, 1), timestamp, ssrc, k - 1);
      NumberSum(sequence, 1, k - 1);
    }
  }

  lemma {:induction false} PayloadShape(nal: seq<byte>)
    ensures forall k :: 0 <= k < |Payloads(nal)| ==>
      && 1 <= |Payloads(nal)[k].bytes| <= 1402
      && (Payloads(nal)[k].marker <==> k == |Payloads(nal)| - 1)
  {
    if |nal| > MTU {
      FragmentShape(nal[0], nal[1..], true);
    }
  }

  ghost predicate Sized(packets: seq<seq<byte>>) {
    forall p :: p in packets ==> 13 <= |p| <= 1414
  }

  ghost predicate Numbered(packets: seq<seq<byte>>, sequence: nat) {
    forall k :: 0 <= k < |packets| ==>
      Parse(packets[k]).Some? && Parse(packets[k]).value.0.sequence == (sequence + k) % 65536
  }

  lemma StampShape(nal: seq<byte>, sequence: nat, timestamp: nat, ssrc: nat)
    requires ValidHeader(Header(true, sequence, timestamp, ssrc))
    ensures Sized(Stamp(Payloads(nal), sequence, timestamp, ssrc))
    ensures Numbered(Stamp(Payloads(nal), sequence, timestamp, ssrc), sequence)
  {
    hide Payloads, Stamp, Packet, Parse;
    var payloads := Payloads(nal);
    PayloadShape(nal);
    forall k | 0 <= k < |payloads|
      ensures var p := Stamp(payloads, sequence, timestamp, ssrc)[k];
        13 <= |p| <= 1414 && Parse(p).Some? && Parse(p).value.0.sequence == Number(sequence, k)
    {
      StampAt(payloads, sequence, timestamp, ssrc, k);
      ParsePacket(Header(payloads[k].marker, Number(sequence, k), timestamp, ssrc), payloads[k].bytes);
    }
  }

  /** Every packet is 13 to 1414 bytes, and the sequence numbers are consecutive modulo 2^16. */
  lemma {:induction false} PacketShape(nals: seq<seq<byte>>, sequence: nat, timestamp: nat, ssrc: nat)
    requires ValidHeader(Header(true, sequence, timestamp, ssrc))
    ensures Sized(PacketsOf(nals, sequence, timestamp, ssrc))
    ensures Numbered(PacketsOf(nals, sequence, timestamp, ssrc), sequence)
  {
    hide Payloads, Stamp, Parse, Number;
    if nals != [] {
      var t := (timestamp + TIMESTAMP_STEP) % TWO_TO_THE_32;
      var now := Stamp(Payloads(nals[0]), sequence, t, ssrc);
      var s := Number(sequence, |now|);
      StampShape(nals[0], sequence, t, ssrc);
      PacketShape(nals[1..], s, t, ssrc);
      NumberedConcat(now, PacketsOf(nals[1..], s, t, ssrc), sequence);
    }
  }

  lemma NumberedConcat(p: seq<seq<byte>>, q: seq<seq<byte>>, sequence: nat)
    requires Numbered(p, sequence) && Numbered(q, Number(sequence, |p|))
    ensures Numbered(p + q, sequence)
  {
    hide Parse;
    forall k | 0 <= k < |p + q|
      ensures Parse((p + q)[k]).Some? && Parse((p + q)[k]).value.0.sequence == (sequence + k) % 65536
    {
      if k >= |p| {
        assert (p + q)[k] == q[k - |p|];
        NumberSum(sequence, |p|, k - |p|);
      }
    }
  }

  /** The packets of unit k come after those of the units before, numbered on from them, with a timestamp 3000 ticks
    * later for every unit. */
  lemma {:induction false} UnitAt(nals: seq<seq<byte>>, sequence: nat, timestamp: nat, ssrc: nat, k: nat)
    requires k < |nals| && sequence < 65536
    ensures var before := PacketsOf(nals[..k], sequence, timestamp, ssrc);
      var own := Stamp(Payloads(nals[k]), (sequence + |before|) % 65536, (timestamp + 3000 * (k + 1)) % 0x1_0000_0000, ssrc);
      before + own <= PacketsOf(nals, sequence, timestamp, ssrc)
  {
    hide Payloads, Stamp;
    var t := (timestamp + TIMESTAMP_STEP) % TWO_TO_THE_32;
    var first := Stamp(Payloads(nals[0]), sequence, t, ssrc);
    if k == 0 {
      assert nals[..0] == [];
    } else {
      UnitAt(nals[1..], Number(sequence, |first|), t, ssrc, k - 1);
      assert nals[..k][0] == nals[0] && nals[..k][1..] == nals[1..][..k - 1];
      assert t + 3000 * k == t + 3000 * (k - 1 + 1);
      var before := PacketsOf(nals[1..][..k - 1], Number(sequence, |first|), t, ssrc);
      assert PacketsOf(nals[..k], sequence, timestamp, ssrc) == first + before;
      Later(timestamp, k);
      NumberSum(sequence, |first|, |before|);
      var own := Stamp(Payloads(nals[k]), Number(sequence, |first| + |before|), (t + 3000 * k) % TWO_TO_THE_32, ssrc);
      ConcatAssociates(first, before, own);
      PrefixConcat(first, before + own, PacketsOf(nals[1..], Number(sequence, |first|), t, ssrc));
    }
  }

  lemma Later(timestamp: nat, k: nat)
    ensures ((timestamp + 3000) % 0x1_0000_0000 + 3000 * k) % 0x1_0000_0000 == (timestamp + 3000 * (k + 1)) % 0x1_0000_0000
  {
    Remainder32(timestamp + 3000, 3000 * k);
    assert timestamp + 3000 + 3000 * k == timestamp + 3000 * (k + 1);
  }

  lemma Remainder32(x: nat, y: nat)
    ensures (x % TWO_TO_THE_32 + y) % TWO_TO_THE_32 == (x + y) % TWO_TO_THE_32
  {
  }

  // --------------------------------------------------------------------------- the receiver

  /** The unit under reassembly, and the number and timestamp its next fragment must carry. */
  datatype Partial = Partial(nal: seq<byte>, next: nat, timestamp: nat)

  datatype Received = Received(partial: Option<Partial>, nals: seq<seq<byte>>)

  /** Sections 5.6 and 5.8 of RFC 6184, dropping an unfinished unit when a fragment is missing. */
  function Accept(partial: Option<Partial>, packet: seq<byte>): Received {
    match Parse(packet)
    case None => Received(partial, [])
    case Some((h, payload)) =>
      if |payload| >= 1 && 1 <= payload[0] & 0x1F <= 23 then
        Received(None, [payload])
      else if |payload| >= 2 && payload[0] & 0x1F == 28 then
        AcceptFragment(partial, h, payload)
      else
        Received(None, [])
  }

  function AcceptFragment(partial: Option<Partial>, h: Header, payload: seq<byte>): Received
    requires |payload| >= 2
  {
    var start := payload[1] & 0x80 != 0;
    if !start && (partial.None? || partial.value.next != h.sequence || partial.value.timestamp != h.timestamp) then
      Received(None, [])
    else
      var nal := (if start then [(payload[0] & 0x60) | (payload[1] & 0x1F)] else partial.value.nal) + payload[2..];
      if payload[1] & 0x40 != 0 then
        Received(None, [nal])
      else
        Received(Some(Partial(nal, Number(h.sequence, 1), h.timestamp)), [])
  }

  /** The units that come out of a run of packets. */
  function Receive(partial: Option<Partial>, packets: seq<seq<byte>>): Received
    decreases |packets|
  {
    if packets == [] then
      Received(partial, [])
    else
      var first := Accept(partial, packets[0]);
      var rest := Receive(first.partial, packets[1..]);
      Received(rest.partial, first.nals + rest.nals)
  }

  lemma {:induction false} ReceiveConcat(partial: Option<Partial>, p: seq<seq<byte>>, q: seq<seq<byte>>)
    ensures var r := Receive(partial, p);
      var s := Receive(r.partial, q);
      Receive(partial, p + q) == Received(s.partial, r.nals + s.nals)
    decreases |p|
  {
    hide Accept;
    if p == [] {
      assert p + q == q;
    } else {
      ReceiveConcat(Accept(partial, p[0]).partial, p[1..], q);
      assert (p + q)[1..] == p[1..] + q;
    }
  }

  /** A NAL unit as section 7.4.1 of H.264 has it before RTP: F bit zero, a type of 1 to 23. */
  predicate WellFormed(nal: seq<byte>) {
    nal != [] ==> nal[0] & 0x80 == 0 && 1 <= nal[0] & 0x1F <= 23
  }

  lemma FragmentBits(h: byte, first: bool, last: bool)
    requires h & 0x80 == 0
    ensures Indicator(h) & 0x1F == 28
    ensures (Indicator(h) & 0x60) | (FuHeader(h, first, last) & 0x1F) == h
    ensures FuHeader(h, first, last) & 0x80 != 0 <==> first
    ensures FuHeader(h, first, last) & 0x40 != 0 <==> last
  {
  }

  /** One fragment takes the receiver from having done to having done + data. */
  lemma AcceptOne(h: byte, data: seq<byte>, first: bool, last: bool, partial: Option<Partial>, done: seq<byte>,
          rtp: Header)
    requires h & 0x80 == 0 && ValidHeader(rtp)
    requires if first then done == [h] else partial == Some(Partial(done, rtp.sequence, rtp.timestamp))
    ensures Accept(partial, Packet(rtp, [Indicator(h), FuHeader(h, first, last)] + data))
         == if last then Received(None, [done + data])
            else Received(Some(Partial(done + data, Number(rtp.sequence, 1), rtp.timestamp)), [])
  {
    var payload := [Indicator(h), FuHeader(h, first, last)] + data;
    FragmentBits(h, first, last);
    ParsePacket(rtp, payload);
    hide Parse, Packet, Indicator, FuHeader;
    assert payload[2..] == data;
  }

  lemma {:induction false} FragmentsReassemble(h: byte, rest: seq<byte>, first: bool, partial: Option<Partial>,
          done: seq<byte>, rtp: Header)
    requires h & 0x80 == 0 && rest != [] && ValidHeader(rtp)
    requires if first then done == [h] else partial == Some(Partial(done, rtp.sequence, rtp.timestamp))
    ensures Receive(partial, Stamp(Fragments(h, rest, first), rtp.sequence, rtp.timestamp, rtp.ssrc)) == Received(None, [done + rest])
    decreases |rest|
  {
    hide Accept, Packet, Indicator, FuHeader;
    var last := |rest| <= MTU;
    var n := if last then |rest| else MTU;
    var fragments := Fragments(h, rest, first);
    var next := Number(rtp.sequence, 1);
    var packets := Stamp(fragments, rtp.sequence, rtp.timestamp, rtp.ssrc);
    AcceptOne(h, rest[..n], first, last, partial, done, rtp.(marker := last));
    assert fragments[1..] == Fragments(h, rest[n..], false);
    assert packets[1..] == Stamp(fragments[1..], next, rtp.timestamp, rtp.ssrc);
    if last {
      assert rest[..n] == rest && packets[1..] == [];
    } else {
      FragmentsReassemble(h, rest[n..], false, Some(Partial(done + rest[..n], next, rtp.timestamp)), done + rest[..n], rtp.(sequence := next));
      assert done + rest[..n] + rest[n..] == done + rest;
    }
  }

  /** Whatever the receiver holds before it, the packets of a unit yield that unit. */
  lemma UnitReassembles(nal: seq<byte>, partial: Option<Partial>, rtp: Header)
    requires nal != [] && WellFormed(nal) && ValidHeader(rtp)
    ensures Receive(partial, Stamp(Payloads(nal), rtp.sequence, rtp.timestamp, rtp.ssrc)) == Received(None, [nal])
  {
    if |nal| <= MTU {
      ParsePacket(rtp.(marker := true), nal);
      hide Parse, Packet;
    } else {
      FragmentsReassemble(nal[0], nal[1..], true, partial, [nal[0]], rtp);
      assert [nal[0]] + nal[1..] == nal;
    }
  }

  function NonEmpty(nals: seq<seq<byte>>): seq<seq<byte>> {
    if nals == [] then [] else (if nals[0] == [] then [] else [nals[0]]) + NonEmpty(nals[1..])
  }

  /** The receiver gets back exactly the units that were sent, in order. */
  lemma {:induction false} UnitsReassemble(nals: seq<seq<byte>>, sequence: nat, timestamp: nat, ssrc: nat,
          partial: Option<Partial>)
    requires ValidHeader(Header(true, sequence, timestamp, ssrc))
    requires forall nal :: nal in nals ==> WellFormed(nal)
    ensures Receive(partial, PacketsOf(nals, sequence, timestamp, ssrc)).nals == NonEmpty(nals)
  {
    hide Payloads, Stamp, Receive, WellFormed, Number;
    if nals == [] {
      assert PacketsOf(nals, sequence, timestamp, ssrc) == [];
      NothingReceived(partial);
    } else {
      var t := (timestamp + TIMESTAMP_STEP) % TWO_TO_THE_32;
      var now := Stamp(Payloads(nals[0]), sequence, t, ssrc);
      var rest := PacketsOf(nals[1..], Number(sequence, |now|), t, ssrc);
      assert nals[0] in nals;
      if nals[0] == [] {
        assert Payloads(nals[0]) == [] by { NoPayloads(); }
        NothingReceived(partial);
      } else {
        UnitReassembles(nals[0], partial, Header(true, sequence, t, ssrc));
      }
      ReceiveConcat(partial, now, rest);
      UnitsReassemble(nals[1..], Number(sequence, |now|), t, ssrc, Receive(partial, now).partial);
    }
  }

  lemma NothingReceived(partial: Option<Partial>)
    ensures Receive(partial, []) == Received(partial, [])
  {
  }

  lemma NoPayloads()
    ensures Payloads([]) == []
  {
  }
}
