/** Messages over the WebSocket codec: fragments put together, pings answered on the way. */
module WebSocketBridge {
  import opened Bytes
  import opened Collections
  import opened WebSocket

  datatype Outcome =
    | Message(bytes: seq<byte>, rest: seq<byte>, pongs: seq<seq<byte>>)
    | Broken(error: WsError, pongs: seq<seq<byte>>)

  function Answering(payload: seq<byte>, o: Outcome): Outcome {
    o.(pongs := [payload] + o.pongs)
  }

  /** The next message in s, when partial holds what an unfinished message has brought so far. */
  function ReadData(s: seq<byte>, partial: Option<seq<byte>>): Outcome
    decreases |s|
  {
    match ReadFrame(s)
    case Failed(error) => Broken(error, [])
    case Frame(fin, opcode, payload, rest) => Deliver(partial, fin, opcode, payload, rest, |s|)
  }

  function Deliver(partial: Option<seq<byte>>, fin: bool, opcode: byte, payload: seq<byte>, rest: seq<byte>,
          before: nat): Outcome
    requires |rest| < before
    decreases before, 0
  {
    if opcode == TEXT || opcode == BINARY then
      if partial.Some? then Broken(NestedMessage, [])
      else if fin then Message(payload, rest, [])
      else ReadData(rest, Some(payload))
    else if opcode == CONTINUE then
      if partial.None? then Broken(UnexpectedContinuation, [])
      else if |partial.value| + |payload| > MAX_MESSAGE then Broken(MessageTooLarge, [])
      else if fin then Message(partial.value + payload, rest, [])
      else ReadData(rest, Some(partial.value + payload))
    else if opcode == PING then
      Answering(payload, ReadData(rest, partial))
    else if opcode == CLOSE then
      Broken(Closed, [])
    else if opcode == PONG then
      ReadData(rest, partial)
    else
      Broken(UnsupportedOpcode, [])
  }

  /** A final, unmasked pong; no control frame has more than 125 bytes. */
  function PongFrame(payload: seq<byte>): seq<byte> {
    if |payload| <= 125 then [0x8A, |payload| as byte] + payload else []
  }

  function PongBytes(pongs: seq<seq<byte>>): seq<byte> {
    if pongs == [] then [] else PongBytes(pongs[..|pongs| - 1]) + PongFrame(pongs[|pongs| - 1])
  }

  // --------------------------------------------------------------------------- the bridge

  /**
   * One client connection: what it has still to say, what it was told, and a small buffer that is used again and
   * again.
   */
  class Bridge {
    var input: seq<byte>
    var output: seq<byte>
    const small: array<byte>

    constructor (input: seq<byte>)
      ensures this.input == input && output == [] && small.Length == SMALL_FRAME && fresh(small)
    {
      this.input, output := input, [];
      small := new byte[SMALL_FRAME](_ => 0);
    }

    method ReadByte() returns (b: Option<byte>)
      modifies this`input
      ensures old(input) == [] ==> b == None && input == []
      ensures old(input) != [] ==> b == Some(old(input)[0]) && input == old(input)[1..]
    {
      if |input| == 0 {
        return None;
      }
      b := Some(input[0]);
      input := input[1..];
    }

    method ReadFull(n: nat) returns (data: Option<seq<byte>>)
      modifies this`input
      ensures n > |old(input)| ==> data == None && input == []
      ensures n <= |old(input)| ==> data == Some(old(input)[..n]) && input == old(input)[n..]
    {
      if n > |input| {
        input := [];
        return None;
      }
      data := Some(input[..n]);
      input := input[n..];
    }

    method ReadLength(second: byte) returns (size: Option<nat>)
      modifies this`input
      ensures var s, low := old(input), LowSeven(second);
        && (low == 126 ==> if |s| < 2 then size == None else size == Some(Decode(s[..2])) && input == s[2..])
        && (low == 127 ==> if |s| < 8 then size == None else size == Some(Decode(s[..8])) && input == s[8..])
        && (low != 126 && low != 127 ==> size == Some(low as nat) && input == s)
    {
      hide Decode, LowSeven;
      var low := LowSeven(second);
      if low != 126 && low != 127 {
        return Some(low as nat);
      }
      var raw := ReadFull(if low == 126 then 2 else 8);
      if raw.None? {
        return None;
      }
      return Some(Decode(raw.value));
    }

    method ReadHeader() returns (h: Head)
      modifies this`input
      ensures h == ReadHead(old(input))
      ensures h.Head? ==> input == h.rest
    {
      hide Decode, ReadHead, TopBit, LowSeven, LowNibble;
      ghost var s := input;
      HeadCases(s);
      var first := ReadByte();
      if first.None? {
        return NoHead;
      }
      var second := ReadByte();
      if second.None? {
        return NoHead;
      }
      assert input == s[2..];
      var size := ReadLength(second.value);
      if size.None? {
        return NoHead;
      }
      return Head(TopBit(first.value), LowNibble(first.value), TopBit(second.value), size.value, input);
    }

    /** Unmask in the small buffer when the payload fits there, whatever it held before. */
    method UnmaskPayload(raw: seq<byte>, mask: Mask) returns (payload: seq<byte>)
      requires small.Length == SMALL_FRAME
      modifies small
      ensures payload == Masked(raw, mask)
    {
      var buffer := small;
      if |raw| > SMALL_FRAME {
        buffer := new byte[|raw|](_ => 0);
      }
      forall k | 0 <= k < |raw| {
        buffer[k] := raw[k];
      }
      assert buffer[..|raw|] == raw;
      Unmask(buffer, |raw|, mask);
      payload := buffer[..|raw|];
    }

    method NextFrame() returns (r: Read)
      requires small.Length == SMALL_FRAME
      modifies this`input, small
      ensures r == ReadFrame(old(input))
      ensures r.Frame? ==> input == r.rest
    {
      hide ReadHead, Masked;
      var h := ReadHeader();
      if h.NoHead? {
        return Failed(EndOfInput);
      }
      if h.size > MAX_FRAME {
        return Failed(FrameTooLarge);
      }
      if h.opcode >= CLOSE {
        if !h.fin {
          return Failed(FragmentedControl);
        }
        if h.size > MAX_CONTROL {
          return Failed(ControlTooLarge);
        }
      }
      if !h.masked {
        return Failed(Unmasked);
      }
      var mask := ReadFull(4);
      if mask.None? {
        return Failed(EndOfInput);
      }
      var raw := ReadFull(h.size);
      if raw.None? {
        return Failed(EndOfInput);
      }
      assert raw.value == h.rest[4..4 + h.size] && input == h.rest[4 + h.size..];
      var payload := UnmaskPayload(raw.value, mask.value);
      r := Frame(h.fin, h.opcode, payload, input);
    }

    method WriteFrame(opcode: byte, payload: seq<byte>)
      modifies this`output
      ensures output == old(output) + ServerBytes(opcode, payload)
    {
      hide Encode;
      var header := [0x80 | opcode];
      if |payload| < 126 {
        header := header + [|payload| as byte];
      } else if |payload| <= 0xFFFF {
        header := header + [126] + Encode(|payload|, 2);
      } else {
        header := header + [127] + Encode(|payload|, 8);
      }
      assert header == ServerHead(opcode, |payload|);
      output := output + header;
      if |payload| > 0 {
        output := output + payload;
      }
    }

    method WriteControl(opcode: byte, payload: seq<byte>)
      modifies this`output
      ensures output == old(output) + ServerBytes(opcode, if |payload| > 125 then payload[..125] else payload)
    {
      var short := payload;
      if |short| > MAX_CONTROL {
        short := short[..MAX_CONTROL];
      }
      WriteFrame(opcode, short);
    }

    /** The next message; every ping on the way is answered with its own payload, uncut. */
    method ReadDataFrame() returns (message: Outcome)
      requires small.Length == SMALL_FRAME
      modifies this, small
      ensures message == ReadData(old(input), None)
      ensures message.Message? ==> input == message.rest
      ensures output == old(output) + PongBytes(message.pongs)
    {
      hide ReadFrame, ServerBytes, ReadData, PongBytes;
      var bytes: seq<byte>, fragmented := [], false;
      var pongs: seq<seq<byte>> := [];
      NoPongs();
      while true
        invariant output == old(output) + PongBytes(pongs)
        invariant ReadData(old(input), None) == AnsweringAll(pongs, ReadData(input, if fragmented then Some(bytes) else None))
        decreases |input|
      {
        ghost var s, partial := input, if fragmented then Some(bytes) else None;
        ReadDataUnfolds(s, partial);
        var frame := NextFrame();
        if frame.Failed? {
          return Broken(frame.error, pongs);
        }
        if frame.opcode == TEXT || frame.opcode == BINARY {
          if fragmented {
            return Broken(NestedMessage, pongs);
          }
          if frame.fin {
            return Message(frame.payload, input, pongs);
          }
          bytes, fragmented := frame.payload, true;
        } else if frame.opcode == CONTINUE {
          if !fragmented {
            return Broken(UnexpectedContinuation, pongs);
          }
          if |bytes| + |frame.payload| > MAX_MESSAGE {
            return Broken(MessageTooLarge, pongs);
          }
          bytes := bytes + frame.payload;
          if frame.fin {
            return Message(bytes, input, pongs);
          }
        } else if frame.opcode == PING {
          ControlIsShort(s);
          WriteControl(PONG, frame.payload);
          OneMorePong(old(output), pongs, frame.payload);
          AnsweringOneMore(pongs, frame.payload, ReadData(input, partial));
          pongs := pongs + [frame.payload];
        } else if frame.opcode == CLOSE {
          return Broken(Closed, pongs);
        } else if frame.opcode == PONG {
          continue;
        } else {
          return Broken(UnsupportedOpcode, pongs);
        }
      }
    }
  }

  function AnsweringAll(pongs: seq<seq<byte>>, o: Outcome): Outcome {
    o.(pongs := pongs + o.pongs)
  }

  lemma AnsweringOneMore(pongs: seq<seq<byte>>, payload: seq<byte>, o: Outcome)
    ensures AnsweringAll(pongs, Answering(payload, o)) == AnsweringAll(pongs + [payload], o)
  {
    ConcatAssociates(pongs, [payload], o.pongs);
  }

  lemma NoPongs()
    ensures PongBytes([]) == []
    ensures forall o: Outcome :: AnsweringAll([], o) == o
  {
    forall o: Outcome ensures AnsweringAll([], o) == o {
      assert [] + o.pongs == o.pongs;
    }
  }

  lemma OneMorePong(output: seq<byte>, pongs: seq<seq<byte>>, payload: seq<byte>)
    requires |payload| <= 125
    ensures output + PongBytes(pongs) + ServerBytes(PONG, payload) == output + PongBytes(pongs + [payload])
  {
    hide ServerBytes;
    assert (pongs + [payload])[..|pongs|] == pongs;
    PongIs(payload);
    ConcatAssociates(output, PongBytes(pongs), ServerBytes(PONG, payload));
  }

  lemma PongIs(payload: seq<byte>)
    requires |payload| <= 125
    ensures ServerBytes(PONG, payload) == PongFrame(payload)
  {
    hide Encode;
    assert 0x80 | PONG == 0x8A;
  }

  /** What the first frame decides, by the opcodes of section 5.2 of RFC 6455. */
  lemma FirstFrameDecides(s: seq<byte>, partial: Option<seq<byte>>)
    requires ReadFrame(s).Frame?
    ensures var f, o := ReadFrame(s), ReadData(s, partial);
      match f.opcode as nat
      case 0 =>
        if partial.None? then o == Broken(UnexpectedContinuation, [])
        else if |partial.value + f.payload| > 1048576 then o == Broken(MessageTooLarge, [])
        else if f.fin then o == Message(partial.value + f.payload, f.rest, [])
        else o == ReadData(f.rest, Some(partial.value + f.payload))
      case 1 | 2 =>
        if partial.Some? then o == Broken(NestedMessage, [])
        else if f.fin then o == Message(f.payload, f.rest, [])
        else o == ReadData(f.rest, Some(f.payload))
      case 8 => o == Broken(Closed, [])
      case 9 => o == Answering(f.payload, ReadData(f.rest, partial))
      case 10 => o == ReadData(f.rest, partial)
      case _ => o == Broken(UnsupportedOpcode, [])
  {
    ReadDataUnfolds(s, partial);
    hide ReadFrame;
  }

  lemma ReadDataUnfolds(s: seq<byte>, partial: Option<seq<byte>>)
    ensures ReadFrame(s).Failed? ==> ReadData(s, partial) == Broken(ReadFrame(s).error, [])
    ensures ReadFrame(s).Frame? ==>
      var f := ReadFrame(s);
      ReadData(s, partial) == Deliver(partial, f.fin, f.opcode, f.payload, f.rest, |s|)
  {
    hide ReadFrame;
  }

  // --------------------------------------------------------------------------- reassembly

  function Opcode(f: Client): byte {
    f.first % 16
  }

  predicate Final(f: Client) {
    f.first >= 0x80
  }

  predicate IsData(f: Client) {
    Opcode(f) == 1 || Opcode(f) == 2 || Opcode(f) == 0
  }

  /**
   * Sections 5.4 and 5.5 of RFC 6455: the frames of one message, with pings and pongs anywhere between them. open
   * tells whether the message has begun; the last frame, and only it, is a final data frame.
   */
  ghost predicate Legal(frames: seq<Client>, open: bool)
    decreases |frames|
  {
    && frames != [] && Acceptable(frames[0])
    && if Opcode(frames[0]) == 9 || Opcode(frames[0]) == 10 then
         Legal(frames[1..], open)
       else
         && IsData(frames[0]) && (open <==> Opcode(frames[0]) == 0)
         && if Final(frames[0]) then |frames| == 1 else Legal(frames[1..], true)
  }

  function Wire(frames: seq<Client>): seq<byte> {
    if frames == [] then [] else ClientBytes(frames[0]) + Wire(frames[1..])
  }

  function Content(frames: seq<Client>): seq<byte> {
    if frames == [] then [] else (if IsData(frames[0]) then frames[0].payload else []) + Content(frames[1..])
  }

  function Pings(frames: seq<Client>): seq<seq<byte>> {
    if frames == [] then [] else (if Opcode(frames[0]) == 9 then [frames[0].payload] else []) + Pings(frames[1..])
  }

  function SoFar(partial: Option<seq<byte>>): seq<byte> {
    if partial.Some? then partial.value else []
  }

  lemma WireFirst(frames: seq<Client>, tail: seq<byte>)
    requires frames != [] && Acceptable(frames[0])
    ensures ReadFrame(Wire(frames) + tail) == Frame(Final(frames[0]), Opcode(frames[0]), frames[0].payload, Wire(frames[1..]) + tail)
  {
    hide ClientBytes, Acceptable, ReadFrame;
    ReadClientFrame(frames[0], Wire(frames[1..]) + tail);
    ConcatAssociates(ClientBytes(frames[0]), Wire(frames[1..]), tail);
  }

  /**
   * However a message is fragmented, and wherever pings and pongs fall between the fragments, exactly that message
   * comes out, what follows it stays unread, and the pongs are the pings' payloads in order.
   */
  lemma {:induction false} Reassembly(frames: seq<Client>, partial: Option<seq<byte>>, tail: seq<byte>)
    requires Legal(frames, partial.Some?) && |SoFar(partial)| + |Content(frames)| <= 1048576
    ensures ReadData(Wire(frames) + tail, partial) == Message(SoFar(partial) + Content(frames), tail, Pings(frames))
    decreases |frames|
  {
    hide ReadFrame, Wire, Acceptable, ReadData;
    var f, later := frames[0], frames[1..];
    var s := Wire(frames) + tail;
    WireFirst(frames, tail);
    ReadDataUnfolds(s, partial);
    if IsData(f) {
      ConcatAssociates(SoFar(partial), f.payload, Content(later));
      if Final(f) {
        assert later == [] && Content(later) == [] && Pings(later) == [];
        WireNothing(tail);
      } else {
        assert SoFar(None) + f.payload == f.payload;
        Reassembly(later, Some(SoFar(partial) + f.payload), tail);
      }
    } else {
      Reassembly(later, partial, tail);
    }
  }

  lemma WireNothing(tail: seq<byte>)
    ensures Wire([]) + tail == tail
  {
  }

  ghost predicate Arises(s: seq<byte>, partial: Option<seq<byte>>, o: Outcome)
    requires o.Message?
  {
    exists frames: seq<Client> :: CarriedBy(frames, s, partial, o)
  }

  ghost predicate CarriedBy(frames: seq<Client>, s: seq<byte>, partial: Option<seq<byte>>, o: Outcome)
    requires o.Message?
  {
    && Legal(frames, partial.Some?) && s == Wire(frames) + o.rest
    && o.bytes == SoFar(partial) + Content(frames) && o.pongs == Pings(frames)
    && |SoFar(partial)| + |Content(frames)| <= 1048576
  }

  /** Conversely, every message that comes out was sent as the frames of a legal message. */
  lemma {:induction false} MessagesAreLegal(s: seq<byte>, partial: Option<seq<byte>>)
    requires ReadData(s, partial).Message? && |SoFar(partial)| <= 1048576
    ensures Arises(s, partial, ReadData(s, partial))
    decreases |s|
  {
    hide ReadFrame, ReadData, CarriedBy;
    ReadDataUnfolds(s, partial);
    FrameIsClient(s);
    ControlIsShort(s);
    var f, r, o := ClientOf(s), ReadFrame(s), ReadData(s, partial);
    if IsData(f) && Final(f) {
      LastFrame(f, s, partial, o);
    } else {
      var next := if IsData(f) then Some(SoFar(partial) + f.payload) else partial;
      assert SoFar(None) + f.payload == f.payload;
      var o' := ReadData(r.rest, next);
      MessagesAreLegal(r.rest, next);
      var frames: seq<Client> :| CarriedBy(frames, r.rest, next, o');
      OneMoreFrame(f, frames, s, r.rest, partial, next, o, o');
    }
  }

  lemma LastFrame(f: Client, s: seq<byte>, partial: Option<seq<byte>>, o: Outcome)
    requires Acceptable(f) && IsData(f) && Final(f) && (partial.Some? <==> Opcode(f) == 0) && o.Message?
    requires s == ClientBytes(f) + o.rest && o.bytes == SoFar(partial) + f.payload && o.pongs == [] && |o.bytes| <= 1048576
    ensures CarriedBy([f], s, partial, o)
  {
    hide ClientBytes, Acceptable;
    assert [f][1..] == [] && Wire([]) == [] && Content([]) == [] && Pings([]) == [];
    assert ClientBytes(f) + [] == ClientBytes(f) && f.payload + [] == f.payload;
    assert Wire([f]) == ClientBytes(f) && Content([f]) == f.payload && Pings([f]) == [];
  }

  lemma OneMoreFrame(f: Client, frames: seq<Client>, s: seq<byte>, rest: seq<byte>, partial: Option<seq<byte>>,
          next: Option<seq<byte>>, o: Outcome, o': Outcome)
    requires o.Message? && o'.Message? && CarriedBy(frames, rest, next, o')
    requires Acceptable(f) && s == ClientBytes(f) + rest
    requires o.rest == o'.rest && o.bytes == o'.bytes
    requires
      if IsData(f) then
        && !Final(f) && (partial.Some? <==> Opcode(f) == 0)
        && next == Some(SoFar(partial) + f.payload) && o.pongs == o'.pongs
      else
        && (Opcode(f) == 9 || Opcode(f) == 10) && next == partial
        && o.pongs == (if Opcode(f) == 9 then [f.payload] else []) + o'.pongs
    ensures CarriedBy([f] + frames, s, partial, o)
  {
    hide ClientBytes, Acceptable;
    var all := [f] + frames;
    assert all[1..] == frames;
    ConcatAssociates(ClientBytes(f), Wire(frames), o.rest);
    ConcatAssociates(SoFar(partial), f.payload, Content(frames));
  }

  /** No input whatever yields a message of more than 1 MiB, or a pong of more than 125 bytes. */
  lemma {:induction false} MessagesAreBounded(s: seq<byte>, partial: Option<seq<byte>>)
    requires |SoFar(partial)| <= 1048576
    ensures ReadData(s, partial).Message? ==> |ReadData(s, partial).bytes| <= 1048576
    ensures forall p :: p in ReadData(s, partial).pongs ==> |p| <= 125
    decreases |s|
  {
    hide ReadFrame, ReadData;
    ReadDataUnfolds(s, partial);
    var r := ReadFrame(s);
    if r.Frame? {
      ControlIsShort(s);
      MessagesAreBounded(r.rest, partial);
      if r.opcode == 0 && partial.Some? && |partial.value| + |r.payload| <= 1048576 {
        MessagesAreBounded(r.rest, Some(partial.value + r.payload));
      } else {
        MessagesAreBounded(r.rest, Some(r.payload));
      }
    }
  }
}
