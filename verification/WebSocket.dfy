/** The gateway's WebSocket codec: RFC 6455 frames from clients, reassembled into messages. */
module WebSocket {
  import opened Bytes
  import opened Collections

  const MAX_FRAME := 1048576
  const MAX_MESSAGE := 1048576
  const SMALL_FRAME := 4096
  const MAX_CONTROL := 125

  const CONTINUE: byte := 0x0
  const TEXT: byte := 0x1
  const BINARY: byte := 0x2
  const CLOSE: byte := 0x8
  const PING: byte := 0x9
  const PONG: byte := 0xA

  datatype WsError =
    | EndOfInput
    | FrameTooLarge
    | FragmentedControl
    | ControlTooLarge
    | Unmasked
    | NestedMessage
    | UnexpectedContinuation
    | MessageTooLarge
    | Closed
    | UnsupportedOpcode

  predicate TopBit(b: byte) {
    b & 0x80 != 0
  }

  function LowNibble(b: byte): byte {
    b & 0x0F
  }

  function LowSeven(b: byte): byte {
    b & 0x7F
  }

  // --------------------------------------------------------------------------- masking

  type Mask = m: seq<byte> | |m| == 4 witness [0, 0, 0, 0]

  function Xor(a: byte, b: byte): byte {
    a ^ b
  }

  /** Section 5.3 of RFC 6455: byte i is combined with byte i mod 4 of the mask. */
  function Masked(s: seq<byte>, mask: Mask): (t: seq<byte>)
    ensures |t| == |s|
    ensures forall i :: 0 <= i < |s| ==> t[i] == Xor(s[i], mask[i % 4])
  {
    seq(|s|, i requires 0 <= i < |s| => Xor(s[i], mask[i % 4]))
  }

  lemma XorTwice(a: byte, b: byte)
    ensures Xor(Xor(a, b), b) == a
  {
  }

  lemma MaskedTwice(s: seq<byte>, mask: Mask)
    ensures Masked(Masked(s, mask), mask) == s
  {
    hide Xor;
    var t := Masked(s, mask);
    forall i | 0 <= i < |s| ensures Masked(t, mask)[i] == s[i] {
      XorTwice(s[i], mask[i % 4]);
    }
  }

  function Word(b0: byte, b1: byte, b2: byte, b3: byte): bv32 {
    (b0 as bv32) | ((b1 as bv32) << 8) | ((b2 as bv32) << 16) | ((b3 as bv32) << 24)
  }

  function XorWords(v: bv32, w: bv32): bv32 {
    v ^ w
  }

  function ByteOf(w: bv32, k: nat): byte
    requires k < 4
  {
    match k
    case 0 => (w & 0xFF) as byte
    case 1 => ((w >> 8) & 0xFF) as byte
    case 2 => ((w >> 16) & 0xFF) as byte
    case _ => ((w >> 24) & 0xFF) as byte
  }

  lemma WordXor(b0: byte, b1: byte, b2: byte, b3: byte, m0: byte, m1: byte, m2: byte, m3: byte)
    ensures XorWords(Word(b0, b1, b2, b3), Word(m0, m1, m2, m3)) == Word(Xor(b0, m0), Xor(b1, m1), Xor(b2, m2), Xor(b3, m3))
  {
  }

  lemma ByteOfWord(b0: byte, b1: byte, b2: byte, b3: byte)
    ensures var w := Word(b0, b1, b2, b3);
      ByteOf(w, 0) == b0 && ByteOf(w, 1) == b1 && ByteOf(w, 2) == b2 && ByteOf(w, 3) == b3
  {
  }

  lemma UnmaskedBytes(b0: byte, b1: byte, b2: byte, b3: byte, mask: Mask)
    ensures var v := XorWords(Word(b0, b1, b2, b3), Word(mask[0], mask[1], mask[2], mask[3]));
      && ByteOf(v, 0) == Xor(b0, mask[0]) && ByteOf(v, 1) == Xor(b1, mask[1])
      && ByteOf(v, 2) == Xor(b2, mask[2]) && ByteOf(v, 3) == Xor(b3, mask[3])
  {
    hide Word, ByteOf, Xor, XorWords;
    WordXor(b0, b1, b2, b3, mask[0], mask[1], mask[2], mask[3]);
    ByteOfWord(Xor(b0, mask[0]), Xor(b1, mask[1]), Xor(b2, mask[2]), Xor(b3, mask[3]));
  }

  method UnmaskWord(payload: array<byte>, i: nat, mask: Mask)
    requires i + 4 <= payload.Length
    modifies payload
    ensures forall k :: 0 <= k < payload.Length ==>
      payload[k] == if i <= k < i + 4 then Xor(old(payload[k]), mask[k - i]) else old(payload[k])
  {
    hide Word, ByteOf, Xor;
    var w := Word(mask[0], mask[1], mask[2], mask[3]);
    var b0, b1, b2, b3 := payload[i], payload[i + 1], payload[i + 2], payload[i + 3];
    var v := XorWords(Word(b0, b1, b2, b3), w);
    UnmaskedBytes(b0, b1, b2, b3, mask);
    payload[i], payload[i + 1], payload[i + 2], payload[i + 3] := ByteOf(v, 0), ByteOf(v, 1), ByteOf(v, 2), ByteOf(v, 3);
  }

  /** What is unmasked up to i, and untouched from there. */
  ghost predicate UnmaskedTo(now: seq<byte>, before: seq<byte>, i: nat, mask: Mask) {
    && |now| == |before|
    && (forall k :: 0 <= k < i && k < |now| ==> now[k] == Xor(before[k], mask[k % 4]))
    && (forall k :: i <= k < |now| ==> now[k] == before[k])
  }

  lemma UnmaskedWord(now: seq<byte>, next: seq<byte>, before: seq<byte>, i: nat, mask: Mask)
    requires UnmaskedTo(now, before, i, mask) && i % 4 == 0 && |next| == |now|
    requires forall k :: 0 <= k < |now| ==> next[k] == if i <= k < i + 4 then Xor(now[k], mask[k - i]) else now[k]
    ensures UnmaskedTo(next, before, i + 4, mask)
  {
    hide Xor;
    forall k | i <= k < i + 4 ensures k % 4 == k - i {
    }
  }

  /** Four bytes of the payload at a time, as little-endian words, and then the bytes that are left. */
  method Unmask(payload: array<byte>, n: nat, mask: Mask)
    requires n <= payload.Length
    modifies payload
    ensures payload[..n] == Masked(old(payload[..n]), mask)
    ensures payload[n..] == old(payload[n..])
  {
    ghost var before := payload[..];
    var i := 0;
    while i + 4 <= n
      invariant i <= n && i % 4 == 0 && UnmaskedTo(payload[..], before, i, mask)
    {
      ghost var now := payload[..];
      hide UnmaskedTo;
      UnmaskWord(payload, i, mask);
      UnmaskedWord(now, payload[..], before, i, mask);
      i := i + 4;
    }
    while i < n
      invariant i <= n && UnmaskedTo(payload[..], before, i, mask)
    {
      payload[i] := Xor(payload[i], mask[i % 4]);
      i := i + 1;
    }
  }

  // --------------------------------------------------------------------------- reading one frame

  /** The fixed part of a frame, section 5.2 of RFC 6455, and what follows it. */
  datatype Head = Head(fin: bool, opcode: byte, masked: bool, size: nat, rest: seq<byte>) | NoHead

  datatype Read =
    | Frame(fin: bool, opcode: byte, payload: seq<byte>, rest: seq<byte>)
    | Failed(error: WsError)

  /** How many bytes of extended length follow the second byte. */
  function Extended(second: byte): nat {
    ExtendedBy(LowSeven(second))
  }

  function ExtendedBy(low: byte): nat {
    if low == 126 then 2 else if low == 127 then 8 else 0
  }

  function ReadHead(s: seq<byte>): Head {
    if |s| < 2 || |s| < 2 + Extended(s[1]) then
      NoHead
    else
      var ext := Extended(s[1]);
      Head(TopBit(s[0]), LowNibble(s[0]), TopBit(s[1]), if ext == 0 then LowSeven(s[1]) as nat else Decode(s[2..2 + ext]), s[2 + ext..])
  }

  /** Why a frame with this head is refused. */
  function Refusal(h: Head): Option<WsError>
    requires h.Head?
  {
    if h.size > MAX_FRAME then Some(FrameTooLarge)
    else if h.opcode >= CLOSE && !h.fin then Some(FragmentedControl)
    else if h.opcode >= CLOSE && h.size > MAX_CONTROL then Some(ControlTooLarge)
    else if !h.masked then Some(Unmasked)
    else None
  }

  function ReadFrame(s: seq<byte>): (r: Read)
    ensures r.Frame? ==> |r.rest| < |s|
  {
    var h := ReadHead(s);
    if h.NoHead? then
      Failed(EndOfInput)
    else if Refusal(h).Some? then
      Failed(Refusal(h).value)
    else if |h.rest| < 4 + h.size then
      Failed(EndOfInput)
    else
      Frame(h.fin, h.opcode, Masked(h.rest[4..4 + h.size], h.rest[..4]), h.rest[4 + h.size..])
  }

  // --------------------------------------------------------------------------- what clients send

  /** A frame as a client encodes it; form is the number of extended length bytes it chooses to use. */
  datatype Client = Client(first: byte, form: nat, mask: Mask, payload: seq<byte>)

  function Second(f: Client): byte {
    0x80 + Low(f.form, |f.payload|)
  }

  /** The seven bits of the second byte that tell the length or the form. */
  function Low(form: nat, n: nat): byte {
    if form == 2 then 126 else if form == 8 then 127 else if n < 126 then n as byte else 0
  }

  function ClientBytes(f: Client): seq<byte> {
    [f.first, Second(f)] + Encode(|f.payload|, f.form) + f.mask + Masked(f.payload, f.mask)
  }

  /** A frame that the gateway has to accept. */
  predicate Acceptable(f: Client) {
    && ((f.form == 0 && |f.payload| < 126) || (f.form == 2 && |f.payload| < 65536) || f.form == 8)
    && |f.payload| <= 1048576
    && (f.first % 16 >= 8 ==> f.first >= 0x80 && |f.payload| <= 125)
  }

  /** The bits of a byte as numbers. */
  lemma BitsAre(b: byte)
    ensures TopBit(b) <==> b >= 0x80
    ensures LowNibble(b) == b % 16 && LowSeven(b) == b % 128
  {
  }

  lemma LowIs(form: nat, n: nat)
    requires (form == 0 && n < 126) || form == 2 || form == 8
    ensures Low(form, n) <= 127 && ExtendedBy(Low(form, n)) == form
    ensures form == 0 ==> Low(form, n) as nat == n
  {
    if form == 0 {
      var b := ByteWith(n);
      assert b as nat as byte == b;
    }
  }

  lemma LowIsShort(low: byte)
    requires low <= 127 && ExtendedBy(low) == 0
    ensures low as nat < 126
  {
  }

  lemma SmallBits(n: byte)
    requires n < 126
    ensures !TopBit(n) && LowSeven(n) == n && n != 126 && n != 127
  {
  }

  lemma HighBit(low: byte)
    requires low <= 127
    ensures TopBit(0x80 + low) && LowSeven(0x80 + low) == low
  {
  }

  lemma SecondByte(f: Client)
    requires Acceptable(f)
    ensures TopBit(Second(f)) && Extended(Second(f)) == f.form
    ensures f.form == 0 ==> LowSeven(Second(f)) as nat == |f.payload|
  {
    LowIs(f.form, |f.payload|);
    HighBit(Low(f.form, |f.payload|));
    hide Low, ExtendedBy, TopBit, LowSeven;
  }

  lemma PowersOf256()
    ensures Pow256(0) == 1 && Pow256(2) == 65536 && Pow256(8) > MAX_FRAME
  {
    assert Pow256(4) == Pow256(2) * Pow256(2);
    assert Pow256(8) == Pow256(4) * Pow256(4);
  }

  lemma HeadPieces(first: byte, second: byte, ext: seq<byte>, rest: seq<byte>)
    ensures var s := [first, second] + ext + rest;
      |s| == 2 + |ext| + |rest| && s[0] == first && s[1] == second && s[2..2 + |ext|] == ext && s[2 + |ext|..] == rest
  {
  }

  lemma ReadClientHead(f: Client, rest: seq<byte>)
    requires Acceptable(f)
    ensures ReadHead([f.first, Second(f)] + Encode(|f.payload|, f.form) + rest)
         == Head(f.first >= 0x80, f.first % 16, true, |f.payload|, rest)
  {
    PowersOf256();
    BitsAre(f.first);
    SecondByte(f);
    if f.form != 0 {
      DecodeEncode(|f.payload|, f.form);
    }
    hide Encode, Decode, Pow256, Second, Extended, TopBit, LowSeven, LowNibble;
    HeadPieces(f.first, Second(f), Encode(|f.payload|, f.form), rest);
  }

  /** Whatever length form the client uses, the gateway reads its frame back and consumes exactly its bytes. */
  lemma ReadClientFrame(f: Client, tail: seq<byte>)
    requires Acceptable(f)
    ensures ReadFrame(ClientBytes(f) + tail) == Frame(f.first >= 0x80, f.first % 16, f.payload, tail)
  {
    hide Encode, Second, ReadHead, TopBit, LowNibble;
    var body := Masked(f.payload, f.mask);
    var start := [f.first, Second(f)] + Encode(|f.payload|, f.form);
    var rest := f.mask + (body + tail);
    Reassociate(start, f.mask, body, tail);
    ReadClientHead(f, rest);
    assert rest[..4] == f.mask && rest[4..4 + |f.payload|] == body && rest[4 + |f.payload|..] == tail;
    MaskedTwice(f.payload, f.mask);
  }

  lemma Reassociate<T>(a: seq<T>, b: seq<T>, c: seq<T>, d: seq<T>)
    ensures a + b + c + d == a + (b + (c + d))
  {
  }

  /** The frame that some bytes are the encoding of, if they are the encoding of one. */
  function ClientOf(s: seq<byte>): Client
    requires ReadFrame(s).Frame?
  {
    Client(s[0], Extended(s[1]), ReadHead(s).rest[..4], ReadFrame(s).payload)
  }

  lemma LowOf(low: byte)
    requires low <= 127
    ensures Low(ExtendedBy(low), low as nat) == low
    ensures ExtendedBy(low) != 0 ==> forall n: nat :: Low(ExtendedBy(low), n) == low
  {
  }

  lemma SevenBits(second: byte)
    ensures LowSeven(second) <= 127
    ensures TopBit(second) ==> 0x80 + LowSeven(second) == second
  {
  }

  lemma SecondOf(second: byte, f: Client)
    requires TopBit(second) && f.form == Extended(second)
    requires f.form == 0 ==> |f.payload| == LowSeven(second) as nat
    ensures Second(f) == second
  {
    SevenBits(second);
    LowOf(LowSeven(second));
    hide Low, ExtendedBy, TopBit, LowSeven;
  }

  lemma HeadIs(s: seq<byte>)
    requires ReadHead(s).Head?
    ensures var h, ext := ReadHead(s), Extended(s[1]);
      && s == [s[0], s[1]] + Encode(h.size, ext) + h.rest
      && (ext == 0 ==> h.size == LowSeven(s[1]) as nat < 126)
      && (ext == 2 ==> h.size < 65536)
  {
    hide TopBit, LowSeven, LowNibble, Encode, Decode, Pow256, ExtendedBy;
    var ext := Extended(s[1]);
    var raw := s[2..2 + ext];
    assert s == [s[0], s[1]] + raw + s[2 + ext..];
    if ext == 0 {
      SevenBits(s[1]);
      LowIsShort(LowSeven(s[1]));
      EncodeNothing(ReadHead(s).size);
    } else {
      EncodeDecode(raw);
      DecodeBound(raw);
      PowersOf256();
    }
  }

  lemma EncodeNothing(n: nat)
    ensures Encode(n, 0) == []
  {
  }

  /** Conversely, every frame the gateway takes is an acceptable client frame, followed by what is left. */
  lemma FrameIsClient(s: seq<byte>)
    requires ReadFrame(s).Frame?
    ensures var f, r := ClientOf(s), ReadFrame(s);
      && Acceptable(f) && s == ClientBytes(f) + r.rest
      && f.payload == r.payload && r.fin == (f.first >= 0x80) && r.opcode == f.first % 16
  {
    hide Encode, Second, Masked, Extended, Acceptable, ReadHead, TopBit, LowNibble, Refusal, ReadFrame;
    var h, f := ReadHead(s), ClientOf(s);
    BitsAre(s[0]);
    FrameFields(s);
    HeadIs(s);
    HeadFields(s);
    SecondOf(s[1], f);
    BodyIs(h.rest, h.size);
    ClientIsAcceptable(s);
    Reassociate([s[0], s[1]] + Encode(h.size, f.form), f.mask, h.rest[4..4 + h.size], h.rest[4 + h.size..]);
  }

  lemma FrameFields(s: seq<byte>)
    requires ReadFrame(s).Frame?
    ensures var h := ReadHead(s);
      && h.Head? && h.masked && |h.rest| >= 4 + h.size
      && ReadFrame(s) == Frame(h.fin, h.opcode, Masked(h.rest[4..4 + h.size], h.rest[..4]), h.rest[4 + h.size..])
  {
    hide ReadHead, Masked;
  }

  lemma HeadFields(s: seq<byte>)
    requires ReadHead(s).Head?
    ensures var h := ReadHead(s);
      h.fin == TopBit(s[0]) && h.opcode == LowNibble(s[0]) && h.masked == TopBit(s[1])
    ensures Extended(s[1]) == 0 || Extended(s[1]) == 2 || Extended(s[1]) == 8
  {
    hide Decode;
  }

  lemma ClientIsAcceptable(s: seq<byte>)
    requires ReadFrame(s).Frame?
    ensures Acceptable(ClientOf(s))
  {
    hide Encode, Masked, Extended, ReadHead, TopBit, LowNibble;
    BitsAre(s[0]);
    HeadIs(s);
    HeadFields(s);
  }

  lemma BodyIs(rest: seq<byte>, size: nat)
    requires 4 + size <= |rest|
    ensures var body, mask := rest[4..4 + size], rest[..4];
      rest == mask + (body + rest[4 + size..]) && Masked(Masked(body, mask), mask) == body
  {
    MaskedTwice(rest[4..4 + size], rest[..4]);
  }

  /** A control frame that gets through is whole and short. */
  lemma ControlIsShort(s: seq<byte>)
    requires ReadFrame(s).Frame?
    ensures |ReadFrame(s).payload| <= 1048576
    ensures ReadFrame(s).opcode >= 8 ==> ReadFrame(s).fin && |ReadFrame(s).payload| <= 125
  {
    FrameIsClient(s);
  }

  /** The three length forms, told from the bytes after the first two. */
  lemma HeadCases(s: seq<byte>)
    ensures |s| < 2 ==> ReadHead(s) == NoHead
    ensures |s| >= 2 ==>
      var low, t := LowSeven(s[1]), s[2..];
      var fin, opcode, masked := TopBit(s[0]), LowNibble(s[0]), TopBit(s[1]);
      && (low == 126 ==> ReadHead(s) == if |t| < 2 then NoHead else Head(fin, opcode, masked, Decode(t[..2]), t[2..]))
      && (low == 127 ==> ReadHead(s) == if |t| < 8 then NoHead else Head(fin, opcode, masked, Decode(t[..8]), t[8..]))
      && (low != 126 && low != 127 ==> ReadHead(s) == Head(fin, opcode, masked, low as nat, t))
  {
    hide Decode, TopBit, LowSeven, LowNibble;
    if |s| >= 2 && |s[2..]| >= Extended(s[1]) {
      var ext, t := Extended(s[1]), s[2..];
      assert s[2..2 + ext] == t[..ext] && s[2 + ext..] == t[ext..];
    }
  }

  /** The head byte by byte, section 5.2 of RFC 6455: extended lengths have their most significant byte first. */
  lemma HeadByBytes(s: seq<byte>)
    requires |s| >= 2
    ensures var low := s[1] % 128;
      var ext := if low == 126 then 2 else if low == 127 then 8 else 0;
      ReadHead(s) ==
        if |s| < 2 + ext then NoHead
        else Head(s[0] >= 0x80, s[0] % 16, s[1] >= 0x80,
          if ext == 0 then low as nat
          else if ext == 2 then 256 * s[2] as nat + s[3] as nat
          else
            0x100_0000_0000_0000 * s[2] as nat + 0x1_0000_0000_0000 * s[3] as nat
            + 0x100_0000_0000 * s[4] as nat + 0x1_0000_0000 * s[5] as nat
            + 0x100_0000 * s[6] as nat + 0x1_0000 * s[7] as nat + 0x100 * s[8] as nat + s[9] as nat,
          s[2 + ext..])
  {
    BitsAre(s[0]);
    BitsAre(s[1]);
    HeadCases(s);
    hide Decode, TopBit, LowSeven, LowNibble, ReadHead;
    var low, t := s[1] % 128, s[2..];
    if low == 126 && |t| >= 2 {
      DecodeTwo(t[..2]);
    } else if low == 127 && |t| >= 8 {
      DecodeEight(t[..8]);
    }
  }

  /** Which frames get through, and what of them: everything else fails, and for the reason it gives. */
  lemma FrameByBytes(s: seq<byte>)
    ensures var h, r := ReadHead(s), ReadFrame(s);
      && (r.Frame? <==>
            && h.Head? && h.masked && h.size <= 1048576 && (h.opcode >= 8 ==> h.fin && h.size <= 125)
            && |h.rest| >= 4 + h.size)
      && (r.Frame? ==>
            && r.fin == h.fin && r.opcode == h.opcode && |r.payload| == h.size && r.rest == h.rest[4 + h.size..]
            && forall i :: 0 <= i < h.size ==> r.payload[i] == h.rest[4 + i] ^ h.rest[i % 4])
      && (r.Failed? ==>
            match r.error
            case EndOfInput => h.NoHead? || |h.rest| < 4 + h.size
            case FrameTooLarge => h.Head? && h.size > 1048576
            case FragmentedControl => h.Head? && h.opcode >= 8 && !h.fin
            case ControlTooLarge => h.Head? && h.opcode >= 8 && h.size > 125
            case Unmasked => h.Head? && !h.masked
            case _ => false)
  {
    hide ReadHead;
  }

  // --------------------------------------------------------------------------- writing one frame

  /** The header of a final, unmasked frame. */
  function ServerHead(opcode: byte, n: nat): seq<byte> {
    if n < 126 then [0x80 | opcode, n as byte]
    else if n <= 0xFFFF then [0x80 | opcode, 126] + Encode(n, 2)
    else [0x80 | opcode, 127] + Encode(n, 8)
  }

  function ServerBytes(opcode: byte, payload: seq<byte>): seq<byte> {
    ServerHead(opcode, |payload|) + payload
  }

  lemma ShortHeadDecodes(opcode: byte, low: byte, rest: seq<byte>)
    requires opcode <= 0x0F && low < 126
    ensures ReadHead([0x80 | opcode, low] + rest) == Head(true, opcode, false, low as nat, rest)
  {
    OpcodeBits(opcode);
    SmallBits(low);
    hide Decode, TopBit, LowSeven, LowNibble;
    HeadPieces(0x80 | opcode, low, [], rest);
    assert [0x80 | opcode, low] + rest == [0x80 | opcode, low] + [] + rest;
    assert Extended(low) == 0;
  }

  lemma LongHeadDecodes(opcode: byte, n: nat, k: nat, rest: seq<byte>)
    requires opcode <= 0x0F && (k == 2 || k == 8) && n < Pow256(k)
    ensures ReadHead([0x80 | opcode, if k == 2 then 126 else 127] + Encode(n, k) + rest) == Head(true, opcode, false, n, rest)
  {
    OpcodeBits(opcode);
    DecodeEncode(n, k);
    assert LowSeven(126) == 126 && LowSeven(127) == 127 && !TopBit(126) && !TopBit(127);
    hide Encode, Decode, Pow256, TopBit, LowSeven, LowNibble;
    HeadPieces(0x80 | opcode, if k == 2 then 126 else 127, Encode(n, k), rest);
  }

  /** The header decodes back to the opcode and the length, whatever the payload, up to the widest length. */
  lemma ServerHeadDecodes(opcode: byte, n: nat, rest: seq<byte>)
    requires opcode <= 0x0F && n < Pow256(8)
    ensures ReadHead(ServerHead(opcode, n) + rest) == Head(true, opcode, false, n, rest)
  {
    PowersOf256();
    hide ReadHead, Encode, Pow256;
    if n < 126 {
      ByteRoundTrip(n);
      ShortHeadDecodes(opcode, n as byte, rest);
    } else {
      LongHeadDecodes(opcode, n, if n <= 0xFFFF then 2 else 8, rest);
    }
  }

  lemma OpcodeBits(opcode: byte)
    requires opcode <= 0x0F
    ensures TopBit(0x80 | opcode) && LowNibble(0x80 | opcode) == opcode
  {
  }

  /** No shorter run of bytes is a header for that length. */
  lemma ServerHeadIsMinimal(opcode: byte, s: seq<byte>)
    requires ReadHead(s).Head?
    ensures |ServerHead(opcode, ReadHead(s).size)| <= |s| - |ReadHead(s).rest|
  {
    HeadIs(s);
    hide Encode, Decode;
  }

  /** The header byte by byte: final, unmasked, and the length in the shortest form, most significant byte first. */
  lemma ServerHeadBytes(opcode: byte, n: nat)
    requires opcode <= 0x0F && n < 0x1_0000_0000_0000_0000
    ensures var h := ServerHead(opcode, n);
      && h != [] && h[0] == 0x80 + opcode
      && (n < 126 ==> |h| == 2 && h[1] as nat == n)
      && (126 <= n < 65536 ==> |h| == 4 && h[1] == 126 && n == 256 * h[2] as nat + h[3] as nat)
      && (n >= 65536 ==> |h| == 10 && h[1] == 127)
      && (n >= 65536 ==>
            n == 0x100_0000_0000_0000 * h[2] as nat + 0x1_0000_0000_0000 * h[3] as nat
            + 0x100_0000_0000 * h[4] as nat + 0x1_0000_0000 * h[5] as nat
            + 0x100_0000 * h[6] as nat + 0x1_0000 * h[7] as nat + 0x100 * h[8] as nat + h[9] as nat)
  {
    assert 0x80 | opcode == 0x80 + opcode;
    Powers();
    assert Pow256(8) == 256 * Pow256(7);
    hide Encode, Decode, Pow256;
    if n < 126 {
      ByteRoundTrip(n);
    } else if n < 65536 {
      DecodeEncode(n, 2);
      DecodeTwo(Encode(n, 2));
    } else {
      DecodeEncode(n, 8);
      DecodeEight(Encode(n, 8));
    }
  }
}
