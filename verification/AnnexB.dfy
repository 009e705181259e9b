/** Splitting an H.264 byte stream (Annex B of ITU-T H.264) into NAL units, chunk by chunk. */
module AnnexB {
  import opened Bytes
  import opened Collections

  const MAX_CARRY := 4 * 1024 * 1024

  // --------------------------------------------------------------------------- start codes

  predicate Code3(s: seq<byte>, i: nat) {
    i + 3 <= |s| && s[i] == 0 && s[i + 1] == 0 && s[i + 2] == 1
  }

  predicate Code4(s: seq<byte>, i: nat) {
    i + 4 <= |s| && s[i] == 0 && s[i + 1] == 0 && s[i + 2] == 0 && s[i + 3] == 1
  }

  predicate IsCode(s: seq<byte>, i: nat) {
    Code4(s, i) || Code3(s, i)
  }

  function StartCodeLength(s: seq<byte>, i: nat): nat {
    if Code4(s, i) then 4 else 3
  }

  /** The first start code of s at or after from. */
  function FirstCode(s: seq<byte>, from: nat): (code: Option<nat>)
    ensures code.Some? ==> from <= code.value && IsCode(s, code.value) && NoCodeIn(s, from, code.value)
    ensures code.None? ==> NoCodeIn(s, from, |s|)
    decreases |s| - from
  {
    if from + 2 >= |s| then None else if IsCode(s, from) then Some(from) else FirstCode(s, from + 1)
  }

  ghost predicate NoCodeIn(s: seq<byte>, from: nat, to: nat) {
    forall i :: from <= i < to ==> !IsCode(s, i)
  }

  /** What stands at i begins with a start code. */
  predicate Begins(s: seq<byte>, i: nat) {
    i <= |s| && ([0, 0, 1] <= s[i..] || [0, 0, 0, 1] <= s[i..])
  }

  lemma BeginsIsCode(s: seq<byte>, i: nat)
    ensures Begins(s, i) <==> IsCode(s, i)
  {
    if i <= |s| {
      var t := s[i..];
      assert [0, 0, 1] <= t <==> |t| >= 3 && t[0] == 0 && t[1] == 0 && t[2] == 1;
      assert [0, 0, 0, 1] <= t <==> |t| >= 4 && t[0] == 0 && t[1] == 0 && t[2] == 0 && t[3] == 1;
    }
  }

  method FindStartCode(s: seq<byte>, from: nat) returns (code: Option<nat>)
    ensures code == FirstCode(s, from)
    ensures code.Some? ==> from <= code.value && Begins(s, code.value) && forall i :: from <= i < code.value ==> !Begins(s, i)
    ensures code.None? ==> forall i :: from <= i ==> !Begins(s, i)
  {
    forall i: nat ensures Begins(s, i) <==> IsCode(s, i) {
      BeginsIsCode(s, i);
    }
    hide Begins;
    var i := from;
    while i + 2 < |s|
      invariant from <= i && FirstCode(s, i) == FirstCode(s, from)
      decreases |s| - i
    {
      if i + 3 < |s| && s[i] == 0 && s[i + 1] == 0 && s[i + 2] == 0 && s[i + 3] == 1 {
        return Some(i);
      }
      if s[i] == 0 && s[i + 1] == 0 && s[i + 2] == 1 {
        return Some(i);
      }
      i := i + 1;
    }
    return None;
  }

  // --------------------------------------------------------------------------- one call

  /** Where a unit begins, and where it ends. */
  datatype Span = Span(start: nat, end: nat)

  /** The units to emit, and where the bytes to carry over begin. */
  datatype Cut = Cut(spans: seq<Span>, rest: nat)

  function SplitFrom(s: seq<byte>, from: nat): Cut
    decreases |s| - from
  {
    match FirstCode(s, from)
    case None => Cut([], 0)
    case Some(code) =>
      var start := code + StartCodeLength(s, code);
      match FirstCode(s, start)
      case None => Cut([], start)
      case Some(next) =>
        var later := SplitFrom(s, next);
        Cut([Span(start, next)] + later.spans, later.rest)
  }

  function Split(s: seq<byte>): Cut {
    SplitFrom(s, 0)
  }

  function Unit(s: seq<byte>, span: Span): seq<byte> {
    if span.start <= span.end <= |s| then s[span.start..span.end] else []
  }

  function Units(s: seq<byte>, spans: seq<Span>): (units: seq<seq<byte>>)
    ensures |units| == |spans|
    ensures forall k :: 0 <= k < |spans| ==> units[k] == Unit(s, spans[k])
  {
    if spans == [] then [] else [Unit(s, spans[0])] + Units(s, spans[1..])
  }

  /** A span that lies between two start codes of s, with none inside. */
  ghost predicate Delimited(s: seq<byte>, span: Span) {
    && 3 <= span.start <= span.end
    && Code3(s, span.start - 3) && IsCode(s, span.end) && NoCodeIn(s, span.start, span.end)
  }

  /** Spans that follow one another without overlap, all between from and to. */
  ghost predicate InOrder(spans: seq<Span>, from: nat, to: nat) {
    && (forall k :: 0 <= k < |spans| ==> from <= spans[k].start && spans[k].end + 3 <= to)
    && (forall j, k :: 0 <= j < k < |spans| ==> spans[j].end + 3 <= spans[k].start)
  }

  ghost predicate AllDelimited(s: seq<byte>, spans: seq<Span>) {
    forall k :: 0 <= k < |spans| ==> Delimited(s, spans[k])
  }

  lemma {:induction false} SplitFromIsSound(s: seq<byte>, code: nat)
    requires FirstCode(s, code) == Some(code)
    ensures var c := SplitFrom(s, code);
      && AllDelimited(s, c.spans) && InOrder(c.spans, code + 3, c.rest)
      && code + 3 <= c.rest <= |s| && NoCodeIn(s, c.rest, |s|)
    decreases |s| - code
  {
    hide NoCodeIn, IsCode, FirstCode, AllDelimited, InOrder;
    CodeInside(s, code);
    var start := code + StartCodeLength(s, code);
    match FirstCode(s, start) {
      case None =>
        assert AllDelimited(s, []) && InOrder([], code + 3, start) by { NothingDelimited(s, code + 3, start); }
      case Some(next) =>
        CodeInside(s, next);
        SplitFromIsSound(s, next);
        var later := SplitFrom(s, next);
        FirstDelimited(s, Span(start, next), later.spans, code + 3, later.rest);
    }
  }

  lemma NothingDelimited(s: seq<byte>, from: nat, to: nat)
    ensures AllDelimited(s, []) && InOrder([], from, to)
  {
  }

  lemma FirstDelimited(s: seq<byte>, span: Span, later: seq<Span>, from: nat, to: nat)
    requires 3 <= from <= span.start <= span.end && span.end + 3 <= to
    requires Delimited(s, span) && AllDelimited(s, later) && InOrder(later, span.end + 3, to)
    ensures AllDelimited(s, [span] + later) && InOrder([span] + later, from, to)
  {
    hide Delimited;
  }

  lemma CodeInside(s: seq<byte>, i: nat)
    requires IsCode(s, i)
    ensures i + StartCodeLength(s, i) <= |s| && FirstCode(s, i) == Some(i)
    ensures Code3(s, i + StartCodeLength(s, i) - 3)
  {
  }

  /** Where the carried bytes begin, once they are cut down to MAX_CARRY. */
  function CarryFrom(s: seq<byte>): (i: nat)
    ensures Split(s).rest <= i <= |s| <= i + MAX_CARRY
    ensures s[i..] == Last(s[Split(s).rest..], MAX_CARRY)
  {
    SplitIsSound(s);
    if |s| - Split(s).rest > MAX_CARRY then |s| - MAX_CARRY else Split(s).rest
  }

  lemma SplitIsSound(s: seq<byte>)
    ensures AllDelimited(s, Split(s).spans) && InOrder(Split(s).spans, 0, Split(s).rest)
    ensures Split(s).rest <= |s| && NoCodeIn(s, Split(s).rest, |s|)
  {
    match FirstCode(s, 0) {
      case None =>
      case Some(code) =>
        CodeInside(s, code);
        SplitFromIsSound(s, code);
        assert SplitFrom(s, 0) == SplitFrom(s, code);
        hide FirstCode, IsCode, AllDelimited, NoCodeIn, SplitFrom;
    }
  }

  /** One turn of the loop. */
  lemma SplitNext(s: seq<byte>, from: nat)
    ensures FirstCode(s, from).None? ==> SplitFrom(s, from) == Cut([], 0)
    ensures FirstCode(s, from).Some? ==>
      var code := FirstCode(s, from).value;
      var start := code + StartCodeLength(s, code);
      match FirstCode(s, start)
      case None => SplitFrom(s, from) == Cut([], start)
      case Some(next) => SplitFrom(s, from) == Cut([Span(start, next)] + SplitFrom(s, next).spans, SplitFrom(s, next).rest)
  {
    hide FirstCode, StartCodeLength;
  }

  class Splitter {
    var carry: seq<byte>

    constructor ()
      ensures carry == []
    {
      carry := [];
    }

    method ParseNALUnits(data: seq<byte>) returns (nals: seq<seq<byte>>)
      modifies this
      ensures var s := old(carry) + data;
        nals == Units(s, Split(s).spans) && carry == s[CarryFrom(s)..]
    {
      hide *;
      var s := carry + data;
      ghost var spans: seq<Span> := [];
      nals := [];
      var i := 0;
      NothingParsed(s);
      while true
        invariant i <= |s| && Parsed(s, i, spans, nals)
        decreases |s| - i
      {
        var code := FindStartCode(s, i);
        if code.None? {
          AllParsed(s, i, spans, nals);
          carry := Last(s, MAX_CARRY);
          break;
        }
        CodeFound(s, i);
        var start := code.value + StartCodeLength(s, code.value);
        var next := FindStartCode(s, start);
        if next.None? {
          AllParsed(s, i, spans, nals);
          carry := Last(s[start..], MAX_CARRY);
          break;
        }
        OneMoreParsed(s, i, spans, nals);
        spans := spans + [Span(start, next.value)];
        nals := nals + [s[start..next.value]];
        i := next.value;
      }
    }
  }

  /** The units so far, when the rest of s is to be split from i on. */
  ghost predicate Parsed(s: seq<byte>, i: nat, spans: seq<Span>, nals: seq<seq<byte>>) {
    && nals == Units(s, spans) && (i == 0 || FirstCode(s, i) == Some(i))
    && Split(s) == Cut(spans + SplitFrom(s, i).spans, SplitFrom(s, i).rest)
  }

  lemma NothingParsed(s: seq<byte>)
    ensures Parsed(s, 0, [], [])
  {
    hide SplitFrom;
    assert [] + SplitFrom(s, 0).spans == SplitFrom(s, 0).spans;
  }

  lemma CodeFound(s: seq<byte>, i: nat)
    requires FirstCode(s, i).Some?
    ensures var code := FirstCode(s, i).value;
      i <= code && code + StartCodeLength(s, code) <= |s| && FirstCode(s, code) == Some(code)
  {
    CodeInside(s, FirstCode(s, i).value);
  }

  lemma AllParsed(s: seq<byte>, i: nat, spans: seq<Span>, nals: seq<seq<byte>>)
    requires i <= |s| && Parsed(s, i, spans, nals)
    requires FirstCode(s, i).Some? ==>
      var code := FirstCode(s, i).value;
      code + StartCodeLength(s, code) <= |s| && FirstCode(s, code + StartCodeLength(s, code)).None?
    ensures nals == Units(s, Split(s).spans)
    ensures FirstCode(s, i).None? ==> s[CarryFrom(s)..] == Last(s, MAX_CARRY)
    ensures FirstCode(s, i).Some? ==>
      var code := FirstCode(s, i).value;
      s[CarryFrom(s)..] == Last(s[code + StartCodeLength(s, code)..], MAX_CARRY)
  {
    hide FirstCode, StartCodeLength, Units, SplitFrom, CarryFrom, Last;
    SplitNext(s, i);
    assert spans + [] == spans;
    assert s[0..] == s;
  }

  lemma OneMoreParsed(s: seq<byte>, i: nat, spans: seq<Span>, nals: seq<seq<byte>>)
    requires i <= |s| && Parsed(s, i, spans, nals) && FirstCode(s, i).Some?
    requires var code := FirstCode(s, i).value;
      FirstCode(s, code + StartCodeLength(s, code)).Some?
    ensures var code := FirstCode(s, i).value;
      var start := code + StartCodeLength(s, code);
      var next := FirstCode(s, start).value;
      && i < next <= |s| && start <= next
      && Parsed(s, next, spans + [Span(start, next)], nals + [s[start..next]])
  {
    var code := FirstCode(s, i).value;
    var start := code + StartCodeLength(s, code);
    var next := FirstCode(s, start).value;
    CodeInside(s, code);
    CodeInside(s, next);
    hide IsCode, FirstCode, Units, SplitFrom, NoCodeIn;
    SplitNext(s, i);
    OneMoreUnit(s, spans, Span(start, next));
    ConcatAssociates(spans, [Span(start, next)], SplitFrom(s, next).spans);
  }

  lemma NoUnits(s: seq<byte>)
    ensures Units(s, []) == []
  {
  }

  lemma OneMoreUnit(s: seq<byte>, spans: seq<Span>, span: Span)
    requires span.start <= span.end <= |s|
    ensures Units(s, spans + [span]) == Units(s, spans) + [s[span.start..span.end]]
  {
    UnitsConcat(s, spans, [span]);
  }

  lemma {:induction false} UnitsConcat(s: seq<byte>, p: seq<Span>, q: seq<Span>)
    ensures Units(s, p + q) == Units(s, p) + Units(s, q)
  {
    hide Unit;
    assert forall k :: 0 <= k < |p + q| ==> Units(s, p + q)[k] == (Units(s, p) + Units(s, q))[k];
  }

  // --------------------------------------------------------------------------- runs of calls

  datatype Fed = Fed(nals: seq<seq<byte>>, carry: seq<byte>)

  /** What a run of calls emits in all, and what it leaves carried. */
  function Feed(chunks: seq<seq<byte>>): Fed {
    if chunks == [] then
      Fed([], [])
    else
      var before := Feed(chunks[..|chunks| - 1]);
      var s := before.carry + chunks[|chunks| - 1];
      Fed(before.nals + Units(s, Split(s).spans), s[CarryFrom(s)..])
  }

  /** The same run, with positions in the stream of all chunks instead of bytes. */
  datatype Progress = Progress(stream: seq<byte>, spans: seq<Span>, carryStart: nat)

  function Shift(spans: seq<Span>, offset: nat): (shifted: seq<Span>)
    ensures |shifted| == |spans|
    ensures forall k :: 0 <= k < |spans| ==> shifted[k] == Span(offset + spans[k].start, offset + spans[k].end)
  {
    seq(|spans|, k requires 0 <= k < |spans| => Span(offset + spans[k].start, offset + spans[k].end))
  }

  ghost predicate Sound(p: Progress) {
    && p.carryStart <= |p.stream| <= p.carryStart + MAX_CARRY
    && AllDelimited(p.stream, p.spans) && InOrder(p.spans, 0, p.carryStart)
  }

  function Advance(p: Progress, chunk: seq<byte>): Progress
    requires p.carryStart <= |p.stream|
  {
    var stream := p.stream + chunk;
    var s := stream[p.carryStart..];
    Progress(stream, p.spans + Shift(Split(s).spans, p.carryStart), p.carryStart + CarryFrom(s))
  }

  lemma CodeShifts(stream: seq<byte>, from: nat, i: nat)
    requires from <= |stream|
    ensures IsCode(stream[from..], i) <==> IsCode(stream, from + i)
    ensures Code3(stream[from..], i) <==> Code3(stream, from + i)
  {
  }

  lemma DelimitedShifts(stream: seq<byte>, from: nat, span: Span)
    requires from <= |stream| && Delimited(stream[from..], span)
    ensures Delimited(stream, Span(from + span.start, from + span.end))
  {
    hide IsCode, Code3;
    CodeShifts(stream, from, span.start - 3);
    CodeShifts(stream, from, span.end);
    forall i | from + span.start <= i < from + span.end ensures !IsCode(stream, i) {
      CodeShifts(stream, from, i - from);
    }
  }

  lemma CodeStays(stream: seq<byte>, chunk: seq<byte>, i: nat)
    ensures i + 3 <= |stream| ==> Code3(stream + chunk, i) == Code3(stream, i)
    ensures i + 4 <= |stream| ==> IsCode(stream + chunk, i) == IsCode(stream, i)
    ensures IsCode(stream, i) ==> IsCode(stream + chunk, i) && i + 3 <= |stream|
  {
  }

  /** A delimited unit stays delimited when the stream grows. */
  lemma DelimitedGrows(stream: seq<byte>, chunk: seq<byte>, span: Span)
    requires Delimited(stream, span)
    ensures Delimited(stream + chunk, span)
  {
    CodeStays(stream, chunk, span.start - 3);
    CodeStays(stream, chunk, span.end);
    hide IsCode, Code3;
    forall i | span.start <= i < span.end ensures !IsCode(stream + chunk, i) {
      CodeStays(stream, chunk, i);
    }
  }

  lemma AllDelimitedShifts(stream: seq<byte>, from: nat, spans: seq<Span>)
    requires from <= |stream| && AllDelimited(stream[from..], spans)
    ensures AllDelimited(stream, Shift(spans, from))
  {
    hide Delimited, Shift;
    forall k | 0 <= k < |spans| ensures Delimited(stream, Shift(spans, from)[k]) {
      DelimitedShifts(stream, from, spans[k]);
    }
  }

  lemma AllDelimitedGrows(stream: seq<byte>, chunk: seq<byte>, spans: seq<Span>)
    requires AllDelimited(stream, spans)
    ensures AllDelimited(stream + chunk, spans)
  {
    hide Delimited;
    forall k | 0 <= k < |spans| ensures Delimited(stream + chunk, spans[k]) {
      DelimitedGrows(stream, chunk, spans[k]);
    }
  }

  lemma AdvanceDelimits(p: Progress, chunk: seq<byte>)
    requires Sound(p)
    ensures AllDelimited(Advance(p, chunk).stream, Advance(p, chunk).spans)
  {
    var stream := p.stream + chunk;
    var s := stream[p.carryStart..];
    SplitIsSound(s);
    AllDelimitedGrows(p.stream, chunk, p.spans);
    AllDelimitedShifts(stream, p.carryStart, Split(s).spans);
    hide Delimited, Split, CarryFrom, InOrder, Shift, NoCodeIn;
  }

  lemma InOrderConcat(p: seq<Span>, q: seq<Span>, middle: nat, to: nat)
    requires InOrder(p, 0, middle) && InOrder(q, 0, to)
    ensures InOrder(p + Shift(q, middle), 0, middle + to)
  {
    hide Shift;
    var all := p + Shift(q, middle);
    assert forall k :: 0 <= k < |all| ==> all[k] == if k < |p| then p[k] else Shift(q, middle)[k - |p|];
  }

  lemma AdvanceIsSound(p: Progress, chunk: seq<byte>)
    requires Sound(p)
    ensures Sound(Advance(p, chunk))
  {
    AdvanceDelimits(p, chunk);
    var s := (p.stream + chunk)[p.carryStart..];
    SplitIsSound(s);
    InOrderConcat(p.spans, Split(s).spans, p.carryStart, Split(s).rest);
    hide AllDelimited, Shift, Split, CarryFrom;
    OrderWidens(Advance(p, chunk).spans, p.carryStart + Split(s).rest, p.carryStart + CarryFrom(s));
  }

  lemma OrderWidens(spans: seq<Span>, to: nat, wider: nat)
    requires InOrder(spans, 0, to) && to <= wider
    ensures InOrder(spans, 0, wider)
  {
  }

  function Run(chunks: seq<seq<byte>>): (p: Progress)
    ensures Sound(p)
  {
    if chunks == [] then
      Progress([], [], 0)
    else
      var before := Run(chunks[..|chunks| - 1]);
      AdvanceIsSound(before, chunks[|chunks| - 1]);
      Advance(before, chunks[|chunks| - 1])
  }

  lemma UnitsOfSuffix(stream: seq<byte>, from: nat, spans: seq<Span>)
    requires from <= |stream| && InOrder(spans, 0, |stream| - from)
    ensures Units(stream, Shift(spans, from)) == Units(stream[from..], spans)
  {
    hide Unit, Units, Shift;
    var shifted := Shift(spans, from);
    assert forall k :: 0 <= k < |spans| ==> spans[k].end <= |stream| - from;
    hide InOrder;
    forall k | 0 <= k < |spans| ensures Unit(stream, shifted[k]) == Unit(stream[from..], spans[k]) {
      UnitOfSuffix(stream, from, spans[k]);
    }
  }

  lemma UnitOfSuffix(stream: seq<byte>, from: nat, span: Span)
    requires from <= |stream| && span.end + from <= |stream|
    ensures Unit(stream, Span(from + span.start, from + span.end)) == Unit(stream[from..], span)
  {
  }

  lemma UnitsGrow(stream: seq<byte>, chunk: seq<byte>, spans: seq<Span>)
    requires InOrder(spans, 0, |stream|)
    ensures Units(stream + chunk, spans) == Units(stream, spans)
  {
    hide Unit;
    forall k | 0 <= k < |spans| ensures Units(stream + chunk, spans)[k] == Units(stream, spans)[k] {
      UnitStays(stream, chunk, spans[k]);
    }
  }

  lemma UnitStays(stream: seq<byte>, chunk: seq<byte>, span: Span)
    requires span.end <= |stream|
    ensures Unit(stream + chunk, span) == Unit(stream, span)
  {
  }

  /**
   * Over any run of calls, the emitted units are stretches of the stream, each between two start codes with none
   * inside, in order and disjoint; and what is carried is at most 4 MiB from the end of the stream.
   */
  lemma {:induction false} EmittedUnitsAreDelimited(chunks: seq<seq<byte>>)
    ensures Sound(Run(chunks)) && Run(chunks).stream == Flatten(chunks)
    ensures Feed(chunks).nals == Units(Run(chunks).stream, Run(chunks).spans)
    ensures Feed(chunks).carry == Run(chunks).stream[Run(chunks).carryStart..]
    ensures |Feed(chunks).carry| <= 4194304
  {
    hide Units, Split, CarryFrom, Shift;
    if chunks == [] {
      NoUnits([]);
    } else {
      var init, chunk := chunks[..|chunks| - 1], chunks[|chunks| - 1];
      EmittedUnitsAreDelimited(init);
      OneCall(Run(init), chunk);
    }
  }

  lemma OneCall(p: Progress, chunk: seq<byte>)
    requires Sound(p)
    ensures var s := p.stream[p.carryStart..] + chunk;
      var q := Advance(p, chunk);
      && Units(q.stream, q.spans) == Units(p.stream, p.spans) + Units(s, Split(s).spans)
      && q.carryStart <= |q.stream| && q.stream[q.carryStart..] == s[CarryFrom(s)..]
  {
    hide Units, Shift, Split, CarryFrom, AllDelimited, InOrder;
    var stream := p.stream + chunk;
    var s := stream[p.carryStart..];
    SplitIsSound(s);
    SuffixConcat(p.stream, chunk, p.carryStart);
    SuffixSuffix(stream, p.carryStart, CarryFrom(s));
    UnitsConcat(stream, p.spans, Shift(Split(s).spans, p.carryStart));
    OrderWidens(Split(s).spans, Split(s).rest, |s|);
    UnitsOfSuffix(stream, p.carryStart, Split(s).spans);
    OrderWidens(p.spans, p.carryStart, |p.stream|);
    UnitsGrow(p.stream, chunk, p.spans);
  }

  lemma SuffixConcat<T>(s: seq<T>, t: seq<T>, from: nat)
    requires from <= |s|
    ensures (s + t)[from..] == s[from..] + t
  {
  }

  lemma SuffixSuffix<T>(s: seq<T>, i: nat, j: nat)
    requires i + j <= |s|
    ensures s[i + j..] == s[i..][j..]
  {
  }

  /** In particular no emitted unit has a start code in it. */
  lemma NoCodeInUnit(s: seq<byte>, span: Span, i: nat)
    requires Delimited(s, span)
    ensures !Code3(Unit(s, span), i)
  {
    if Code3(Unit(s, span), i) {
      assert IsCode(s, span.start + i);
    }
  }
}
