/** What the splitter makes of well-formed streams, however reads cut them into chunks. */
module AnnexBStreams {
  import opened Bytes
  import opened Collections
  import opened AnnexB

  /** A unit behind a start code of 4 or of 3 bytes. */
  datatype Coded = Coded(long: bool, unit: seq<byte>)

  function Code(long: bool): seq<byte> {
    if long then [0, 0, 0, 1] else [0, 0, 1]
  }

  function Join(units: seq<Coded>): seq<byte> {
    if units == [] then [] else (Code(units[0].long) + units[0].unit) + Join(units[1..])
  }

  function Plain(units: seq<Coded>): (plain: seq<seq<byte>>)
    ensures |plain| == |units|
    ensures forall k :: 0 <= k < |units| ==> plain[k] == units[k].unit
  {
    if units == [] then [] else [units[0].unit] + Plain(units[1..])
  }

  /** Emulation prevention and the stop bit make every unit like this. */
  ghost predicate Clean(unit: seq<byte>) {
    CodeFree(unit) && (unit != [] ==> unit[|unit| - 1] != 0)
  }

  /** Part of a unit, or a unit and the beginning of the next start code. */
  ghost predicate CodeFree(s: seq<byte>) {
    forall i :: !Code3(s, i)
  }

  ghost predicate AllClean(units: seq<Coded>) {
    forall k :: 0 <= k < |units| ==> Clean(units[k].unit)
  }

  lemma NoCode3Inside(before: seq<byte>, unit: seq<byte>, after: seq<byte>, j: nat)
    requires Clean(unit) && j < |unit|
    ensures !Code3(before + unit + after, |before| + j)
  {
    var s := before + unit + after;
    assert s[|before| + |unit| - 1] == unit[|unit| - 1] != 0;
    assert !Code3(unit, j);
  }

  lemma NoCodeInside(before: seq<byte>, unit: seq<byte>, after: seq<byte>, j: nat)
    requires Clean(unit) && j < |unit|
    ensures !IsCode(before + unit + after, |before| + j)
  {
    NoCode3Inside(before, unit, after, j);
    if j + 1 < |unit| {
      NoCode3Inside(before, unit, after, j + 1);
    } else {
      assert (before + unit + after)[|before| + j] == unit[j] != 0;
    }
    hide Clean;
  }

  lemma {:induction false} FirstCodeIs(s: seq<byte>, from: nat, code: nat)
    requires from <= code && IsCode(s, code) && NoCodeIn(s, from, code)
    ensures FirstCode(s, from) == Some(code)
  {
    var found := FirstCode(s, from);
    assert found.Some? && found.value == code;
  }

  lemma {:induction false} NoFirstCode(s: seq<byte>, from: nat)
    requires NoCodeIn(s, from, |s|)
    ensures FirstCode(s, from).None?
  {
    CodeFits(s);
  }

  lemma CodeFits(s: seq<byte>)
    ensures forall i: nat :: IsCode(s, i) ==> i < |s|
  {
  }

  lemma CodeAt(before: seq<byte>, units: seq<Coded>)
    requires units != []
    ensures var s := before + Join(units);
      IsCode(s, |before|) && StartCodeLength(s, |before|) == |Code(units[0].long)|
  {
    var s := before + Join(units);
    var code := Code(units[0].long);
    ConcatAssociates(code, units[0].unit, Join(units[1..]));
    hide Join;
    ConcatAssociates(before, code, units[0].unit + Join(units[1..]));
    assert forall j :: 0 <= j < |code| ==> s[|before| + j] == code[j];
  }

  lemma NoCodeInRange(before: seq<byte>, unit: seq<byte>, after: seq<byte>)
    requires Clean(unit)
    ensures NoCodeIn(before + unit + after, |before|, |before| + |unit|)
  {
    hide Clean, IsCode;
    forall i | |before| <= i < |before| + |unit| ensures !IsCode(before + unit + after, i) {
      NoCodeInside(before, unit, after, i - |before|);
    }
  }

  /** From the start of a clean unit, the next start code is the one that ends it. */
  lemma CodeAfterUnit(before: seq<byte>, unit: seq<byte>, after: seq<Coded>)
    requires Clean(unit) && after != []
    ensures FirstCode(before + unit + Join(after), |before|) == Some(|before| + |unit|)
  {
    hide Clean, IsCode, FirstCode, NoCodeIn, Join, Code, StartCodeLength;
    NoCodeInRange(before, unit, Join(after));
    CodeAt(before + unit, after);
    FirstCodeIs(before + unit + Join(after), |before|, |before + unit|);
  }

  lemma NoCodeAfterUnit(before: seq<byte>, unit: seq<byte>)
    requires CodeFree(unit)
    ensures FirstCode(before + unit, |before|).None?
  {
    hide FirstCode;
    forall i | |before| <= i < |before + unit| ensures !IsCode(before + unit, i) {
      CodeFreeAt(before, unit, i - |before|);
    }
    NoFirstCode(before + unit, |before|);
  }

  lemma CodeFreeAt(before: seq<byte>, unit: seq<byte>, j: nat)
    requires CodeFree(unit)
    ensures !IsCode(before + unit, |before| + j)
  {
    assert !Code3(unit, j) && !Code3(unit, j + 1);
  }

  /** Clean units, but for the last, which may be cut short anywhere. */
  ghost predicate Cuttable(units: seq<Coded>) {
    units != [] && AllClean(units[..|units| - 1]) && CodeFree(units[|units| - 1].unit)
  }

  lemma CuttableFirst(units: seq<Coded>)
    requires Cuttable(units)
    ensures |units| == 1 ==> CodeFree(units[0].unit)
    ensures |units| > 1 ==> Clean(units[0].unit) && Cuttable(units[1..])
  {
    hide Clean, CodeFree;
    if |units| > 1 {
      assert units[..|units| - 1][0] == units[0];
      assert units[1..][..|units| - 2] == units[..|units| - 1][1..];
    }
  }

  /** The whole of a stream split from a code on: all units but the last are emitted, and the last is what is left. */
  ghost predicate SplitsInto(s: seq<byte>, from: nat, units: seq<Coded>) {
    var cut := SplitFrom(s, from);
    && units != [] && Units(s, cut.spans) == Plain(units)[..|units| - 1]
    && cut.rest <= |s| && s[cut.rest..] == units[|units| - 1].unit
  }

  lemma LastIsLeft(before: seq<byte>, last: Coded, from: nat)
    requires CodeFree(last.unit) && FirstCode(before + Join([last]), from) == Some(|before|)
    ensures SplitsInto(before + Join([last]), from, [last])
  {
    hide CodeFree, IsCode, FirstCode, Join, Code, Units, SplitFrom, StartCodeLength;
    var s, head := before + Join([last]), before + Code(last.long);
    JoinOne(last);
    ConcatAssociates(before, Code(last.long), last.unit);
    CodeAt(before, [last]);
    SplitNext(s, from);
    NoUnits(s);
    assert s[|head|..] == last.unit;
    NoCodeAfterUnit(head, last.unit);
  }

  lemma FirstIsEmitted(before: seq<byte>, units: seq<Coded>, from: nat)
    requires |units| > 1 && Clean(units[0].unit) && FirstCode(before + Join(units), from) == Some(|before|)
    ensures var s, end := before + Join(units), |before + Code(units[0].long) + units[0].unit|;
      && s == (before + Code(units[0].long) + units[0].unit) + Join(units[1..])
      && FirstCode(s, end) == Some(end)
      && (SplitsInto(s, end, units[1..]) ==> SplitsInto(s, from, units))
  {
    hide Clean, IsCode, FirstCode, Join, Code, Units, SplitFrom, StartCodeLength, Plain;
    var s, unit := before + Join(units), units[0].unit;
    var head := before + Code(units[0].long);
    var end := |head + unit|;
    JoinFirst(before, units);
    CodeAt(before, units);
    SplitNext(s, from);
    CodeAfterUnit(head, unit, units[1..]);
    CodeAt(head + unit, units[1..]);
    CodeInside(s, end);
    FirstUnit(s, head, unit, Join(units[1..]), SplitFrom(s, end).spans);
    PlainFirst(units);
  }

  lemma {:induction false} SplitIsExact(before: seq<byte>, units: seq<Coded>, from: nat)
    requires Cuttable(units) && FirstCode(before + Join(units), from) == Some(|before|)
    ensures SplitsInto(before + Join(units), from, units)
    decreases |units|
  {
    hide *;
    NotEmpty(units);
    CuttableFirst(units);
    if |units| == 1 {
      assert units == [units[0]];
      LastIsLeft(before, units[0], from);
    } else {
      var head := before + Code(units[0].long) + units[0].unit;
      FirstIsEmitted(before, units, from);
      SplitIsExact(head, units[1..], |head|);
    }
  }

  lemma NotEmpty(units: seq<Coded>)
    requires Cuttable(units)
    ensures units != []
  {
  }

  lemma PlainFirst(units: seq<Coded>)
    requires |units| > 1
    ensures Plain(units)[..|units| - 1] == [units[0].unit] + Plain(units[1..])[..|units| - 2]
  {
    var plain, later := Plain(units), Plain(units[1..]);
    assert plain == [units[0].unit] + later;
    hide Plain;
  }

  lemma FirstUnit(s: seq<byte>, head: seq<byte>, unit: seq<byte>, tail: seq<byte>, spans: seq<Span>)
    requires s == head + unit + tail
    ensures Units(s, [Span(|head|, |head| + |unit|)] + spans) == [unit] + Units(s, spans)
  {
    hide Unit;
    UnitsConcat(s, [Span(|head|, |head| + |unit|)], spans);
    UnitIs(s, head, unit, tail);
  }

  lemma UnitIs(s: seq<byte>, head: seq<byte>, unit: seq<byte>, tail: seq<byte>)
    requires s == head + unit + tail
    ensures Unit(s, Span(|head|, |head| + |unit|)) == unit
  {
  }

  lemma JoinFirst(before: seq<byte>, units: seq<Coded>)
    requires units != []
    ensures before + Join(units) == (before + Code(units[0].long)) + units[0].unit + Join(units[1..])
  {
    hide Code;
    var code, unit, rest := Code(units[0].long), units[0].unit, Join(units[1..]);
    ConcatAssociates(before, code + unit, rest);
    ConcatAssociates(before, code, unit);
  }

  lemma JoinOne(c: Coded)
    ensures Join([c]) == Code(c.long) + c.unit
  {
    hide Code;
  }

  /**
   * On units behind start codes, all clean but for a last one that may be cut short, after a clean carry, one call
   * emits all but the last, carries that, and drops the old carry.
   */
  lemma OneCallIsExact(carry: seq<byte>, units: seq<Coded>)
    requires Clean(carry) && Cuttable(units)
    ensures var s := carry + Join(units);
      && Units(s, Split(s).spans) == Plain(units)[..|units| - 1]
      && s[CarryFrom(s)..] == Last(units[|units| - 1].unit, 4194304)
  {
    hide Clean, CodeFree, Cuttable, Join, FirstCode, IsCode, Units, SplitFrom, CarryFrom, Plain;
    NotEmpty(units);
    var s := carry + Join(units);
    assert [] + carry == carry;
    CodeAfterUnit([], carry, units);
    SplitIsExact(carry, units, 0);
  }

  /** Without a start code, one call emits nothing and carries it all, cut down to the last 4 MiB. */
  lemma NothingToSplit(s: seq<byte>)
    requires CodeFree(s)
    ensures Units(s, Split(s).spans) == [] && s[CarryFrom(s)..] == Last(s, 4194304)
  {
    hide CodeFree, FirstCode, Units, CarryFrom, Last;
    assert [] + s == s && s[0..] == s;
    NoCodeAfterUnit([], s);
    NoUnits(s);
  }

  // --------------------------------------------------------------------------- positions in the stream

  /** Where the start code of unit k begins; for k == |units|, where the stream ends. */
  function Start(units: seq<Coded>, k: nat): nat
    requires k <= |units|
  {
    |Join(units[..k])|
  }

  /** Where the start code of unit k ends. */
  function End(units: seq<Coded>, k: nat): nat
    requires k < |units|
  {
    Start(units, k) + |Code(units[k].long)|
  }

  lemma {:induction false} JoinConcat(p: seq<Coded>, q: seq<Coded>)
    ensures Join(p + q) == Join(p) + Join(q)
  {
    if p == [] {
      assert p + q == q;
    } else {
      hide Code;
      JoinConcat(p[1..], q);
      assert (p + q)[1..] == p[1..] + q;
      ConcatAssociates(Code(p[0].long) + p[0].unit, Join(p[1..]), Join(q));
    }
  }

  /** The stream, taken apart at unit k. */
  lemma StreamAt(units: seq<Coded>, k: nat)
    requires k < |units|
    ensures Join(units) == Join(units[..k]) + Code(units[k].long) + units[k].unit + Join(units[k + 1..])
    ensures Start(units, k + 1) == End(units, k) + |units[k].unit|
  {
    hide Join, Code;
    JoinConcat(units[..k], [units[k]]);
    JoinOne(units[k]);
    assert units[..k + 1] == units[..k] + [units[k]];
    JoinConcat(units[..k + 1], units[k + 1..]);
    assert units == units[..k + 1] + units[k + 1..];
    ConcatAssociates(Join(units[..k]), Code(units[k].long), units[k].unit);
  }

  lemma StartIsStart(units: seq<Coded>)
    ensures Start(units, 0) == 0 && Start(units, |units|) == |Join(units)|
  {
    assert units[..|units|] == units;
  }

  lemma {:induction false} EndsIncrease(units: seq<Coded>, i: nat, j: nat)
    requires i <= j < |units|
    ensures End(units, i) <= End(units, j) <= |Join(units)|
    ensures i < j ==> End(units, i) < Start(units, j) + 3 <= End(units, j)
    decreases j
  {
    hide Join, Code;
    StreamAt(units, j);
    CodeLength(units[j].long);
    if i < j {
      EndsIncrease(units, i, j - 1);
      StreamAt(units, j - 1);
    }
  }

  lemma CodeLength(long: bool)
    ensures 3 <= |Code(long)| <= 4
  {
  }

  /** How many start codes, of the first m, are complete at position p of the stream. */
  function Complete(units: seq<Coded>, p: nat, m: nat): (k: nat)
    requires m <= |units|
    ensures k <= m && (k > 0 ==> End(units, k - 1) <= p) && forall j :: k <= j < m ==> p < End(units, j)
  {
    if m == 0 || End(units, m - 1) <= p then m else Complete(units, p, m - 1)
  }

  /** Where the stretch before the k-th start code begins: at the end of the code before it. */
  function From(units: seq<Coded>, k: nat): nat
    requires k <= |units|
  {
    if k == 0 then 0 else End(units, k - 1)
  }

  /** Position p lies after the end of code k - 1 and before the end of code k. */
  ghost predicate Reached(units: seq<Coded>, p: nat, k: nat) {
    && k <= |units| && From(units, k) <= p <= |Join(units)|
    && (k < |units| ==> p < End(units, k))
  }

  lemma ReachedOnce(units: seq<Coded>, p: nat)
    requires p <= |Join(units)|
    ensures Reached(units, p, Complete(units, p, |units|))
  {
    hide Join;
  }

  lemma ReachedLater(units: seq<Coded>, p: nat, k: nat, p': nat, k': nat)
    requires Reached(units, p, k) && Reached(units, p', k') && p <= p'
    ensures k <= k'
  {
    hide Join, Code;
    if k' < k {
      EndsIncrease(units, k', k - 1);
    }
  }

  // --------------------------------------------------------------------------- what lies between codes

  lemma SliceFree(s: seq<byte>, i: nat, j: nat)
    requires i <= j <= |s| && forall k :: i <= k && k + 3 <= j ==> !Code3(s, k)
    ensures CodeFree(s[i..j])
  {
    forall k: nat ensures !Code3(s[i..j], k) {
      assert i + k + 3 <= j ==> !Code3(s, i + k);
    }
  }

  /** Between the ends of two neighbouring codes no code is complete. */
  lemma BetweenEnds(units: seq<Coded>, k: nat, p: nat, i: nat)
    requires AllClean(units) && Reached(units, p, k) && From(units, k) <= i && i + 3 <= p
    ensures !Code3(Join(units), i)
  {
    hide Join, Code, Clean, CodeFree, Code3;
    StartIsStart(units);
    if k > 0 {
      StreamAt(units, k - 1);
      var before := Join(units[..k - 1]) + Code(units[k - 1].long);
      if i < Start(units, k) {
        NoCode3Inside(before, units[k - 1].unit, Join(units[k..]), i - |before|);
      }
    }
    if i >= Start(units, k) && k < |units| {
      WithinCode(units, k, i);
    }
  }

  /** A start code does not hold a shorter one before its end. */
  lemma WithinCode(units: seq<Coded>, k: nat, i: nat)
    requires k < |units| && Start(units, k) <= i && i + 3 < End(units, k)
    ensures !Code3(Join(units), i)
  {
    hide Join, Code, Start, Code3;
    CodeIsThere(units, k);
    CodeHoldsNone(Join(units), Start(units, k), End(units, k), units[k].long, i);
  }

  lemma CodeHoldsNone(s: seq<byte>, start: nat, end: nat, long: bool, i: nat)
    requires start <= end <= |s| && s[start..end] == Code(long) && start <= i && i + 3 < end
    ensures !Code3(s, i)
  {
    assert s[i + 2] == s[start..end][i + 2 - start];
  }

  lemma PieceIsFree(units: seq<Coded>, k: nat, cs: nat, p: nat)
    requires AllClean(units) && Reached(units, p, k) && From(units, k) <= cs <= p
    ensures CodeFree(Join(units)[cs..p])
  {
    hide Join, Code, Clean, CodeFree, Code3, Reached, From;
    assert p <= |Join(units)| by { ReachedBounds(units, p, k); }
    forall i | cs <= i && i + 3 <= p ensures !Code3(Join(units), i) {
      BetweenEnds(units, k, p, i);
    }
    SliceFree(Join(units), cs, p);
  }

  lemma ReachedBounds(units: seq<Coded>, p: nat, k: nat)
    requires Reached(units, p, k)
    ensures k <= |units| && From(units, k) <= p <= |Join(units)|
  {
  }

  /** The end of a clean unit is clean. */
  lemma SuffixIsClean(unit: seq<byte>, i: nat)
    requires Clean(unit) && i <= |unit|
    ensures Clean(unit[i..])
  {
    forall j: nat ensures !Code3(unit[i..], j) {
      assert !Code3(unit, i + j);
    }
  }

  lemma HeadIsClean(units: seq<Coded>, k: nat, cs: nat)
    requires AllClean(units) && k <= |units| && From(units, k) <= cs <= Start(units, k) <= |Join(units)|
    ensures Clean(Join(units)[cs..Start(units, k)])
  {
    hide Join, Code, Clean, AllClean, Start;
    StartIsStart(units);
    if k == 0 {
      assert Join(units)[cs..Start(units, k)] == [];
      NothingIsClean();
    } else {
      StreamAt(units, k - 1);
      var before, unit := Join(units[..k - 1]) + Code(units[k - 1].long), units[k - 1].unit;
      EndIs(units, k - 1);
      UnitIsClean(units, k - 1);
      SuffixIsClean(unit, cs - |before|);
      MiddlePiece(before, unit, Join(units[k..]), cs - |before|);
    }
  }

  lemma NothingIsClean()
    ensures Clean([])
  {
  }

  lemma EndIs(units: seq<Coded>, k: nat)
    requires k < |units|
    ensures End(units, k) == |Join(units[..k]) + Code(units[k].long)|
  {
    hide Join, Code;
  }

  lemma UnitIsClean(units: seq<Coded>, k: nat)
    requires AllClean(units) && k < |units|
    ensures Clean(units[k].unit)
  {
  }

  lemma MiddlePiece<T>(a: seq<T>, b: seq<T>, c: seq<T>, i: nat)
    requires i <= |b|
    ensures (a + b + c)[|a| + i..|a| + |b|] == b[i..]
  {
  }

  // --------------------------------------------------------------------------- one call

  /** The units whose codes a call finds, the last cut short at position p. */
  function Found(units: seq<Coded>, k: nat, k': nat, p: nat): seq<Coded>
    requires k < k' <= |units| && End(units, k' - 1) <= p <= |Join(units)|
  {
    units[k..k' - 1] + [Coded(units[k' - 1].long, Join(units)[End(units, k' - 1)..p])]
  }

  lemma Slices<T>(s: seq<T>, a: nat, b: nat, c: nat, d: nat)
    requires a <= b <= c <= d <= |s|
    ensures s[a..d] == s[a..b] + (s[b..c] + s[c..d])
  {
  }

  lemma StretchOfUnits(units: seq<Coded>, i: nat, j: nat)
    requires i <= j <= |units|
    ensures Start(units, i) <= Start(units, j) <= |Join(units)|
    ensures Join(units)[Start(units, i)..Start(units, j)] == Join(units[i..j])
  {
    hide Join;
    JoinConcat(units[..i], units[i..j]);
    JoinConcat(units[..j], units[j..]);
    assert units[..j] == units[..i] + units[i..j] && units == units[..j] + units[j..];
    MiddlePiece(Join(units[..i]), Join(units[i..j]), Join(units[j..]), 0);
  }

  lemma CodeIsThere(units: seq<Coded>, k: nat)
    requires k < |units|
    ensures End(units, k) <= |Join(units)| && Join(units)[Start(units, k)..End(units, k)] == Code(units[k].long)
  {
    hide Join, Code;
    StreamAt(units, k);
    ConcatAssociates(Join(units[..k]) + Code(units[k].long), units[k].unit, Join(units[k + 1..]));
    MiddlePiece(Join(units[..k]), Code(units[k].long), units[k].unit + Join(units[k + 1..]), 0);
  }

  /** What a call works on: the end of the unit before, and the units whose codes it finds. */
  lemma BufferIs(units: seq<Coded>, cs: nat, k: nat, p: nat, k': nat)
    requires k < k' && Reached(units, p, k') && cs <= Start(units, k)
    ensures Start(units, k) <= p
    ensures Join(units)[cs..p] == Join(units)[cs..Start(units, k)] + Join(Found(units, k, k', p))
  {
    hide Join, Code;
    var s, last := Join(units), k' - 1;
    StretchOfUnits(units, k, last);
    CodeIsThere(units, last);
    var cut := Coded(units[last].long, s[End(units, last)..p]);
    JoinConcat(units[k..last], [cut]);
    JoinOne(cut);
    Slices(s, Start(units, last), Start(units, last), End(units, last), p);
    assert s[Start(units, last)..Start(units, last)] == [];
    assert s[Start(units, last)..p] == Join([cut]);
    Slices(s, cs, Start(units, k), Start(units, last), p);
  }

  lemma FoundIsCuttable(units: seq<Coded>, k: nat, p: nat, k': nat)
    requires AllClean(units) && k < k' && Reached(units, p, k')
    ensures Cuttable(Found(units, k, k', p)) && Plain(Found(units, k, k', p))[..k' - 1 - k] == Plain(units)[k..k' - 1]
  {
    hide *;
    ReachedBounds(units, p, k');
    FromIsEnd(units, k');
    var cut := Coded(units[k' - 1].long, Join(units)[End(units, k' - 1)..p]);
    PieceIsFree(units, k', End(units, k' - 1), p);
    FoundIs(units, k, k', p);
    CuttableWith(units[k..k' - 1], cut, units, k);
  }

  lemma FoundIs(units: seq<Coded>, k: nat, k': nat, p: nat)
    requires k < k' <= |units| && End(units, k' - 1) <= p <= |Join(units)|
    ensures Found(units, k, k', p) == units[k..k' - 1] + [Coded(units[k' - 1].long, Join(units)[End(units, k' - 1)..p])]
  {
    hide Join, End;
  }

  lemma CuttableWith(whole: seq<Coded>, cut: Coded, units: seq<Coded>, k: nat)
    requires AllClean(units) && CodeFree(cut.unit) && k + |whole| <= |units| && whole == units[k..k + |whole|]
    ensures Cuttable(whole + [cut]) && Plain(whole + [cut])[..|whole|] == Plain(units)[k..k + |whole|]
  {
    hide Clean, CodeFree;
    var found := whole + [cut];
    assert found[..|found| - 1] == whole;
    assert forall j :: 0 <= j < |whole| ==> whole[j] == units[k + j];
  }

  /** One call, from position p of the stream, where what is carried begins at cs, to position p'. */
  ghost predicate CallDoes(units: seq<Coded>, cs: nat, k: nat, p': nat, k': nat)
    requires Reached(units, p', k') && cs <= p'
  {
    var s := Join(units)[cs..p'];
    && Units(s, Split(s).spans) == (if k < k' then Plain(units)[k..k' - 1] else [])
    && Carried(units, s[CarryFrom(s)..], p', k')
  }

  /** The carry reaches back from position p into the stretch before the next code, at least to where that code begins. */
  ghost predicate Carried(units: seq<Coded>, carry: seq<byte>, p: nat, k: nat)
    requires Reached(units, p, k)
  {
    && |carry| <= p && From(units, k) <= p - |carry| <= Start(units, k)
    && carry == Join(units)[p - |carry|..p]
  }

  lemma CarriedIsLast(units: seq<Coded>, from: nat, p: nat, k: nat)
    requires Reached(units, p, k) && From(units, k) <= from <= Start(units, k) && from <= p
    ensures Carried(units, Last(Join(units)[from..p], MAX_CARRY), p, k)
  {
    hide Join;
    if k < |units| {
      CodeLength(units[k].long);
    } else {
      StartIsStart(units);
    }
    hide Code;
    var s := Join(units)[from..p];
    if |s| > MAX_CARRY {
      assert Last(s, MAX_CARRY) == Join(units)[p - MAX_CARRY..p];
    }
  }

  lemma FromBeforeStart(units: seq<Coded>, k: nat)
    requires k <= |units|
    ensures From(units, k) <= Start(units, k)
  {
    hide Join, Code;
    if k > 0 {
      StreamAt(units, k - 1);
    }
  }

  lemma CallThatFinds(units: seq<Coded>, cs: nat, p: nat, k: nat, p': nat, k': nat)
    requires AllClean(units) && Reached(units, p, k) && Reached(units, p', k') && p <= p' && k < k'
    requires From(units, k) <= cs <= p && cs <= Start(units, k)
    ensures CallDoes(units, cs, k, p', k')
  {
    hide Join, Code, Clean, CodeFree, Cuttable, Plain, Units, Split, CarryFrom, Last, Start, From, Carried, AllClean;
    FromIsEnd(units, k');
    ReachedBounds(units, p', k');
    StretchOfUnits(units, k, k);
    HeadIsClean(units, k, cs);
    BufferIs(units, cs, k, p', k');
    FoundIsCuttable(units, k, p', k');
    OneCallIsExact(Join(units)[cs..Start(units, k)], Found(units, k, k', p'));
    FromBeforeStart(units, k');
    CarriedIsLast(units, From(units, k'), p', k');
  }

  lemma FromIsEnd(units: seq<Coded>, k: nat)
    requires 0 < k <= |units|
    ensures From(units, k) == End(units, k - 1)
  {
  }

  lemma CallThatFindsNothing(units: seq<Coded>, cs: nat, p: nat, k: nat, p': nat)
    requires AllClean(units) && Reached(units, p, k) && Reached(units, p', k) && p <= p'
    requires From(units, k) <= cs <= p && cs <= Start(units, k)
    ensures CallDoes(units, cs, k, p', k)
  {
    hide Join, CodeFree, Units, Split, CarryFrom, Last, Start, From, Carried, AllClean;
    PieceIsFree(units, k, cs, p');
    NothingToSplit(Join(units)[cs..p']);
    CarriedIsLast(units, cs, p', k);
  }

  // --------------------------------------------------------------------------- runs of calls

  /** The positions in the stream at which chunks end. */
  function Bounds(chunks: seq<seq<byte>>): (bounds: seq<nat>)
    ensures |bounds| == |chunks|
  {
    if chunks == [] then [] else Bounds(chunks[..|chunks| - 1]) + [|Flatten(chunks)|]
  }

  /** Some chunk ends after the code of unit i and before the end of the next code, if there is a next. */
  ghost predicate IsCut(units: seq<Coded>, bounds: seq<nat>, i: nat)
    requires i < |units|
  {
    exists b :: b in bounds && CutsAt(units, b, i)
  }

  predicate CutsAt(units: seq<Coded>, b: nat, i: nat)
    requires i < |units|
  {
    End(units, i) <= b && (i + 1 < |units| ==> b < End(units, i + 1))
  }

  /** Of the first m units those that no chunk boundary cuts. */
  ghost function Survivors(units: seq<Coded>, bounds: seq<nat>, m: nat): seq<seq<byte>>
    requires m <= |units|
  {
    if m == 0 then
      []
    else
      Survivors(units, bounds, m - 1) + if IsCut(units, bounds, m - 1) then [] else [units[m - 1].unit]
  }

  lemma {:induction false} SameSurvivors(units: seq<Coded>, b: seq<nat>, c: seq<nat>, m: nat)
    requires m <= |units| && forall i :: 0 <= i < m ==> IsCut(units, b, i) == IsCut(units, c, i)
    ensures Survivors(units, b, m) == Survivors(units, c, m)
  {
    hide IsCut;
    if m > 0 {
      SameSurvivors(units, b, c, m - 1);
    }
  }

  lemma {:induction false} AllSurvive(units: seq<Coded>, bounds: seq<nat>, k: nat, m: nat)
    requires k <= m <= |units| && forall i :: k <= i < m ==> !IsCut(units, bounds, i)
    ensures Survivors(units, bounds, m) == Survivors(units, bounds, k) + Plain(units)[k..m]
    decreases m
  {
    hide IsCut, Plain;
    if k == m {
      assert Plain(units)[k..m] == [];
    } else {
      AllSurvive(units, bounds, k, m - 1);
      assert Plain(units)[k..m] == Plain(units)[k..m - 1] + [units[m - 1].unit];
      ConcatAssociates(Survivors(units, bounds, k), Plain(units)[k..m - 1], [units[m - 1].unit]);
    }
  }

  lemma {:induction false} SurvivorCount(units: seq<Coded>, bounds: seq<nat>, m: nat)
    requires m <= |units|
    ensures |Survivors(units, bounds, m)| <= m
    ensures |Survivors(units, bounds, m)| == m <==> forall i :: 0 <= i < m ==> !IsCut(units, bounds, i)
  {
    hide IsCut;
    if m > 0 {
      SurvivorCount(units, bounds, m - 1);
    }
  }

  /** How many units have been emitted or lost when k codes are complete. */
  function Settled(k: nat): nat {
    if k == 0 then 0 else k - 1
  }

  /** One more boundary, at or after all others, settles the units whose end it reaches. */
  lemma OneMoreBound(units: seq<Coded>, bounds: seq<nat>, p: nat, k: nat, p': nat, k': nat)
    requires Reached(units, p, k) && Reached(units, p', k') && p <= p'
    requires forall b :: b in bounds ==> b <= p
    requires k > 0 ==> p in bounds
    ensures k <= k' && Survivors(units, bounds + [p'], Settled(k'))
      == Survivors(units, bounds, Settled(k)) + if k < k' then Plain(units)[k..k' - 1] else []
  {
    hide Join, Code, Start, Survivors, Plain;
    ReachedLater(units, p, k, p', k');
    var more := bounds + [p'];
    forall i | 0 <= i < Settled(k) ensures IsCut(units, more, i) == IsCut(units, bounds, i) {
      EndsIncrease(units, i + 1, k - 1);
      NotCutLater(units, bounds, p', i);
    }
    SameSurvivors(units, more, bounds, Settled(k));
    if k < k' {
      if k > 0 {
        assert p in more && CutsAt(units, p, k - 1);
        SurvivorsOneMore(units, more, k - 1);
      }
      forall i | k <= i < k' - 1 ensures !IsCut(units, more, i) {
        EndsIncrease(units, k, i);
        EndsIncrease(units, i + 1, k' - 1);
      }
      AllSurvive(units, more, k, k' - 1);
    }
  }

  lemma NotCutLater(units: seq<Coded>, bounds: seq<nat>, p: nat, i: nat)
    requires i + 1 < |units| && End(units, i + 1) <= p
    ensures IsCut(units, bounds + [p], i) == IsCut(units, bounds, i)
  {
    hide End;
  }

  lemma SurvivorsOneMore(units: seq<Coded>, bounds: seq<nat>, i: nat)
    requires i < |units| && IsCut(units, bounds, i)
    ensures Survivors(units, bounds, i + 1) == Survivors(units, bounds, i)
  {
    hide IsCut;
  }

  /** What a run of calls has emitted, and what it carries, when the chunks so far end at position p after k codes. */
  ghost predicate RunIs(units: seq<Coded>, chunks: seq<seq<byte>>, p: nat, k: nat) {
    && Reached(units, p, k) && Carried(units, Feed(chunks).carry, p, k)
    && Feed(chunks).nals == Survivors(units, Bounds(chunks), Settled(k))
    && (forall b :: b in Bounds(chunks) ==> b <= p) && (k > 0 ==> p in Bounds(chunks))
  }

  lemma NothingRun(units: seq<Coded>)
    ensures RunIs(units, [], 0, Complete(units, 0, |units|))
  {
    hide Join;
    StartIsStart(units);
    ReachedOnce(units, 0);
    var k := Complete(units, 0, |units|);
    if k > 0 {
      CodeLength(units[k - 1].long);
    }
    hide Code;
    assert Join(units)[0..0] == [];
  }

  lemma OneMoreChunk(units: seq<Coded>, init: seq<seq<byte>>, chunk: seq<byte>, p: nat, k: nat, k': nat)
    requires AllClean(units) && RunIs(units, init, p, k) && p == |Flatten(init)| && Reached(units, p + |chunk|, k')
    requires chunk == Join(units)[p..p + |chunk|]
    ensures RunIs(units, init + [chunk], p + |chunk|, k')
  {
    hide Join, Survivors, Reached, Plain, AllClean, Settled, From, Start, Split, Units, CarryFrom, Feed, Bounds, Flatten;
    var p', cs := p + |chunk|, p - |Feed(init).carry|;
    ReachedBounds(units, p', k');
    ReachedLater(units, p, k, p', k');
    if k < k' {
      CallThatFinds(units, cs, p, k, p', k');
    } else {
      CallThatFindsNothing(units, cs, p, k, p');
    }
    var s := Feed(init).carry + chunk;
    assert s == Join(units)[cs..p'] by { Slices(Join(units), cs, cs, p, p'); }
    FeedMore(init, chunk);
    BoundsMore(init, chunk);
    OneMoreBound(units, Bounds(init), p, k, p', k');
  }

  lemma FeedMore(init: seq<seq<byte>>, chunk: seq<byte>)
    ensures var s := Feed(init).carry + chunk;
      Feed(init + [chunk]) == Fed(Feed(init).nals + Units(s, Split(s).spans), s[CarryFrom(s)..])
  {
    assert (init + [chunk])[..|init|] == init;
    hide Units, Split, CarryFrom;
  }

  lemma BoundsMore(init: seq<seq<byte>>, chunk: seq<byte>)
    ensures Bounds(init + [chunk]) == Bounds(init) + [|Flatten(init)| + |chunk|]
    ensures Flatten(init + [chunk]) == Flatten(init) + chunk
  {
    FlattenMore(init, chunk);
    hide Flatten;
    assert (init + [chunk])[..|init|] == init;
  }

  lemma FlattenMore(init: seq<seq<byte>>, chunk: seq<byte>)
    ensures Flatten(init + [chunk]) == Flatten(init) + chunk
  {
    assert (init + [chunk])[..|init|] == init;
  }

  lemma {:induction false} RunSettles(units: seq<Coded>, chunks: seq<seq<byte>>)
    requires AllClean(units) && Flatten(chunks) <= Join(units)
    ensures var p := |Flatten(chunks)|; RunIs(units, chunks, p, Complete(units, p, |units|))
  {
    hide Join, RunIs, AllClean, Complete;
    if chunks == [] {
      NothingRun(units);
    } else {
      var init, chunk := chunks[..|chunks| - 1], chunks[|chunks| - 1];
      assert chunks == init + [chunk];
      RunSettles(units, init);
      var p, p' := |Flatten(init)|, |Flatten(chunks)|;
      ReachedOnce(units, p');
      assert chunk == Join(units)[p..p'];
      OneMoreChunk(units, init, chunk, p, Complete(units, p, |units|), Complete(units, p', |units|));
    }
  }

  lemma WholeStream(units: seq<Coded>)
    ensures Reached(units, |Join(units)|, |units|) && Complete(units, |Join(units)|, |units|) == |units|
  {
    hide Join, Code;
    var k := Complete(units, |Join(units)|, |units|);
    if k < |units| {
      EndsIncrease(units, k, |units| - 1);
    }
    ReachedOnce(units, |Join(units)|);
  }

  /**
   * However a well-formed stream is cut into chunks, exactly those units are emitted that no chunk boundary cuts: none
   * from the end of the unit's start code up to the end of the next one. The last unit is always cut, by the end.
   */
  lemma SurvivorsAreEmitted(units: seq<Coded>, chunks: seq<seq<byte>>)
    requires AllClean(units) && Flatten(chunks) == Join(units)
    ensures Feed(chunks).nals == Survivors(units, Bounds(chunks), |units|)
    ensures units != [] ==> IsCut(units, Bounds(chunks), |units| - 1)
  {
    hide Join, Code, Start, AllClean, Feed;
    var p := |Join(units)|;
    RunSettles(units, chunks);
    WholeStream(units);
    if units != [] {
      var last := |units| - 1;
      assert p in Bounds(chunks) && CutsAt(units, p, last);
      hide Survivors;
      SurvivorsOneMore(units, Bounds(chunks), last);
    }
  }

  /** Read in one chunk, a well-formed stream yields all units but the last. */
  lemma OneChunk(units: seq<Coded>)
    requires AllClean(units) && units != []
    ensures Feed([Join(units)]).nals == Plain(units)[..|units| - 1]
  {
    hide Join, Code, Start, AllClean, Feed, Survivors, Plain;
    var n, p := |units| - 1, |Join(units)|;
    OneBound(Join(units));
    SurvivorsAreEmitted(units, [Join(units)]);
    forall i | 0 <= i < n ensures !IsCut(units, [p], i) {
      EndsIncrease(units, i, i + 1);
    }
    SurvivorsOneMore(units, [p], n);
    NoSurvivors(units, [p]);
    AllSurvive(units, [p], 0, n);
    assert Plain(units)[0..n] == Plain(units)[..n];
  }

  lemma OneBound(s: seq<byte>)
    ensures Bounds([s]) == [|s|] && Flatten([s]) == s
  {
    BoundsMore([], s);
    assert [] + [s] == [s] && [] + s == s;
  }

  lemma NoSurvivors(units: seq<Coded>, bounds: seq<nat>)
    ensures Survivors(units, bounds, 0) == []
  {
  }

  /** A boundary from the end of the first code up to that of the last one cuts some unit between them. */
  lemma SomeUnitIsCut(units: seq<Coded>, bounds: seq<nat>, b: nat)
    requires units != [] && b in bounds && End(units, 0) <= b < End(units, |units| - 1)
    ensures exists i :: 0 <= i < |units| - 1 && IsCut(units, bounds, i)
  {
    hide Join, Code, Start;
    var k := Complete(units, b, |units|);
    assert k > 0 && k < |units|;
    assert CutsAt(units, b, k - 1);
    assert IsCut(units, bounds, k - 1);
  }

  lemma CutIsBetween(units: seq<Coded>, bounds: seq<nat>, i: nat)
    requires i < |units| - 1 && IsCut(units, bounds, i)
    ensures exists b :: b in bounds && End(units, 0) <= b < End(units, |units| - 1)
  {
    hide Join, Code, Start;
    var b: nat :| b in bounds && CutsAt(units, b, i);
    EndsIncrease(units, 0, i);
    EndsIncrease(units, i + 1, |units| - 1);
    assert b in bounds && End(units, 0) <= b < End(units, |units| - 1);
  }

  /**
   * What is emitted depends on how reads fall: a well-formed stream, cut anywhere, yields the units of a single read
   * if and only if no boundary lies from the end of the first start code up to the end of the last one.
   */
  lemma ChunkingMattersExactly(units: seq<Coded>, chunks: seq<seq<byte>>)
    requires AllClean(units) && units != [] && Flatten(chunks) == Join(units)
    ensures Feed(chunks).nals == Feed([Join(units)]).nals
      <==> forall b :: b in Bounds(chunks) ==> !(End(units, 0) <= b < End(units, |units| - 1))
  {
    hide Join, Code, Start, End, AllClean, Feed, Survivors, Plain, IsCut;
    var n, bounds := |units| - 1, Bounds(chunks);
    OneChunk(units);
    SurvivorsAreEmitted(units, chunks);
    SurvivorsOneMore(units, bounds, n);
    SurvivorCount(units, bounds, n);
    NoSurvivors(units, bounds);
    if b: nat :| b in bounds && End(units, 0) <= b < End(units, n) {
      SomeUnitIsCut(units, bounds, b);
    } else {
      forall i | 0 <= i < n ensures !IsCut(units, bounds, i) {
        if IsCut(units, bounds, i) {
          CutIsBetween(units, bounds, i);
        }
      }
      AllSurvive(units, bounds, 0, n);
      assert Plain(units)[0..n] == Plain(units)[..n];
    }
  }

  /** The smallest case of it: of two units one read yields the first; with a boundary after the first start code,
    * nothing is left. */
  lemma TwoReadsLoseAUnit(a: Coded, b: Coded)
    requires Clean(a.unit) && Clean(b.unit)
    ensures var chunks := [Code(a.long), a.unit + Code(b.long) + b.unit];
      && Flatten(chunks) == Join([a, b])
      && Feed([Join([a, b])]).nals == [a.unit] && Feed(chunks).nals == []
  {
    var units, head, tail := [a, b], Code(a.long), a.unit + Code(b.long) + b.unit;
    var chunks := [head, tail];
    TwoChunks(head, tail);
    JoinTwo(a, b);
    hide Feed, Clean, Code, Join, Flatten, Bounds;
    OneChunk(units);
    assert Plain(units)[..1] == [a.unit];
    SurvivorsAreEmitted(units, chunks);
    EndsIncrease(units, 0, 1);
    assert CutsAt(units, |head|, 0) && Bounds(chunks)[0] == |head|;
    hide CutsAt, End;
    assert IsCut(units, Bounds(chunks), 0);
    assert Survivors(units, Bounds(chunks), 2) == Survivors(units, Bounds(chunks), 1) == Survivors(units, Bounds(chunks), 0);
  }

  lemma TwoChunks(head: seq<byte>, tail: seq<byte>)
    ensures Flatten([head, tail]) == head + tail && Bounds([head, tail]) == [|head|, |head| + |tail|]
  {
    BoundsMore([], head);
    BoundsMore([head], tail);
    assert [] + [head] == [head] && [head] + [tail] == [head, tail];
  }

  lemma JoinTwo(a: Coded, b: Coded)
    ensures Join([a, b]) == Code(a.long) + (a.unit + Code(b.long) + b.unit)
    ensures End([a, b], 0) == |Code(a.long)|
  {
    JoinOne(b);
    assert [a, b][1..] == [b] && [a, b][..0] == [] && Join([]) == [];
    hide Code;
  }
}
