/** The audio session's overwriting ring buffer. */
module AudioRing {
  import opened Bytes
  import opened Collections

  /** One place of the ring is never in use. */
  function Room(size: nat): nat {
    if size == 0 then 0 else size - 1
  }

  /** What lies between the two positions, going round the end of the array. */
  function Between<T>(ring: seq<T>, read: nat, write: nat): (q: seq<T>)
    requires read <= |ring| && write <= |ring|
    ensures |q| == if write >= read then write - read else |ring| - read + write
  {
    if write >= read then ring[read..write] else ring[read..] + ring[..write]
  }

  class AudioBuffer {
    const data: array<byte>
    var writePos: nat
    var readPos: nat
    var ready: bool

    ghost predicate Valid()
      reads this
    {
      && (if data.Length == 0 then writePos == readPos == 0 else writePos < data.Length && readPos < data.Length)
      && (!ready ==> writePos == readPos)
    }

    /** The bytes not read yet, oldest first. */
    ghost function Contents(): (q: seq<byte>)
      requires Valid()
      reads this, data
      ensures |q| <= Room(data.Length)
    {
      Between(data[..], readPos, writePos)
    }

    constructor (size: nat)
      ensures Valid() && fresh(data) && data.Length == size && Contents() == []
    {
      data := new byte[size](_ => 0);
      writePos, readPos, ready := 0, 0, false;
    }

    method Available() returns (n: nat)
      requires Valid()
      ensures n == |Contents()|
    {
      if writePos >= readPos {
        return writePos - readPos;
      }
      return data.Length - readPos + writePos;
    }

    /** Copy as much of bytes as fits from position at to the end of the array. */
    method CopyIn(at: nat, bytes: seq<byte>) returns (n: nat)
      requires at <= data.Length
      modifies data
      ensures n == Min(|bytes|, data.Length - at)
      ensures Overwritten(old(data[..]), data[..], at, bytes[..n])
    {
      n := Min(|bytes|, data.Length - at);
      forall k | 0 <= k < n {
        data[at + k] := bytes[k];
      }
    }

    /** Copy bytes in from the write position to the end of the array, and what is left to its beginning. */
    method CopyRound(bytes: seq<byte>)
      requires writePos < data.Length && |bytes| < data.Length
      modifies data
      ensures CopiedIn(old(data[..]), data[..], writePos, bytes)
    {
      hide CopiedIn, Overwritten;
      ghost var before := data[..];
      var firstLen := CopyIn(writePos, bytes);
      if firstLen < |bytes| {
        ghost var middle := data[..];
        var n := CopyIn(0, bytes[firstLen..]);
        assert bytes[firstLen..][..n] == bytes[firstLen..];
        CopiedTwice(before, middle, data[..], writePos, bytes);
      } else {
        assert bytes[..firstLen] == bytes;
        CopiedOnce(before, data[..], writePos, bytes);
      }
    }

    /** A write of at least the whole array leaves its last bytes. */
    method Refill(bytes: seq<byte>)
      requires Valid() && |bytes| >= data.Length
      modifies this, data
      ensures Valid() && Contents() == Last(old(Contents()) + bytes, Room(data.Length))
    {
      hide Overwritten, Between;
      ghost var q := Contents();
      var n, size := |bytes|, data.Length;
      ghost var before := data[..];
      var k := CopyIn(0, bytes[n - size..]);
      assert bytes[n - size..][..k] == bytes[n - size..];
      assert data[..] == bytes[n - size..] by { OverwrittenWhole(before, data[..], bytes[n - size..]); }
      writePos := 0;
      if size > 0 {
        readPos := 1 % size;
      }
      ready := true;
      FullWrite(data[..], q, bytes);
    }

    /** A write leaves the last bytes of what was there followed by what came, as many as fit. */
    method Write(bytes: seq<byte>)
      requires Valid()
      modifies this, data
      ensures Valid() && Contents() == Last(old(Contents()) + bytes, if data.Length == 0 then 0 else data.Length - 1)
      ensures Contents() == Next(Room(data.Length), old(Contents()), Op.Write(bytes))
    {
      hide CopiedIn, Between, Pos;
      var n, size := |bytes|, data.Length;
      if n >= size {
        Refill(bytes);
        return;
      }
      if n == 0 {
        assert Contents() + bytes == Contents();
        return;
      }
      var available := Available();
      var writable := size - available;
      var overtook := ready && n >= writable;
      ghost var before, read, write := data[..], readPos, writePos;
      CopyRound(bytes);
      PosIsModular(size, writePos, n);
      writePos := (writePos + n) % size;
      if overtook {
        OvertakingWrite(before, data[..], read, write, bytes);
        PosIsModular(size, writePos, 1);
        readPos := (writePos + 1) % size;
      } else {
        FittingWrite(before, data[..], read, write, bytes);
      }
      ready := true;
    }

    /** A read takes the oldest bytes, at most n of them; only an empty buffer has nothing to give. */
    method Read(n: nat) returns (result: Option<seq<byte>>)
      requires Valid()
      modifies this`readPos
      ensures Valid()
      ensures result.None? <==> old(Contents()) == []
      ensures result.None? ==> Contents() == []
      ensures result.Some? ==> result.value == old(Contents())[..Min(n, |old(Contents())|)]
      ensures result.Some? ==> Contents() == old(Contents())[Min(n, |old(Contents())|)..]
      ensures Contents() == Next(Room(data.Length), old(Contents()), Op.Read(n))
      ensures Taken(old(Contents()), Op.Read(n)) == if result.Some? then result.value else []
    {
      NothingBetween(data[..], readPos, writePos);
      hide Pos, Between;
      if !ready {
        return None;
      }
      var available := Available();
      if available == 0 {
        return None;
      }
      var readSize := n;
      if available < readSize {
        readSize := available;
      }
      var bytes := TakeOut(readSize);
      return Some(bytes);
    }

    /** Take the oldest bytes out, from two pieces if they go round the end. */
    method TakeOut(readSize: nat) returns (bytes: seq<byte>)
      requires Valid() && ready && Contents() != [] && readSize <= |Contents()|
      modifies this`readPos
      ensures Valid() && bytes == old(Contents())[..readSize] && Contents() == old(Contents())[readSize..]
    {
      NothingBetween(data[..], readPos, writePos);
      hide Pos, Between;
      AfterRead(data[..], readPos, writePos, readSize);
      PosIsModular(data.Length, readPos, readSize);
      var firstLen := Min(readSize, data.Length - readPos);
      bytes := data[readPos..readPos + firstLen] + data[..readSize - firstLen];
      readPos := (readPos + readSize) % data.Length;
    }

    method Clear()
      requires Valid()
      modifies this
      ensures Valid() && Contents() == [] == Next(Room(data.Length), old(Contents()), Op.Clear)
    {
      writePos, readPos, ready := 0, 0, false;
    }
  }

  lemma NothingBetween(ring: seq<byte>, read: nat, write: nat)
    requires if |ring| == 0 then read == write == 0 else read < |ring| && write < |ring|
    ensures read == write ==> Between(ring, read, write) == []
  {
  }

  lemma FullWrite(ring: seq<byte>, q: seq<byte>, bytes: seq<byte>)
    requires |bytes| >= |ring| && ring == bytes[|bytes| - |ring|..] && |q| <= Room(|ring|)
    ensures |ring| > 0 ==> Between(ring, 1 % |ring|, 0) == Last(q + bytes, Room(|ring|))
    ensures |ring| == 0 ==> [] == Last(q + bytes, Room(|ring|))
  {
    if |ring| > 1 {
      assert 1 % |ring| == 1 && ring[..0] == [];
      IsLast(ring[1..], q + bytes);
    } else if |ring| == 1 {
      assert 1 % |ring| == 0;
    }
  }

  /** The place k steps on from place p. */
  function Pos(size: nat, p: nat, k: nat): (i: nat)
    requires p < size && k <= size
    ensures i < size
  {
    if p + k < size then p + k else p + k - size
  }

  lemma PosIsModular(size: nat, p: nat, k: nat)
    requires p < size && k <= size
    ensures (p + k) % size == Pos(size, p, k)
  {
    DivisionIs(size, p + k, if p + k < size then 0 else 1, Pos(size, p, k));
  }

  /** The ring after bytes were copied in from place write on, going round the end. */
  ghost predicate CopiedIn(before: seq<byte>, after: seq<byte>, write: nat, bytes: seq<byte>) {
    && |after| == |before| > |bytes| && write < |before|
    && forall j :: 0 <= j < |before| ==>
         after[Pos(|before|, write, j)] == if j < |bytes| then bytes[j] else before[Pos(|before|, write, j)]
  }

  /** The ring after bytes were written from place at on, where they fit. */
  ghost predicate Overwritten(before: seq<byte>, after: seq<byte>, at: nat, bytes: seq<byte>) {
    && |after| == |before| && at + |bytes| <= |before|
    && forall k :: 0 <= k < |before| ==> after[k] == if at <= k < at + |bytes| then bytes[k - at] else before[k]
  }

  lemma OverwrittenWhole(before: seq<byte>, after: seq<byte>, bytes: seq<byte>)
    requires Overwritten(before, after, 0, bytes) && |bytes| == |before|
    ensures after == bytes
  {
  }

  lemma CopiedOnce(before: seq<byte>, after: seq<byte>, write: nat, bytes: seq<byte>)
    requires write < |before| && |bytes| < |before| && Overwritten(before, after, write, bytes)
    ensures CopiedIn(before, after, write, bytes)
  {
  }

  lemma CopiedTwice(before: seq<byte>, middle: seq<byte>, after: seq<byte>, write: nat, bytes: seq<byte>)
    requires write < |before| && |bytes| < |before| && write + |bytes| > |before|
    requires var first := |before| - write;
      Overwritten(before, middle, write, bytes[..first]) && Overwritten(middle, after, 0, bytes[first..])
    ensures CopiedIn(before, after, write, bytes)
  {
    var first := |before| - write;
    forall j | 0 <= j < |before|
      ensures after[Pos(|before|, write, j)] == if j < |bytes| then bytes[j] else before[Pos(|before|, write, j)]
    {
      if j < first {
        assert after[write + j] == middle[write + j] == bytes[j];
      } else if j < |bytes| {
        assert after[j - first] == bytes[first..][j - first];
      } else {
        assert after[j - first] == middle[j - first] == before[j - first];
      }
    }
  }

  /** Members between two places, counted from the first, and counted back from the second. */
  lemma BetweenAt(ring: seq<byte>, read: nat, write: nat, k: nat)
    requires read < |ring| && write < |ring| && k < |Between(ring, read, write)|
    ensures var q := Between(ring, read, write);
      q[k] == ring[Pos(|ring|, read, k)] == ring[Pos(|ring|, write, |ring| - |q| + k)]
  {
  }

  lemma FittingWrite(before: seq<byte>, after: seq<byte>, read: nat, write: nat, bytes: seq<byte>)
    requires read < |before| && CopiedIn(before, after, write, bytes)
    requires |Between(before, read, write)| + |bytes| < |before|
    ensures Between(after, read, Pos(|before|, write, |bytes|)) == Between(before, read, write) + bytes
  {
    var size, n := |before|, |bytes|;
    var q, next := Between(before, read, write), Pos(|before|, write, |bytes|);
    var r := Between(after, read, next);
    assert |r| == |q| + n;
    forall k | 0 <= k < |r| ensures r[k] == (q + bytes)[k] {
      BetweenAt(after, read, next, k);
      if k < |q| {
        BetweenAt(before, read, write, k);
        assert Pos(size, read, k) == Pos(size, write, size - |q| + k);
      } else {
        assert Pos(size, read, k) == Pos(size, write, k - |q|);
      }
    }
  }

  lemma PosAfter(size: nat, write: nat, n: nat, k: nat)
    requires write < size && n < size && k < size - 1
    ensures Pos(size, Pos(size, Pos(size, write, n), 1), k)
         == if n + 1 + k < size then Pos(size, write, n + 1 + k) else Pos(size, write, n + 1 + k - size)
  {
  }

  /** Member k of what an overtaking write leaves: an old byte if it lies past the new ones, else a new one. */
  lemma OvertakenAt(before: seq<byte>, after: seq<byte>, read: nat, write: nat, bytes: seq<byte>, k: nat)
    requires read < |before| && CopiedIn(before, after, write, bytes)
    requires |Between(before, read, write)| + |bytes| >= |before| && k < |before| - 1
    ensures var q, next := Between(before, read, write), Pos(|before|, write, |bytes|);
      var all := q + bytes;
      after[Pos(|before|, Pos(|before|, next, 1), k)] == all[|all| - (|before| - 1) + k]
  {
    hide Between, Pos;
    var size, n := |before|, |bytes|;
    var q := Between(before, read, write);
    PosAfter(size, write, n, k);
    CopiedAt(before, after, write, bytes, if n + 1 + k < size then n + 1 + k else n + 1 + k - size);
    if n + 1 + k < size {
      hide CopiedIn;
      BetweenAt(before, read, write, |q| + n + 1 + k - size);
    }
  }

  lemma CopiedAt(before: seq<byte>, after: seq<byte>, write: nat, bytes: seq<byte>, j: nat)
    requires CopiedIn(before, after, write, bytes) && j < |before|
    ensures after[Pos(|before|, write, j)] == if j < |bytes| then bytes[j] else before[Pos(|before|, write, j)]
  {
    hide Pos;
  }

  lemma OvertakingWrite(before: seq<byte>, after: seq<byte>, read: nat, write: nat, bytes: seq<byte>)
    requires read < |before| && CopiedIn(before, after, write, bytes)
    requires |Between(before, read, write)| + |bytes| >= |before|
    ensures var next := Pos(|before|, write, |bytes|);
      Between(after, Pos(|before|, next, 1), next) == Last(Between(before, read, write) + bytes, |before| - 1)
  {
    hide *;
    OvertakenLength(before, after, write, bytes);
    var size := |before|;
    var next := Pos(size, write, |bytes|);
    var start := Pos(size, next, 1);
    var r, all := Between(after, start, next), Between(before, read, write) + bytes;
    forall k | 0 <= k < |r| ensures r[k] == all[|all| - (size - 1) + k] {
      BetweenAt(after, start, next, k);
      OvertakenAt(before, after, read, write, bytes, k);
    }
    IsLast(r, all);
  }

  lemma OvertakenLength(before: seq<byte>, after: seq<byte>, write: nat, bytes: seq<byte>)
    requires CopiedIn(before, after, write, bytes)
    ensures write < |before| && |bytes| < |before|
    ensures var next := Pos(|before|, write, |bytes|);
      |after| == |before| && |Between(after, Pos(|before|, next, 1), next)| == |before| - 1
  {
    hide Between;
  }

  lemma IsLast(r: seq<byte>, all: seq<byte>)
    requires |r| <= |all| && forall k :: 0 <= k < |r| ==> r[k] == all[|all| - |r| + k]
    ensures r == Last(all, |r|)
  {
  }

  lemma AfterRead(ring: seq<byte>, read: nat, write: nat, n: nat)
    requires read < |ring| && write < |ring| && n <= |Between(ring, read, write)|
    ensures var q, first := Between(ring, read, write), Min(n, |ring| - read);
      && n - first <= write
      && ring[read..read + first] + ring[..n - first] == q[..n]
      && Between(ring, Pos(|ring|, read, n), write) == q[n..]
  {
    var q, first := Between(ring, read, write), Min(n, |ring| - read);
    LeftAfterRead(ring, read, write, n);
    hide Pos;
    if first < n {
      assert q[..n] == ring[read..] + ring[..n - first];
    } else {
      assert q[..n] == ring[read..read + n] && ring[..0] == [];
    }
  }

  lemma LeftAfterRead(ring: seq<byte>, read: nat, write: nat, n: nat)
    requires read < |ring| && write < |ring| && n <= |Between(ring, read, write)|
    ensures Between(ring, Pos(|ring|, read, n), write) == Between(ring, read, write)[n..]
  {
  }

  // --------------------------------------------------------------------------- runs of operations

  datatype Op = Write(bytes: seq<byte>) | Read(n: nat) | Clear

  /** What one operation makes of the unread bytes, as the buffer's methods have it. */
  function Next(room: nat, q: seq<byte>, op: Op): seq<byte> {
    match op
    case Write(bytes) => Last(q + bytes, room)
    case Read(n) => q[Min(n, |q|)..]
    case Clear => []
  }

  function Taken(q: seq<byte>, op: Op): seq<byte> {
    if op.Read? then q[..Min(op.n, |q|)] else []
  }

  datatype Run = Run(q: seq<byte>, chunks: seq<seq<byte>>)

  function After(room: nat, ops: seq<Op>): Run {
    if ops == [] then
      Run([], [])
    else
      var before, op := After(room, ops[..|ops| - 1]), ops[|ops| - 1];
      Run(Next(room, before.q, op), before.chunks + [Taken(before.q, op)])
  }

  function Written(ops: seq<Op>): seq<byte> {
    if ops == [] then [] else Written(ops[..|ops| - 1]) + if ops[|ops| - 1].Write? then ops[|ops| - 1].bytes else []
  }

  /** Stretches of the input that follow one another and end before `to`. */
  ghost predicate Consecutive(starts: seq<nat>, chunks: seq<seq<byte>>, to: nat) {
    && |starts| == |chunks|
    && (forall k :: 0 <= k < |chunks| ==> starts[k] + |chunks[k]| <= to)
    && forall j, k :: 0 <= j < k < |chunks| ==> starts[j] + |chunks[j]| <= starts[k]
  }

  ghost predicate Stretches(starts: seq<nat>, chunks: seq<seq<byte>>, input: seq<byte>) {
    && |starts| == |chunks|
    && forall k :: 0 <= k < |chunks| ==>
         starts[k] + |chunks[k]| <= |input| && input[starts[k]..starts[k] + |chunks[k]|] == chunks[k]
  }

  /** Where in the input each read begins. */
  function Starts(room: nat, ops: seq<Op>): (starts: seq<nat>)
    ensures |starts| == |ops|
  {
    if ops == [] then
      []
    else
      var init := ops[..|ops| - 1];
      var at := |Written(init)| - |After(room, init).q|;
      Starts(room, init) + [if at >= 0 then at else 0]
  }

  lemma StretchesGrow(starts: seq<nat>, chunks: seq<seq<byte>>, input: seq<byte>, more: seq<byte>)
    requires Stretches(starts, chunks, input)
    ensures Stretches(starts, chunks, input + more)
  {
    forall k | 0 <= k < |chunks| ensures (input + more)[starts[k]..starts[k] + |chunks[k]|] == chunks[k] {
      assert input[starts[k]..starts[k] + |chunks[k]|] == chunks[k];
    }
  }

  lemma NoStretches()
    ensures Stretches([], [], []) && Consecutive([], [], 0)
  {
  }

  lemma OneMoreStretch(starts: seq<nat>, chunks: seq<seq<byte>>, input: seq<byte>, start: nat, chunk: seq<byte>)
    requires Stretches(starts, chunks, input)
    requires start + |chunk| <= |input| && input[start..start + |chunk|] == chunk
    ensures Stretches(starts + [start], chunks + [chunk], input)
  {
  }

  lemma OneMoreConsecutive(starts: seq<nat>, chunks: seq<seq<byte>>, start: nat, chunk: seq<byte>, to: nat)
    requires Consecutive(starts, chunks, start) && start + |chunk| <= to
    ensures Consecutive(starts + [start], chunks + [chunk], to)
  {
  }

  /** The unread bytes are the newest of the input, and the reads are earlier stretches of it, one after another. */
  ghost predicate Follows(starts: seq<nat>, r: Run, input: seq<byte>) {
    && |r.q| <= |input| && r.q == input[|input| - |r.q|..]
    && Consecutive(starts, r.chunks, |input| - |r.q|) && Stretches(starts, r.chunks, input)
  }

  lemma FollowsNext(room: nat, starts: seq<nat>, r: Run, input: seq<byte>, op: Op)
    requires Follows(starts, r, input)
    ensures Follows(
      starts + [|input| - |r.q|],
      Run(Next(room, r.q, op), r.chunks + [Taken(r.q, op)]),
      input + if op.Write? then op.bytes else [])
  {
    hide Next, Taken, Stretches, Consecutive;
    var more := if op.Write? then op.bytes else [];
    var at, chunk := |input| - |r.q|, Taken(r.q, op);
    QueueIsSuffix(room, r.q, input, op);
    StretchesGrow(starts, r.chunks, input, more);
    OneMoreStretch(starts, r.chunks, input + more, at, chunk);
    OneMoreConsecutive(starts, r.chunks, at, chunk, |input + more| - |Next(room, r.q, op)|);
  }

  /**
   * Over any run, with any sizes, no byte comes out twice, altered or out of order, whatever is overwritten, and what
   * is unread is the newest part of the input.
   */
  lemma {:induction false} ReadsFollowTheInput(room: nat, ops: seq<Op>)
    ensures Follows(Starts(room, ops), After(room, ops), Written(ops))
  {
    if ops == [] {
      NoStretches();
    } else {
      ReadsFollowTheInput(room, ops[..|ops| - 1]);
      FollowsOneMore(room, ops);
    }
  }

  lemma FollowsOneMore(room: nat, ops: seq<Op>)
    requires ops != []
    requires var init := ops[..|ops| - 1]; Follows(Starts(room, init), After(room, init), Written(init))
    ensures Follows(Starts(room, ops), After(room, ops), Written(ops))
  {
    hide *;
    var init, op := ops[..|ops| - 1], ops[|ops| - 1];
    var starts, r, input := Starts(room, init), After(room, init), Written(init);
    OneMoreOp(room, ops);
    FollowsLength(starts, r, input);
    FollowsNext(room, starts, r, input, op);
  }

  lemma OneMoreOp(room: nat, ops: seq<Op>)
    requires ops != []
    ensures var init, op := ops[..|ops| - 1], ops[|ops| - 1];
      var r, input := After(room, init), Written(init);
      && After(room, ops) == Run(Next(room, r.q, op), r.chunks + [Taken(r.q, op)])
      && Written(ops) == input + (if op.Write? then op.bytes else [])
      && (|r.q| <= |input| ==> Starts(room, ops) == Starts(room, init) + [|input| - |r.q|])
  {
    hide Next, Taken;
  }

  lemma FollowsLength(starts: seq<nat>, r: Run, input: seq<byte>)
    requires Follows(starts, r, input)
    ensures |r.q| <= |input|
  {
  }

  lemma QueueIsSuffix(room: nat, q: seq<byte>, input: seq<byte>, op: Op)
    requires |q| <= |input| && q == input[|input| - |q|..]
    ensures var all, next := input + (if op.Write? then op.bytes else []), Next(room, q, op);
      && |next| <= |all| && next == all[|all| - |next|..]
      && |input| - |q| + |Taken(q, op)| <= |all| - |next|
      && all[|input| - |q|..|input| - |q| + |Taken(q, op)|] == Taken(q, op)
  {
    var all := input + (if op.Write? then op.bytes else []);
    var from := |input| - |q|;
    if op.Write? {
      assert q + op.bytes == all[from..];
    } else {
      assert all == input;
    }
  }

  /** No write finds the buffer too full, and nothing is cleared. */
  ghost predicate Fits(room: nat, ops: seq<Op>) {
    forall k :: 0 <= k < |ops| ==> !ops[k].Clear? && (ops[k].Write? ==> |After(room, ops[..k]).q| + |ops[k].bytes| <= room)
  }

  /** Then nothing is lost: the reads and what is unread are the whole input. */
  lemma {:induction false} NothingLostWhileItFits(room: nat, ops: seq<Op>)
    requires Fits(room, ops)
    ensures Flatten(After(room, ops).chunks) + After(room, ops).q == Written(ops)
  {
    if ops != [] {
      var init, op := ops[..|ops| - 1], ops[|ops| - 1];
      forall k | 0 <= k < |init|
        ensures !init[k].Clear? && (init[k].Write? ==> |After(room, init[..k]).q| + |init[k].bytes| <= room)
      {
        assert init[..k] == ops[..k];
      }
      NothingLostWhileItFits(room, init);
      var before := After(room, init);
      var chunks := before.chunks + [Taken(before.q, op)];
      assert chunks[..|chunks| - 1] == before.chunks;
      OneFits(Flatten(before.chunks), before.q, room, op);
    }
  }

  lemma OneFits(out: seq<byte>, q: seq<byte>, room: nat, op: Op)
    requires !op.Clear? && (op.Write? ==> |q| + |op.bytes| <= room)
    ensures (out + Taken(q, op)) + Next(room, q, op) == (out + q) + if op.Write? then op.bytes else []
  {
    if op.Write? {
      assert out + [] == out;
    } else {
      assert q[..Min(op.n, |q|)] + q[Min(op.n, |q|)..] == q;
    }
  }
}
