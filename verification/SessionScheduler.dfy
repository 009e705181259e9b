/** The gateway's session scheduler: a priority heap of waiting sessions. A session that cannot
    be placed loses one point of priority and is dropped at its tenth failure. */
module SessionQueue {
  import opened ContainerHeap

  const MAX_FAILURES := 10

  datatype SessionType = Gaming | RemoteSupport | Desktop | HostSession | Other

  function CalculatePriority(kind: SessionType): int {
    match kind
    case Gaming => 100
    case RemoteSupport => 75
    case Desktop => 50
    case HostSession => 25
    case Other => 10
  }

  datatype Job = Job(sessionID: string, kind: SessionType, priority: int, failedAttempts: int)

  const Less: Order<Job> := (a: Job, b: Job) => a.priority > b.priority

  function Max(a: int, b: int): int {
    if a > b then a else b
  }

  function Fresh(sessionID: string, kind: SessionType): Job {
    Job(sessionID, kind, CalculatePriority(kind), 0)
  }

  /** The job after one more failed allocation. */
  function Failed(j: Job): Job {
    j.(failedAttempts := j.failedAttempts + 1, priority := Max(j.priority - 1, 0))
  }

  // -------------------------------------------------------------------- the queue as a multiset

  type Queue = multiset<Job>

  /** Priority decays in step with failures, and a job that would reach the limit is gone. */
  ghost predicate JobOk(j: Job) {
    j.priority + j.failedAttempts == CalculatePriority(j.kind) && 0 <= j.failedAttempts < 10
  }

  ghost predicate QueueOk(q: Queue) {
    forall j :: j in q ==> JobOk(j)
  }

  /** Nothing queued has a higher priority than j. */
  ghost predicate IsTop(q: Queue, j: Job) {
    j in q && forall o :: o in q ==> o.priority <= j.priority
  }

  /** What is left of a processed job: nothing when it was placed or failed for the last time. */
  function Requeued(j: Job, placed: bool): Queue {
    if placed || j.failedAttempts + 1 >= MAX_FAILURES then multiset{} else multiset{Failed(j)}
  }

  /** One processQueue: a top job is taken out and, unless it is done with, goes back decayed. */
  ghost predicate ProcessStep(q: Queue, j: Job, placed: bool, q': Queue) {
    IsTop(q, j) && q' == q - multiset{j} + Requeued(j, placed)
  }

  /** The clamp at zero never fires: a job that stays queued has priority left to lose. */
  lemma DecayIsExact(j: Job)
    requires JobOk(j) && j.failedAttempts + 1 < 10
    ensures Failed(j).priority == j.priority - 1 >= 0
    ensures JobOk(Failed(j))
  {
  }

  lemma ProcessKeepsQueueOk(q: Queue, j: Job, placed: bool, q': Queue)
    requires QueueOk(q) && ProcessStep(q, j, placed, q')
    ensures QueueOk(q')
  {
    if !placed && j.failedAttempts + 1 < 10 { DecayIsExact(j); }
  }

  /** The classes' priority bands do not meet: whatever their failures, a job of a higher class
      is ahead of every job of a lower one. */
  lemma BandsAreDisjoint(a: Job, b: Job)
    requires JobOk(a) && JobOk(b)
    ensures CalculatePriority(a.kind) > CalculatePriority(b.kind) <==> a.kind != b.kind && a.priority > b.priority
    ensures a.priority == b.priority ==> a.kind == b.kind && a.failedAttempts == b.failedAttempts
  {
  }

  /** A job is taken only when no job of a higher class is queued: gaming first, then remote support, desktops, host
      sessions and the rest; and within a class the one that failed least. */
  lemma HigherClassesGoFirst(q: Queue, j: Job, placed: bool, q': Queue)
    requires QueueOk(q) && ProcessStep(q, j, placed, q')
    ensures forall o :: o in q ==> CalculatePriority(o.kind) <= CalculatePriority(j.kind)
    ensures forall o :: o in q ==>
      match o.kind
      case Gaming => j.kind.Gaming?
      case RemoteSupport => j.kind.Gaming? || j.kind.RemoteSupport?
      case Desktop => !j.kind.HostSession? && !j.kind.Other?
      case HostSession => !j.kind.Other?
      case Other => true
    ensures forall o :: o in q && o.kind == j.kind ==> o.failedAttempts >= j.failedAttempts
  {
    forall o | o in q ensures CalculatePriority(o.kind) <= CalculatePriority(j.kind) {
      BandsAreDisjoint(o, j);
    }
  }

  /** What a job that never finds a host goes through, alone in the queue: nine times it comes back with one point less,
      starting from the points of its class, and the tenth time it is gone. */
  lemma {:induction false} TenAttempts(qs: seq<Queue>, js: seq<Job>, id: string, kind: SessionType, i: nat)
    requires i < |qs| && |qs| <= |js| + 1 && i <= 10 && qs[0] == multiset{Fresh(id, kind)}
    requires forall k :: 0 <= k < i ==> ProcessStep(qs[k], js[k], false, qs[k + 1])
    ensures
      var points := match kind case Gaming => 100 case RemoteSupport => 75 case Desktop => 50 case HostSession => 25 case Other => 10;
      qs[i] == if i < 10 then multiset{Job(id, kind, points - i, i)} else multiset{}
  {
    hide ProcessStep;
    if i > 0 {
      var points := CalculatePriority(kind);
      var job := Job(id, kind, points - (i - 1), i - 1);
      TenAttempts(qs, js, id, kind, i - 1);
      assert qs[i - 1] == multiset{job};
      AloneInTheQueue(job, js[i - 1], qs[i]);
      assert i < 10 ==> Failed(job) == Job(id, kind, points - i, i);
    }
  }

  lemma AloneInTheQueue(j: Job, o: Job, q': Queue)
    requires ProcessStep(multiset{j}, o, false, q')
    ensures q' == Requeued(j, false)
  {
    assert multiset{j} - multiset{j} == multiset{};
  }

  // ------------------------------------------------------------------------------------- drain

  function AttemptsLeft(j: Job): nat {
    if j.failedAttempts < 10 then 10 - j.failedAttempts else 0
  }

  ghost function Potential(q: Queue): nat {
    if q == multiset{} then 0 else
    var j :| j in q;
    AttemptsLeft(j) + Potential(q - multiset{j})
  }

  lemma PotentialPicks(q: Queue) returns (k: Job)
    requires q != multiset{}
    ensures k in q && Potential(q) == AttemptsLeft(k) + Potential(q - multiset{k})
  {
    hide AttemptsLeft;
    k :| k in q && Potential(q) == AttemptsLeft(k) + Potential(q - multiset{k});
  }

  lemma {:induction false} PotentialWithout(q: Queue, j: Job)
    requires j in q
    ensures Potential(q) == AttemptsLeft(j) + Potential(q - multiset{j})
    decreases |q|
  {
    hide Potential, AttemptsLeft;
    var k := PotentialPicks(q);
    if k != j {
      PotentialWithout(q - multiset{k}, j);
      PotentialWithout(q - multiset{j}, k);
      assert q - multiset{k} - multiset{j} == q - multiset{j} - multiset{k};
    }
  }

  /** Every processed job uses up attempts, whatever the allocator answers. */
  lemma ProcessDrains(q: Queue, j: Job, placed: bool, q': Queue)
    requires QueueOk(q) && ProcessStep(q, j, placed, q')
    ensures Potential(q') < Potential(q)
  {
    PotentialWithout(q, j);
    if Requeued(j, placed) != multiset{} {
      PotentialWithout(q', Failed(j));
      assert q' - multiset{Failed(j)} == q - multiset{j};
    } else {
      assert q' == q - multiset{j};
    }
  }

  /** A run of processQueue calls without new arrivals; calls on the empty queue do nothing. */
  ghost predicate Drain(qs: seq<Queue>) {
    && |qs| > 0
    && forall i :: 0 <= i < |qs| - 1 ==> DrainStep(qs[i], qs[i + 1])
  }

  ghost predicate DrainStep(q: Queue, q': Queue) {
    if q == multiset{} then q' == q else exists j, placed :: ProcessStep(q, j, placed, q')
  }

  lemma {:induction false} DrainProgress(qs: seq<Queue>, i: nat)
    requires Drain(qs) && QueueOk(qs[0]) && i < |qs|
    ensures QueueOk(qs[i])
    ensures qs[i] == multiset{} || Potential(qs[i]) + i <= Potential(qs[0])
  {
    if i > 0 {
      DrainProgress(qs, i - 1);
      if qs[i - 1] != multiset{} {
        var j, placed :| ProcessStep(qs[i - 1], j, placed, qs[i]);
        ProcessKeepsQueueOk(qs[i - 1], j, placed, qs[i]);
        ProcessDrains(qs[i - 1], j, placed, qs[i]);
      }
    }
  }

  /** Without new arrivals the queue is empty after at most as many calls as attempts were left. */
  lemma DrainEmpties(qs: seq<Queue>)
    requires Drain(qs) && QueueOk(qs[0]) && |qs| > Potential(qs[0])
    ensures qs[|qs| - 1] == multiset{}
  {
    DrainProgress(qs, |qs| - 1);
  }

  // ---------------------------------------------------------------------------------- the heap

  lemma LessIsStrictWeak()
    ensures StrictWeak(Less)
  {
  }

  class SessionScheduler {
    var queue: seq<Slot<Job>>

    ghost function Jobs(): Queue
      reads this, queue`value
    {
      multiset(Values(queue))
    }

    ghost predicate Valid()
      reads this, queue
    {
      IsHeap(queue, Less) && QueueOk(Jobs())
    }

    constructor ()
      ensures Valid() && Jobs() == multiset{} && queue == []
    {
      queue := [];
    }

    method Enqueue(sessionID: string, kind: SessionType)
      requires Valid()
      modifies this, (set s | s in queue)`index
      ensures Valid() && Jobs() == old(Jobs()) + multiset{Fresh(sessionID, kind)}
      ensures forall s :: s in queue ==> s in old(queue) || fresh(s)
    {
      var queued := new Slot(Fresh(sessionID, kind));
      PushBack(queued);
    }

    /** Take out the first job of the slice that has this session ID. */
    method Dequeue(sessionID: string) returns (ghost removed: Queue)
      requires Valid()
      modifies this, (set s | s in queue)`index
      ensures Valid() && Jobs() + removed == old(Jobs())
      ensures removed == multiset{} ==> forall j :: j in old(Jobs()) ==> j.sessionID != sessionID
      ensures removed != multiset{} ==> exists j: Job :: j.sessionID == sessionID && removed == multiset{j}
      ensures forall s :: s in queue ==> s in old(queue)
    {
      hide IsHeap, QueueOk;
      for i := 0 to |queue|
        invariant Valid() && Jobs() == old(Jobs()) && queue == old(queue)
        invariant forall k :: 0 <= k < i ==> queue[k].value.sessionID != sessionID
      {
        if queue[i].value.sessionID == sessionID {
          hide Values;
          var x := RemoveAt(i);
          return multiset{x.value};
        }
      }
      forall j | j in Jobs() ensures j.sessionID != sessionID {
        var k :| 0 <= k < |queue| && Values(queue)[k] == j;
      }
      return multiset{};
    }

    method RemoveAt(i: nat) returns (x: Slot<Job>)
      requires Valid() && i < |queue|
      modifies this, (set s | s in queue)`index
      ensures Valid() && x == old(queue)[i] && Jobs() + multiset{x.value} == old(Jobs())
      ensures forall s :: s in queue ==> s in old(queue)
    {
      LessIsStrictWeak();
      hide IsHeap, StrictWeak, Values, QueueOk;
      ghost var before := queue;
      var rest;
      x, rest := Remove(queue, Less, i);
      SplitValues(before, rest, x);
      PartIsOk(multiset(Values(before)), multiset(Values(rest)), x.value);
      queue := rest;
    }

    /** Take the top job, ask the allocator, and requeue the job if it failed and may try again. */
    method ProcessQueue(placed: bool) returns (ghost job: Job)
      requires Valid()
      modifies this, queue
      ensures Valid()
      ensures old(Jobs()) == multiset{} ==> Jobs() == multiset{}
      ensures old(Jobs()) != multiset{} ==> ProcessStep(old(Jobs()), job, placed, Jobs())
      ensures forall s :: s in queue ==> s in old(queue)
    {
      hide IsHeap, StrictWeak, Values, IsTop, QueueOk;
      job := Fresh("", Other);
      NoneQueued();
      if |queue| == 0 {
        return;
      }
      var queued := PopTop();
      job := queued.value;
      TopIsOk(old(Jobs()), job);
      if !placed {
        Retry(queued);
      }
    }

    lemma NoneQueued()
      ensures queue == [] <==> Jobs() == multiset{}
    {
      if queue != [] { assert Values(queue)[0] in Jobs(); }
    }

    /** What processQueue does with a job that could not be placed. */
    method Retry(queued: Slot<Job>)
      requires Valid() && queued !in queue && JobOk(queued.value)
      modifies this, (set s | s in queue)`index, queued
      ensures Valid() && Jobs() == old(Jobs()) + Requeued(old(queued.value), false)
      ensures forall s :: s in queue ==> s in old(queue) || s == queued
    {
      hide IsHeap, Values, QueueOk;
      ghost var job := queued.value;
      queued.value := queued.value.(failedAttempts := queued.value.failedAttempts + 1);
      if queued.value.failedAttempts >= MAX_FAILURES {
        return;
      }
      DecayIsExact(job);
      queued.value := queued.value.(priority := Max(queued.value.priority - 1, 0));
      PushBack(queued);
    }

    /** The locked heap.Pop at the head of processQueue. */
    method PopTop() returns (queued: Slot<Job>)
      requires Valid() && |queue| > 0
      modifies this, (set s | s in queue)`index
      ensures Valid() && queued !in queue && queued in old(queue)
      ensures forall s :: s in queue ==> s in old(queue)
      ensures IsTop(old(Jobs()), queued.value) && Jobs() + multiset{queued.value} == old(Jobs())
    {
      LessIsStrictWeak();
      hide IsHeap, StrictWeak, Values, QueueOk, IsTop;
      ghost var before := queue;
      var rest;
      queued, rest := Pop(queue, Less);
      TopTakenOut(before, rest, queued);
      queue := rest;
    }

    /** The locked heap.Push at its end. */
    method PushBack(queued: Slot<Job>)
      requires Valid() && queued !in queue && JobOk(queued.value)
      modifies this, (set s | s in queue)`index, queued`index
      ensures Valid() && Jobs() == old(Jobs()) + multiset{queued.value}
      ensures forall s :: s in queue ==> s in old(queue) || s == queued
    {
      LessIsStrictWeak();
      hide IsHeap, StrictWeak, Values;
      ghost var before := queue;
      queue := Push(queue, Less, queued);
      SplitValues(queue, before, queued);
    }
  }

  lemma PartIsOk(q: Queue, p: Queue, j: Job)
    requires QueueOk(q) && p + multiset{j} == q
    ensures QueueOk(p)
  {
    forall o | o in p ensures o in q {}
  }

  lemma TopIsOk(q: Queue, j: Job)
    requires QueueOk(q) && IsTop(q, j)
    ensures JobOk(j)
  {
  }

  lemma TopTakenOut(before: seq<Slot<Job>>, rest: seq<Slot<Job>>, top: Slot<Job>)
    requires top in before && forall s :: s in before ==> !Less(s.value, top.value)
    requires multiset(rest) + multiset{top} == multiset(before)
    ensures IsTop(multiset(Values(before)), top.value)
    ensures multiset(Values(rest)) + multiset{top.value} == multiset(Values(before))
    ensures QueueOk(multiset(Values(before))) ==> QueueOk(multiset(Values(rest)))
  {
    hide Values, IsTop, QueueOk;
    TopOfValues(before, top);
    SplitValues(before, rest, top);
    if QueueOk(multiset(Values(before))) {
      PartIsOk(multiset(Values(before)), multiset(Values(rest)), top.value);
    }
  }

  lemma TopOfValues(q: seq<Slot<Job>>, top: Slot<Job>)
    requires top in q && forall s :: s in q ==> !Less(s.value, top.value)
    ensures IsTop(multiset(Values(q)), top.value)
  {
    var k :| 0 <= k < |q| && q[k] == top;
    assert Values(q)[k] == top.value;
    forall o | o in multiset(Values(q)) ensures o.priority <= top.value.priority {
      var i :| 0 <= i < |q| && Values(q)[i] == o;
      assert q[i] in q;
    }
  }
}
