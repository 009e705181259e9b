/** What the agent pool guarantees over every run: ownership, wakeups, stranding and order. */
module AgentTunnelProperties {
  import opened AgentTunnels
  import opened Collections
  import opened AgentTunnelProtocol
  import opened AgentTunnelInvariant

  // ------------------------------------------------------------------------------ ownership

  lemma LocatedAt(s: State, loc: map<ConnId, Place>, c: ConnId, p: Place)
    requires Located(s, loc)
    ensures At(s, c, p) <==> c in loc && loc[c] == p
  {
    match p
    case Idle(_) => hide AddersAgree, SlotsAgree, TakersAgree, DeadAgree, ReapersAgree;
    case BoundTo(_) => hide IdleAgrees, SlotsAgree, TakersAgree, DeadAgree, ReapersAgree;
    case InSlot(_) => hide IdleAgrees, AddersAgree, TakersAgree, DeadAgree, ReapersAgree;
    case FoundDead => hide IdleAgrees, AddersAgree, SlotsAgree, TakersAgree, ReapersAgree;
    case Reaped => hide IdleAgrees, AddersAgree, SlotsAgree, TakersAgree, DeadAgree;
    case _ => hide IdleAgrees, AddersAgree, SlotsAgree, DeadAgree, ReapersAgree;
  }

  /** In every reachable state each connection ever handed to add is in exactly one place. */
  lemma ExactlyOnePlace(ss: seq<State>, acts: seq<Action>, i: nat, c: ConnId)
    requires Run(ss, acts) && i < |ss|
    ensures c in ss[i].adders <==> exists p :: At(ss[i], c, p)
    ensures forall p, q :: At(ss[i], c, p) && At(ss[i], c, q) ==> p == q
  {
    InvHolds(ss, acts, i);
    hide Step;
    OnePlace(ss[i], c);
  }

  lemma OnePlace(s: State, c: ConnId)
    requires Inv(s)
    ensures c in s.adders <==> exists p :: At(s, c, p)
    ensures forall p, q :: At(s, c, p) && At(s, c, q) ==> p == q
  {
    var loc: map<ConnId, Place>, ph: map<WaiterId, Phase> :| Located(s, loc) && Phased(s, ph);
    forall p ensures At(s, c, p) <==> c in loc && loc[c] == p {
      LocatedAt(s, loc, c, p);
    }
    hide At, Phased, IdleAgrees, SlotsAgree, TakersAgree, DeadAgree, ReapersAgree, PoolOk;
    if c in loc { assert At(s, c, loc[c]); }
  }

  /** A place that is never left: the call has returned or the connection is closed. */
  ghost predicate Final(p: Place) {
    p.TakenBy? || p.FoundDead? || p.Reaped?
  }

  lemma FinalStays(s: State, a: Action, s': State, c: ConnId, p: Place)
    requires PoolOk(s) && Step(s, a, s') && At(s, c, p) && Final(p)
    ensures At(s', c, p)
  {
    hide RouteBecomes, ListsOk;
    match p
    case Reaped => hide WaitersOf, IdleOf, Without;
    case _ => hide ParkedOk, WaitersOf, IdleOf, Without;
  }

  lemma {:induction false} FinalForever(ss: seq<State>, acts: seq<Action>, i: nat, j: nat, c: ConnId, p: Place)
    requires Run(ss, acts) && i <= j < |ss| && At(ss[i], c, p) && Final(p)
    ensures At(ss[j], c, p)
  {
    hide At, Step;
    if i < j {
      InvHolds(ss, acts, j - 1);
      FinalForever(ss, acts, i, j - 1, c, p);
      FinalStays(ss[j - 1], acts[j - 1], ss[j], c, p);
    }
  }

  /** Over a whole run a connection that take returned is returned by no other take, is never
      closed by its cancel goroutine, and is never closed as dead: not before, not after. */
  lemma TakenOnceAndKept(ss: seq<State>, acts: seq<Action>, i: nat, j: nat, c: ConnId, t: TakerId)
    requires Run(ss, acts) && i < |ss| && j < |ss| && TakerAt(ss[i], t, Took(c))
    ensures forall u :: TakerAt(ss[j], u, Took(c)) ==> u == t
    ensures c in ss[j].reapers ==> ss[j].reapers[c] !in {Removed, Closed}
    ensures c !in ss[j].dead
    ensures i <= j ==> TakerAt(ss[j], t, Took(c))
  {
    var k := if i <= j then j else i;
    assert At(ss[i], c, TakenBy(t));
    FinalForever(ss, acts, i, k, c, TakenBy(t));
    ExactlyOnePlace(ss, acts, k, c);
    forall p | Final(p) && At(ss[j], c, p) ensures p == TakenBy(t) {
      FinalForever(ss, acts, j, k, c, p);
    }
    hide Step;
    forall u | TakerAt(ss[j], u, Took(c)) ensures u == t {
      assert At(ss[j], c, TakenBy(u)) && Final(TakenBy(u));
    }
    if c in ss[j].reapers && ss[j].reapers[c] in {Removed, Closed} {
      assert At(ss[j], c, Reaped) && Final(Reaped);
      assert false;
    }
    if c in ss[j].dead {
      assert At(ss[j], c, FoundDead) && Final(FoundDead);
      assert false;
    }
  }

  // -------------------------------------------------------------------------------- wakeups

  /** A channel that w names is there, open, and its slot is empty or not. */
  ghost predicate OpenSlot(s: State, w: WaiterId, empty: bool) {
    w in s.channels && !s.channels[w].closed && (empty ==> s.channels[w].buffer == [])
  }

  /** In every reachable state a route does not have both an idle connection and a registered
      waiter; a pending send finds its slot empty and open, so it never blocks; a pending close
      finds the channel open, so none is closed twice; each slot holds at most one connection,
      and its channel is closed exactly when the add that filled it has returned; and no select
      waits on a channel that is empty and closed. */
  lemma WakeupsAreSound(ss: seq<State>, acts: seq<Action>, i: nat)
    requires Run(ss, acts) && i < |ss|
    ensures forall r :: IdleOf(ss[i].pool, r) == [] || WaitersOf(ss[i].pool, r) == {}
    ensures forall c :: c in ss[i].adders && ss[i].adders[c].Sending? ==> OpenSlot(ss[i], ss[i].adders[c].waiter, true)
    ensures forall c :: c in ss[i].adders && ss[i].adders[c].Closing? ==> OpenSlot(ss[i], ss[i].adders[c].waiter, false)
    ensures forall w :: w in ss[i].channels ==> |ss[i].channels[w].buffer| <= 1
    ensures forall w, c :: w in ss[i].channels && c in ss[i].channels[w].buffer ==>
      c in ss[i].adders && (ss[i].channels[w].closed <==> ss[i].adders[c] == Done)
    ensures forall t :: t in ss[i].takers && ss[i].takers[t].pc.Waiting? ==>
      var w := ss[i].takers[t].pc.waiter;
      w in ss[i].channels && !(ss[i].channels[w].closed && ss[i].channels[w].buffer == [])
  {
    InvHolds(ss, acts, i);
    hide Step;
    SendsGoThrough(ss[i]);
    SlotsAreClosed(ss[i]);
    SelectsAreServed(ss[i]);
    hide Phased, Located;
  }

  lemma SendsGoThrough(s: State)
    requires Inv(s)
    ensures forall c :: c in s.adders && s.adders[c].Sending? ==> OpenSlot(s, s.adders[c].waiter, true)
    ensures forall c :: c in s.adders && s.adders[c].Closing? ==> OpenSlot(s, s.adders[c].waiter, false)
    ensures forall w :: w in s.channels ==> |s.channels[w].buffer| <= 1
  {
    hide PoolOk, Located, WaitersPhased, TakersPhased;
    var loc: map<ConnId, Place>, ph: map<WaiterId, Phase> :| Located(s, loc) && Phased(s, ph);
  }

  lemma SlotsAreClosed(s: State)
    requires Inv(s)
    ensures forall w, c :: w in s.channels && c in s.channels[w].buffer ==>
      c in s.adders && (s.channels[w].closed <==> s.adders[c] == Done)
  {
    hide PoolOk, Located, WaitersPhased, TakersPhased;
    var loc: map<ConnId, Place>, ph: map<WaiterId, Phase> :| Located(s, loc) && Phased(s, ph);
  }

  lemma SelectsAreServed(s: State)
    requires Inv(s)
    ensures forall t :: t in s.takers && s.takers[t].pc.Waiting? ==>
      var w := s.takers[t].pc.waiter;
      w in s.channels && !(s.channels[w].closed && s.channels[w].buffer == [])
  {
    hide PoolOk, Located, WaitersPhased, AddersPhased;
    var loc: map<ConnId, Place>, ph: map<WaiterId, Phase> :| Located(s, loc) && Phased(s, ph);
  }

  lemma SelectsGetNoNil(s: State)
    requires Inv(s)
    ensures forall t, s' :: !ReceiveNilStep(s, t, s')
  {
    hide PoolOk, Located, Phased, ReceiveNilStep;
    var loc: map<ConnId, Place>, ph: map<WaiterId, Phase> :| Located(s, loc) && Phased(s, ph);
    forall t, s' ensures !ReceiveNilStep(s, t, s') { NilNeverArrives(s, t, ph); }
  }

  /** c is bound to the channel w, or already in its slot. */
  ghost predicate OnTheWay(s: State, c: ConnId, w: WaiterId) {
    At(s, c, BoundTo(w)) || At(s, c, InSlot(w))
  }

  /** A take call in its select is registered, or exactly one connection is on its way to it. */
  lemma WaitingIsServed(s: State, t: TakerId, w: WaiterId)
    requires Inv(s) && OnChannel(s.takers, t, w)
    ensures w in s.channels && s.channels[w].maker == t
    ensures w in WaitersOf(s.pool, s.takers[t].route) <==> !exists c :: OnTheWay(s, c, w)
    ensures forall c, d :: OnTheWay(s, c, w) && OnTheWay(s, d, w) ==> c == d
  {
    hide PoolOk, Located;
    var loc: map<ConnId, Place>, ph: map<WaiterId, Phase> :| Located(s, loc) && Phased(s, ph);
    ChannelHolds(s, ph, w);
    hide WaitersPhased, AddersPhased, ChannelsPhased;
    if ph[w].Registered? {
      assert w in WaitersOf(s.pool, s.takers[t].route);
    } else {
      assert OnTheWay(s, ph[w].c, w);
    }
  }

  /** Which connection is on its way through a channel is what the channel's phase says. */
  lemma ChannelHolds(s: State, ph: map<WaiterId, Phase>, w: WaiterId)
    requires Phased(s, ph)
    ensures forall c :: At(s, c, BoundTo(w)) <==> w in ph && ph[w] == Bound(c)
    ensures forall c :: At(s, c, InSlot(w)) <==> w in ph && ph[w] == Delivered(c)
    ensures forall r :: w in WaitersOf(s.pool, r) <==> w in ph && ph[w] == Registered(r)
  {
    hide TakersPhased;
  }

  // ------------------------------------------------------------------------------ stranding

  /** A connection on its way to a waiter whose take call is no longer in, or behind, its select. */
  ghost predicate Stranded(s: State, c: ConnId, w: WaiterId) {
    && OnTheWay(s, c, w)
    && w in s.channels && !OnChannel(s.takers, s.channels[w].maker, w)
  }

  lemma LeavingTheChannel(s: State, a: Action, s': State, t: TakerId, w: WaiterId)
    requires Step(s, a, s') && OnChannel(s.takers, t, w) && !OnChannel(s'.takers, t, w)
    ensures (a == Receive(t) && s.takers[t].pc == Waiting(w)) || a == ReceiveNil(t)
         || (a == Leave(t) && s.takers[t].pc == Leaving(w))
  {
    hide RouteBecomes;
  }

  lemma MakersStay(s: State, a: Action, s': State, w: WaiterId)
    requires Step(s, a, s') && w in s.channels
    ensures w in s'.channels && s'.channels[w].maker == s.channels[w].maker
  {
    hide RouteBecomes;
  }

  lemma NoNilStep(s: State, a: Action, s': State, ph: map<WaiterId, Phase>)
    requires Phased(s, ph) && Step(s, a, s')
    ensures !a.ReceiveNil?
  {
    hide Phased, RouteBecomes;
    if a.ReceiveNil? { NilNeverArrives(s, a.t, ph); }
  }

  /** A channel with a connection on its way had its maker in the select when the step began,
      unless that connection was already on its way. */
  lemma ComesFromWaiting(s: State, a: Action, s': State, ph: map<WaiterId, Phase>, c: ConnId, w: WaiterId)
    requires Phased(s, ph) && Step(s, a, s')
    requires var ph' := Rephase(s, a, s', ph); w in ph' && ph'[w] in {Bound(c), Delivered(c)}
    ensures w in ph && w in s.channels
    ensures ph[w] in {Bound(c), Delivered(c)} || (a.AddDeliver? && OnChannel(s.takers, s.channels[w].maker, w))
    ensures a.Receive? && a.t in s.takers ==> s.takers[a.t].pc != Waiting(w)
    ensures a.AddDeliver? ==> s'.takers == s.takers
  {
    hide RouteBecomes;
  }

  /** Exactly one thing strands a connection: the take call's context expired, and before the
      call could unregister its channel an add had already bound the connection to it. */
  lemma OnlyTheRaceStrands(s: State, a: Action, s': State, c: ConnId, w: WaiterId)
    requires Inv(s) && Step(s, a, s')
    requires !Stranded(s, c, w) && Stranded(s', c, w)
    ensures a.Leave? && a.t in s.takers && s.takers[a.t].pc == Leaving(w)
    ensures OnTheWay(s, c, w)
    ensures w !in WaitersOf(s.pool, s.takers[a.t].route)
  {
    hide Step, Rephase, PoolOk, Located, Phased, At;
    var loc: map<ConnId, Place>, ph: map<WaiterId, Phase> :| Located(s, loc) && Phased(s, ph);
    StepPhases(s, a, s', ph);
    ChannelHolds(s, ph, w);
    ChannelHolds(s', Rephase(s, a, s', ph), w);
    ComesFromWaiting(s, a, s', ph, c, w);
    MakersStay(s, a, s', w);
    var t := s.channels[w].maker;
    LeavingTheChannel(s, a, s', t, w);
    NoNilStep(s, a, s', ph);
  }

  /** An expired take call that unregisters leaves a connection stranded if and only if its
      channel was no longer registered, and then exactly the one that was on its way. */
  lemma LeaveStrandsExactlyWhenBound(s: State, t: TakerId, s': State, w: WaiterId)
    requires Inv(s) && LeaveStep(s, t, s') && s.takers[t].pc == Leaving(w)
    ensures (exists c :: Stranded(s', c, w)) <==> w !in WaitersOf(s.pool, s.takers[t].route)
    ensures forall c :: Stranded(s', c, w) <==> OnTheWay(s, c, w)
  {
    hide Inv, RouteBecomes;
    WaitingIsServed(s, t, w);
    assert forall c :: OnTheWay(s', c, w) == OnTheWay(s, c, w);
    hide OnTheWay;
    assert forall c :: Stranded(s', c, w) <==> OnTheWay(s, c, w);
  }

  /** A stranded connection stays stranded: no take ever returns it, nothing ever closes it. */
  lemma StrandedStays(s: State, a: Action, s': State, c: ConnId, w: WaiterId)
    requires Inv(s) && Step(s, a, s') && Stranded(s, c, w)
    ensures Stranded(s', c, w)
  {
    hide PoolOk, Located, Phased, Step, OnTheWay, OnChannel;
    var loc: map<ConnId, Place>, ph: map<WaiterId, Phase> :| Located(s, loc) && Phased(s, ph);
    NobodyComesBack(s, a, s', ph, w);
    MakersStay(s, a, s', w);
    StillOnTheWay(s, a, s', ph, c, w);
  }

  lemma StillOnTheWay(s: State, a: Action, s': State, ph: map<WaiterId, Phase>, c: ConnId, w: WaiterId)
    requires Phased(s, ph) && Step(s, a, s') && OnTheWay(s, c, w)
    requires a.Receive? && a.t in s.takers ==> s.takers[a.t].pc != Waiting(w)
    ensures OnTheWay(s', c, w)
  {
    hide Phased, RouteBecomes;
  }

  lemma NobodyComesBack(s: State, a: Action, s': State, ph: map<WaiterId, Phase>, w: WaiterId)
    requires Phased(s, ph) && Step(s, a, s') && w in s.channels && !OnChannel(s.takers, s.channels[w].maker, w)
    ensures !OnChannel(s'.takers, s.channels[w].maker, w)
    ensures a.Receive? && a.t in s.takers ==> s.takers[a.t].pc != Waiting(w)
  {
    hide WaitersPhased, AddersPhased, ChannelsPhased, RouteBecomes;
  }

  lemma {:induction false} StrandedForever(ss: seq<State>, acts: seq<Action>, i: nat, j: nat, c: ConnId, w: WaiterId)
    requires Run(ss, acts) && i <= j < |ss| && Stranded(ss[i], c, w)
    ensures Stranded(ss[j], c, w)
    ensures c !in ss[j].dead && !At(ss[j], c, Reaped)
    ensures forall t :: !TakerAt(ss[j], t, Took(c))
  {
    hide Step, Stranded;
    if i < j {
      StrandedForever(ss, acts, i, j - 1, c, w);
      InvHolds(ss, acts, j - 1);
      StrandedStays(ss[j - 1], acts[j - 1], ss[j], c, w);
    }
    InvHolds(ss, acts, j);
    StrandedNotTaken(ss[j], c, w);
  }

  lemma StrandedNotTaken(s: State, c: ConnId, w: WaiterId)
    requires Inv(s) && Stranded(s, c, w)
    ensures c !in s.dead && !At(s, c, Reaped)
    ensures forall t :: !TakerAt(s, t, Took(c))
  {
    OnePlace(s, c);
    hide Inv;
    assert c in s.dead ==> At(s, c, FoundDead);
    assert forall t :: TakerAt(s, t, Took(c)) ==> At(s, c, TakenBy(t));
    hide At;
  }

  /** The state in which one take call waits on w, and nothing else has happened. */
  ghost function OneWaiter(r: Route, t: TakerId, w: WaiterId): State {
    INITIAL.(takers := map[t := Taker(r, Waiting(w))], pool := Pool(map[], map[r := {w}]),
             channels := map[w := Channel(t, [], false)])
  }

  lemma OneTakeWaits(r: Route, t: TakerId, w: WaiterId) returns (s: State)
    ensures Step(INITIAL, StartTake(t, r), s) && Step(s, Register(t, w), OneWaiter(r, t, w))
  {
    s := INITIAL.(takers := map[t := Taker(r, Looping)]);
    var s' := OneWaiter(r, t, w);
    assert s' == Goto(s, t, Waiting(w)).(pool := s'.pool, channels := s'.channels);
    assert RouteBecomes(s.pool, s'.pool, r, [], {w});
  }

  /** From there the connection c is bound to the channel, the context ends and the call leaves. */
  lemma BoundThenLeft(r: Route, t: TakerId, w: WaiterId, c: ConnId) returns (s1: State, s2: State, s3: State)
    ensures Step(OneWaiter(r, t, w), AddDeliver(c, r, w), s1) && Step(s1, Expire(t), s2) && Step(s2, Leave(t), s3)
    ensures Stranded(s3, c, w)
  {
    var s := OneWaiter(r, t, w);
    s1 := s.(pool := Pool(map[], map[]), adders := map[c := Sending(w)], routes := map[c := r]);
    s2 := Goto(s1, t, Leaving(w));
    s3 := Goto(s2, t, TimedOut);
    assert RouteBecomes(s.pool, s1.pool, r, [], {});
    assert RouteBecomes(s2.pool, s3.pool, r, [], {});
  }

  /** The race happens: a take call registers, a new connection is bound to its channel, the
      call's context expires and it leaves before the send. */
  lemma RaceStrands(r: Route, t: TakerId, w: WaiterId, c: ConnId) returns (ss: seq<State>, acts: seq<Action>)
    ensures acts == [StartTake(t, r), Register(t, w), AddDeliver(c, r, w), Expire(t), Leave(t)]
    ensures Run(ss, acts) && Stranded(ss[5], c, w)
  {
    var s1 := OneTakeWaits(r, t, w);
    var s2 := OneWaiter(r, t, w);
    var s3, s4, s5 := BoundThenLeft(r, t, w, c);
    hide Step, Stranded, OneWaiter;
    ss := [INITIAL, s1, s2, s3, s4, s5];
    acts := [StartTake(t, r), Register(t, w), AddDeliver(c, r, w), Expire(t), Leave(t)];
  }

  // ------------------------------------------------------------------------------------ FIFO

  /** c is ahead of d in the list l. */
  ghost predicate Ahead(l: seq<ConnId>, c: ConnId, d: ConnId) {
    exists i, j :: 0 <= i < j < |l| && l[i] == c && l[j] == d
  }

  lemma {:induction false} WithoutKeepsOrder(l: seq<ConnId>, x: ConnId, i: nat, j: nat) returns (m: nat, n: nat)
    requires i < j < |l| && l[i] != x && l[j] != x
    ensures m < n < |Without(l, x)| && Without(l, x)[m] == l[i] && Without(l, x)[n] == l[j]
    decreases l
  {
    if l[0] == x {
      m, n := i - 1, j - 1;
    } else if i == 0 {
      m := 0;
      n := WithoutKeeps(l[1..], x, j - 1);
      n := n + 1;
    } else {
      m, n := WithoutKeepsOrder(l[1..], x, i - 1, j - 1);
      m, n := m + 1, n + 1;
    }
  }

  lemma {:induction false} WithoutKeeps(l: seq<ConnId>, x: ConnId, i: nat) returns (m: nat)
    requires i < |l| && l[i] != x
    ensures m < |Without(l, x)| && Without(l, x)[m] == l[i]
    decreases l
  {
    if l[0] == x {
      m := i - 1;
    } else if i == 0 {
      m := 0;
    } else {
      m := WithoutKeeps(l[1..], x, i - 1);
      m := m + 1;
    }
  }

  /** The ways in which a step may change one idle list. */
  ghost predicate ListStep(l: seq<ConnId>, l': seq<ConnId>) {
    || l' == l
    || (l != [] && l' == l[1..])
    || (exists x :: l' == l + [x])
    || (exists x :: l' == Without(l, x))
  }

  lemma StepsMoveLists(s: State, a: Action, s': State, r: Route)
    requires Step(s, a, s')
    ensures ListStep(IdleOf(s.pool, r), IdleOf(s'.pool, r))
  {
  }

  lemma ListKeepsOrder(l: seq<ConnId>, l': seq<ConnId>, c: ConnId, d: ConnId)
    requires NoDuplicates(l) && ListStep(l, l') && Ahead(l, c, d) && c in l' && d in l'
    ensures Ahead(l', c, d)
  {
    var i, j :| 0 <= i < j < |l| && l[i] == c && l[j] == d;
    if l != [] && l' == l[1..] {
      assert l'[j - 1] == d;
      var k :| 0 <= k < |l'| && l'[k] == c;
      assert l[k + 1] == c;
    } else if x :| l' == l + [x] {
      assert l'[i] == c && l'[j] == d;
    } else if x :| l' == Without(l, x) {
      WithoutMembers(l, x);
      var m, n := WithoutKeepsOrder(l, x, i, j);
    }
  }

  lemma IdleOnlyOnce(s: State, a: Action, s': State, r: Route, c: ConnId)
    requires PoolOk(s) && Step(s, a, s') && c in s.adders && c in IdleOf(s'.pool, r)
    ensures c in IdleOf(s.pool, r)
  {
    if a.Reap? { WithoutMembers(IdleOf(s.pool, s.routes[a.c]), a.c); }
  }

  lemma {:induction false} OrderPersists(ss: seq<State>, acts: seq<Action>, i: nat, j: nat, r: Route,
          c: ConnId, d: ConnId)
    requires Run(ss, acts) && i <= j < |ss| && Ahead(IdleOf(ss[i].pool, r), c, d)
    requires c in IdleOf(ss[j].pool, r) && d in IdleOf(ss[j].pool, r)
    ensures Ahead(IdleOf(ss[j].pool, r), c, d)
    decreases j
  {
    hide Step, PoolOk, Located, Phased, IdleOf, ListStep;
    if i < j {
      InvHolds(ss, acts, i);
      IdleWasAdded(ss[i], r, c, d);
      AddedForever(ss, acts, i, j - 1, c);
      AddedForever(ss, acts, i, j - 1, d);
      InvHolds(ss, acts, j - 1);
      var s, a, s' := ss[j - 1], acts[j - 1], ss[j];
      IdleOnlyOnce(s, a, s', r, c);
      IdleOnlyOnce(s, a, s', r, d);
      OrderPersists(ss, acts, i, j - 1, r, c, d);
      StepsMoveLists(s, a, s', r);
      ListsAreDistinct(s, r);
      ListKeepsOrder(IdleOf(s.pool, r), IdleOf(s'.pool, r), c, d);
    }
  }

  lemma ListsAreDistinct(s: State, r: Route)
    requires PoolOk(s)
    ensures NoDuplicates(IdleOf(s.pool, r))
  {
  }

  lemma IdleWasAdded(s: State, r: Route, c: ConnId, d: ConnId)
    requires PoolOk(s) && Ahead(IdleOf(s.pool, r), c, d)
    ensures c in s.adders && d in s.adders
  {
  }

  lemma {:induction false} AddedForever(ss: seq<State>, acts: seq<Action>, i: nat, j: nat, c: ConnId)
    requires Run(ss, acts) && i <= j < |ss| && c in ss[i].adders
    ensures c in ss[j].adders
  {
    hide Step;
    if i < j {
      AddedForever(ss, acts, i, j - 1, c);
      AddedStays(ss[j - 1], acts[j - 1], ss[j], c);
    }
  }

  lemma AddedStays(s: State, a: Action, s': State, c: ConnId)
    requires Step(s, a, s') && c in s.adders
    ensures c in s'.adders
  {
    hide RouteBecomes;
  }

  lemma IdleIsAdded(s: State, r: Route, c: ConnId)
    requires PoolOk(s) && c in IdleOf(s.pool, r)
    ensures c in s.adders
  {
  }

  lemma NewStandsBehind(s: State, a: Action, s': State, r: Route, c: ConnId, d: ConnId)
    requires PoolOk(s) && Step(s, a, s') && c in IdleOf(s.pool, r) && d !in s.adders
    requires c in IdleOf(s'.pool, r) && d in IdleOf(s'.pool, r)
    ensures Ahead(IdleOf(s'.pool, r), c, d)
  {
    NewIsParked(s, a, s', r, d);
    var l, l' := IdleOf(s.pool, r), IdleOf(s'.pool, r);
    var i :| 0 <= i < |l| && l[i] == c;
    hide PoolOk, Step, IdleOf;
    assert l'[i] == c && l'[|l|] == d;
  }

  lemma NewIsParked(s: State, a: Action, s': State, r: Route, d: ConnId)
    requires PoolOk(s) && Step(s, a, s') && d !in s.adders && d in IdleOf(s'.pool, r)
    ensures IdleOf(s'.pool, r) == IdleOf(s.pool, r) + [d]
  {
    if a.Reap? { WithoutMembers(IdleOf(s.pool, s.routes[a.c]), a.c); }
    hide ListsOk, Without;
  }

  /** Who is parked later stands further back: a connection that comes in while c is idle never gets ahead of it. */
  lemma {:induction false} ArrivalsQueueUp(ss: seq<State>, acts: seq<Action>, i: nat, j: nat, r: Route,
          c: ConnId, d: ConnId)
    requires Run(ss, acts) && i <= j < |ss| && c in IdleOf(ss[i].pool, r) && d !in ss[i].adders
    requires c in IdleOf(ss[j].pool, r) && d in IdleOf(ss[j].pool, r)
    ensures Ahead(IdleOf(ss[j].pool, r), c, d)
    decreases j
  {
    hide Step, PoolOk, Located, Phased, IdleOf, ListStep, Ahead;
    InvHolds(ss, acts, i);
    IdleIsAdded(ss[i], r, c);
    InvHolds(ss, acts, j);
    IdleIsAdded(ss[j], r, d);
    AddedForever(ss, acts, i, j - 1, c);
    InvHolds(ss, acts, j - 1);
    var s, a, s' := ss[j - 1], acts[j - 1], ss[j];
    IdleOnlyOnce(s, a, s', r, c);
    if d in s.adders {
      IdleOnlyOnce(s, a, s', r, d);
      ArrivalsQueueUp(ss, acts, i, j - 1, r, c, d);
      StepsMoveLists(s, a, s', r);
      ListsAreDistinct(s, r);
      ListKeepsOrder(IdleOf(s.pool, r), IdleOf(s'.pool, r), c, d);
    } else {
      NewStandsBehind(s, a, s', r, c, d);
    }
  }

  lemma PopTakesHead(s: State, t: TakerId, s': State)
    requires PopStep(s, t, s')
    ensures IdleOf(s.pool, s.takers[t].route) != []
    ensures TakerAt(s', t, Probing(IdleOf(s.pool, s.takers[t].route)[0]))
  {
    hide RouteBecomes;
  }

  /** Idle connections leave first in, first out: when a pop hands out d, no connection that was
      ever ahead of d in the same route's list is still idle. */
  lemma PopsAreFifo(ss: seq<State>, acts: seq<Action>, i: nat, j: nat, r: Route, c: ConnId, d: ConnId)
    requires Run(ss, acts) && i <= j < |acts| && Ahead(IdleOf(ss[i].pool, r), c, d)
    requires acts[j].Pop? && acts[j].t in ss[j].takers && ss[j].takers[acts[j].t].route == r
    requires TakerAt(ss[j + 1], acts[j].t, Probing(d))
    ensures c !in IdleOf(ss[j].pool, r)
  {
    InvHolds(ss, acts, j);
    PopTakesHead(ss[j], acts[j].t, ss[j + 1]);
    if c in IdleOf(ss[j].pool, r) {
      ListsAreDistinct(ss[j], r);
      hide Step, Run, Located, Phased, PoolOk;
      OrderPersists(ss, acts, i, j, r, c, d);
      assert false;
    }
  }
}
