/** What one take call gets: the first live connection of its own route, and nothing only after its context ended. */
module AgentTunnelTakes {
  import opened AgentTunnels
  import opened Collections
  import opened AgentTunnelProtocol
  import opened AgentTunnelInvariant
  import opened AgentTunnelProperties

  // --------------------------------------------------------------------------- empty-handed

  ghost predicate GivingUp(s: State, t: TakerId) {
    t in s.takers && (s.takers[t].pc.Leaving? || s.takers[t].pc == TimedOut)
  }

  lemma OnlyExpiryGivesUp(s: State, a: Action, s': State, t: TakerId)
    requires Inv(s) && Step(s, a, s') && GivingUp(s', t) && !GivingUp(s, t)
    ensures a == Expire(t)
  {
    hide Inv, RouteBecomes;
  }

  lemma NilNeverComes(s: State, a: Action, s': State, t: TakerId)
    requires Inv(s) && Step(s, a, s') && TakerAt(s', t, GotNil)
    ensures TakerAt(s, t, GotNil)
  {
    if a.ReceiveNil? {
      SelectsGetNoNil(s);
      hide Inv, ReceiveNilStep;
    } else {
      NilWasThere(s, a, s', t);
    }
  }

  lemma NilWasThere(s: State, a: Action, s': State, t: TakerId)
    requires Step(s, a, s') && TakerAt(s', t, GotNil) && !a.ReceiveNil?
    ensures TakerAt(s, t, GotNil)
  {
    hide RouteBecomes, CanSend, CanClose, IdleOf, WaitersOf, Without;
  }

  /** A take returns without a connection only after its own context has ended. */
  lemma {:induction false} GivesUpOnlyExpired(ss: seq<State>, acts: seq<Action>, j: nat, t: TakerId)
    requires Run(ss, acts) && j < |ss|
    ensures !TakerAt(ss[j], t, GotNil)
    ensures GivingUp(ss[j], t) ==> exists i :: 0 <= i < j && acts[i] == Expire(t)
  {
    hide Step, GivingUp;
    if j == 0 {
      assert !GivingUp(INITIAL, t) by { NobodyAtFirst(t); }
    } else {
      GivesUpOnlyExpired(ss, acts, j - 1, t);
      InvHolds(ss, acts, j - 1);
      if TakerAt(ss[j], t, GotNil) {
        NilNeverComes(ss[j - 1], acts[j - 1], ss[j], t);
      }
      if GivingUp(ss[j], t) && !GivingUp(ss[j - 1], t) {
        OnlyExpiryGivesUp(ss[j - 1], acts[j - 1], ss[j], t);
      }
    }
  }

  lemma NobodyAtFirst(t: TakerId)
    ensures !GivingUp(INITIAL, t)
  {
  }

  // --------------------------------------------------------------------------- its own route

  /** Whatever is on its way to a take call, or held by one, came in on that call's route. */
  ghost predicate RoutesAgree(s: State) {
    && (forall c :: c in s.adders && s.adders[c].Sending? ==> ForMaker(s, c, s.adders[c].waiter))
    && (forall w, c :: w in s.channels && c in s.channels[w].buffer ==> ForMaker(s, c, w))
    && (forall t, c :: TakerAt(s, t, Probing(c)) || TakerAt(s, t, Took(c)) ==> ForTaker(s, c, t))
  }

  ghost predicate ForMaker(s: State, c: ConnId, w: WaiterId) {
    w in s.channels && ForTaker(s, c, s.channels[w].maker)
  }

  ghost predicate ForTaker(s: State, c: ConnId, t: TakerId) {
    c in s.routes && t in s.takers && s.routes[c] == s.takers[t].route
  }

  /** Routes of connections and of calls, and makers of channels, never change. */
  lemma RoutesStay(s: State, a: Action, s': State)
    requires Inv(s) && Step(s, a, s')
    ensures forall c, t :: ForTaker(s, c, t) ==> ForTaker(s', c, t)
    ensures forall c, w :: ForMaker(s, c, w) ==> ForMaker(s', c, w)
  {
    hide Phased, Located, RouteBecomes, ListsOk;
  }

  /** What an add binds is bound to a call on its route. */
  lemma BoundOnRoute(s: State, c: ConnId, r: Route, w: WaiterId, s': State)
    requires Inv(s) && AddDeliverStep(s, c, r, w, s')
    ensures ForMaker(s', c, w)
  {
    RegisteredOnRoute(s, r, w);
    hide Inv, RouteBecomes, WaitersOf, IdleOf;
  }

  lemma RegisteredOnRoute(s: State, r: Route, w: WaiterId)
    requires Inv(s) && w in WaitersOf(s.pool, r)
    ensures w in s.channels && s.channels[w].maker in s.takers && s.takers[s.channels[w].maker].route == r
  {
    hide PoolOk, Located, AddersPhased, ChannelsPhased;
    var loc: map<ConnId, Place>, ph: map<WaiterId, Phase> :| Located(s, loc) && Phased(s, ph);
    assert w in ph && ph[w] == Registered(r);
    hide WaitersPhased;
  }

  lemma PoppedOnRoute(s: State, t: TakerId, s': State)
    requires Inv(s) && PopStep(s, t, s')
    ensures ForTaker(s', s'.takers[t].pc.conn, t)
  {
    IdleOnRoute(s, s.takers[t].route);
    hide Inv, RouteBecomes, IdleOf, WaitersOf;
  }

  lemma IdleOnRoute(s: State, r: Route)
    requires Inv(s)
    ensures IdleOf(s.pool, r) != [] ==> IdleOf(s.pool, r)[0] in s.routes && s.routes[IdleOf(s.pool, r)[0]] == r
  {
    hide Located, Phased, ListsOk, IdleOf;
    if IdleOf(s.pool, r) != [] { assert IdleOf(s.pool, r)[0] in IdleOf(s.pool, r); }
  }

  lemma ReceivedOnRoute(s: State, t: TakerId, s': State)
    requires Inv(s) && RoutesAgree(s) && ReceiveStep(s, t, s')
    ensures ForTaker(s', s'.takers[t].pc.conn, t)
  {
    var loc: map<ConnId, Place>, ph: map<WaiterId, Phase> :| Located(s, loc) && Phased(s, ph);
    var w := s.takers[t].pc.waiter;
    assert s.channels[w].maker == t;
    assert s.channels[w].buffer[0] in s.channels[w].buffer;
    hide PoolOk, Located, Phased;
  }

  lemma SendersKeepRoutes(s: State, a: Action, s': State, c: ConnId)
    requires Inv(s) && Step(s, a, s') && RoutesAgree(s) && c in s'.adders && s'.adders[c].Sending?
    ensures ForMaker(s', c, s'.adders[c].waiter)
  {
    RoutesStay(s, a, s');
    if a.AddDeliver? && a.c == c {
      BoundOnRoute(s, c, a.r, a.w, s');
    }
    hide Inv, RouteBecomes, ForTaker, ForMaker;
  }

  lemma SlotsKeepRoutes(s: State, a: Action, s': State, w: WaiterId, c: ConnId)
    requires Inv(s) && Step(s, a, s') && RoutesAgree(s) && w in s'.channels && c in s'.channels[w].buffer
    ensures ForMaker(s', c, w)
  {
    RoutesStay(s, a, s');
    hide Inv, RouteBecomes, ForTaker, ForMaker;
    if !(a.Send? && a.c == c) { assert w in s.channels && c in s.channels[w].buffer; }
  }

  lemma TakersKeepRoutes(s: State, a: Action, s': State, t: TakerId, c: ConnId)
    requires Inv(s) && Step(s, a, s') && RoutesAgree(s) && (TakerAt(s', t, Probing(c)) || TakerAt(s', t, Took(c)))
    ensures ForTaker(s', c, t)
  {
    hide *;
    if a == Pop(t) {
      PoppedIs(s, t, s', c);
      PoppedOnRoute(s, t, s');
    } else if a == Receive(t) {
      ReceivedIs(s, t, s', c);
      ReceivedOnRoute(s, t, s');
    } else {
      HeldBefore(s, a, s', t, c);
      HeldOnRoute(s, t, c);
      RoutesStay(s, a, s');
    }
  }

  lemma PoppedIs(s: State, t: TakerId, s': State, c: ConnId)
    requires Step(s, Pop(t), s') && (TakerAt(s', t, Probing(c)) || TakerAt(s', t, Took(c)))
    ensures PopStep(s, t, s') && t in s'.takers && s'.takers[t].pc == Probing(c)
  {
    hide RouteBecomes, IdleOf, WaitersOf;
  }

  lemma ReceivedIs(s: State, t: TakerId, s': State, c: ConnId)
    requires Step(s, Receive(t), s') && (TakerAt(s', t, Probing(c)) || TakerAt(s', t, Took(c)))
    ensures ReceiveStep(s, t, s') && t in s'.takers && s'.takers[t].pc == Probing(c)
  {
  }

  lemma HeldBefore(s: State, a: Action, s': State, t: TakerId, c: ConnId)
    requires Step(s, a, s') && (TakerAt(s', t, Probing(c)) || TakerAt(s', t, Took(c)))
    requires a != Pop(t) && a != Receive(t)
    ensures TakerAt(s, t, Probing(c)) || TakerAt(s, t, Took(c))
  {
    hide RouteBecomes, CanSend, CanClose, IdleOf, WaitersOf, Without;
  }

  lemma HeldOnRoute(s: State, t: TakerId, c: ConnId)
    requires RoutesAgree(s) && (TakerAt(s, t, Probing(c)) || TakerAt(s, t, Took(c)))
    ensures ForTaker(s, c, t)
  {
    hide ForMaker, ForTaker;
  }

  lemma StepKeepsRoutes(s: State, a: Action, s': State)
    requires Inv(s) && Step(s, a, s') && RoutesAgree(s)
    ensures RoutesAgree(s')
  {
    hide Inv, Step, ForTaker, ForMaker;
    forall c | c in s'.adders && s'.adders[c].Sending? ensures ForMaker(s', c, s'.adders[c].waiter) {
      SendersKeepRoutes(s, a, s', c);
    }
    forall w, c | w in s'.channels && c in s'.channels[w].buffer ensures ForMaker(s', c, w) {
      SlotsKeepRoutes(s, a, s', w, c);
    }
    forall t, c | TakerAt(s', t, Probing(c)) || TakerAt(s', t, Took(c)) ensures ForTaker(s', c, t) {
      TakersKeepRoutes(s, a, s', t, c);
    }
  }

  lemma {:induction false} RoutesHold(ss: seq<State>, acts: seq<Action>, j: nat)
    requires Run(ss, acts) && j < |ss|
    ensures RoutesAgree(ss[j])
  {
    hide Step, RoutesAgree;
    if j == 0 {
      NothingHeld();
    } else {
      RoutesHold(ss, acts, j - 1);
      InvHolds(ss, acts, j - 1);
      StepKeepsRoutes(ss[j - 1], acts[j - 1], ss[j]);
    }
  }

  lemma NothingHeld()
    ensures RoutesAgree(INITIAL)
  {
  }

  /** A take only ever returns a connection that was added for the route it asked for. */
  lemma TakenOnOwnRoute(ss: seq<State>, acts: seq<Action>, j: nat, t: TakerId, c: ConnId)
    requires Run(ss, acts) && j < |ss| && TakerAt(ss[j], t, Took(c))
    ensures c in ss[j].routes && ss[j].routes[c] == ss[j].takers[t].route
  {
    RoutesHold(ss, acts, j);
    hide Step;
  }

  // --------------------------------------------------------------------------- past the dead ones

  /** The action a take call does next when nobody else moves and a probe finds the connections in `live` alive. */
  ghost predicate Alone(s: State, a: Action, t: TakerId, live: set<ConnId>) {
    && t in s.takers
    && match s.takers[t].pc
       case Looping => a == Pop(t) || (a.Register? && a.t == t)
       case Probing(c) => a == if c in live then ProbeLive(t) else ProbeDead(t)
       case _ => false
  }

  /** A stretch of steps that are all that call's own, until it returns or waits. */
  ghost predicate TakesAlone(ss: seq<State>, acts: seq<Action>, t: TakerId, live: set<ConnId>) {
    && |ss| == |acts| + 1
    && (forall i :: 0 <= i < |acts| ==> Step(ss[i], acts[i], ss[i + 1]) && Alone(ss[i], acts[i], t, live))
    && t in ss[|acts|].takers && !ss[|acts|].takers[t].pc.Looping? && !ss[|acts|].takers[t].pc.Probing?
  }

  /** How many connections stand before the first live one. */
  function DeadAhead(l: seq<ConnId>, live: set<ConnId>): (n: nat)
    ensures n <= |l| && (n < |l| ==> l[n] in live) && forall i :: 0 <= i < n ==> l[i] !in live
  {
    if l == [] || l[0] in live then 0 else 1 + DeadAhead(l[1..], live)
  }

  /** The outcome of a call: the first live connection of the list, or a place among the waiters, and the others dead. */
  ghost predicate TookFirstLive(s: State, s': State, t: TakerId, idle: seq<ConnId>, live: set<ConnId>)
    requires t in s.takers
  {
    var r, n := s.takers[t].route, DeadAhead(idle, live);
    && s'.dead == s.dead + Members(idle[..n])
    && if n < |idle| then
         TakerAt(s', t, Took(idle[n])) && IdleOf(s'.pool, r) == idle[n + 1..]
       else
         && t in s'.takers && s'.takers[t].pc.Waiting? && s'.takers[t].pc.waiter in WaitersOf(s'.pool, r)
         && IdleOf(s'.pool, r) == []
  }

  lemma LaterPart(ss: seq<State>, acts: seq<Action>, t: TakerId, live: set<ConnId>, n: nat)
    requires TakesAlone(ss, acts, t, live) && n <= |acts|
    ensures TakesAlone(ss[n..], acts[n..], t, live)
  {
    hide Step, Alone;
    forall i | 0 <= i < |acts| - n
      ensures Step(ss[n..][i], acts[n..][i], ss[n..][i + 1]) && Alone(ss[n..][i], acts[n..][i], t, live)
    {
      assert ss[n..][i] == ss[n + i] && ss[n..][i + 1] == ss[n + i + 1] && acts[n..][i] == acts[n + i];
    }
  }

  lemma FirstIsDead(idle: seq<ConnId>, live: set<ConnId>)
    requires idle != [] && idle[0] !in live
    ensures var n := DeadAhead(idle[1..], live);
      && DeadAhead(idle, live) == n + 1
      && Members(idle[..n + 1]) == {idle[0]} + Members(idle[1..][..n])
      && (n < |idle| - 1 ==> idle[1..][n] == idle[n + 1] && idle[1..][n + 1..] == idle[n + 2..])
  {
    var n := DeadAhead(idle[1..], live);
    assert DeadAhead(idle, live) == n + 1;
    hide DeadAhead;
    PastTheFirst(idle, n);
  }

  lemma PastTheFirst(idle: seq<ConnId>, n: nat)
    requires n < |idle|
    ensures Members(idle[..n + 1]) == {idle[0]} + Members(idle[1..][..n])
    ensures n < |idle| - 1 ==> idle[1..][n] == idle[n + 1] && idle[1..][n + 1..] == idle[n + 2..]
  {
    assert idle[..n + 1] == [idle[0]] + idle[1..][..n];
    MembersConcat([idle[0]], idle[1..][..n]);
    assert Members([idle[0]]) == {idle[0]};
  }

  /** A dead connection is closed and the call looks at the next one. */
  lemma DeadIsSkipped(s: State, s1: State, s2: State, t: TakerId, live: set<ConnId>)
    requires TakerAt(s, t, Looping) && PopStep(s, t, s1)
    requires IdleOf(s.pool, s.takers[t].route)[0] !in live && ProbeDeadStep(s1, t, s2)
    ensures var r := s.takers[t].route;
      && TakerAt(s2, t, Looping) && s2.takers[t].route == r && s2.dead == s.dead + {IdleOf(s.pool, r)[0]}
      && IdleOf(s2.pool, r) == IdleOf(s.pool, r)[1..]
  {
  }

  lemma SkippedThen(s: State, s2: State, s': State, t: TakerId, idle: seq<ConnId>, live: set<ConnId>)
    requires t in s.takers && t in s2.takers && s2.takers[t].route == s.takers[t].route
    requires idle != [] && idle[0] !in live && s2.dead == s.dead + {idle[0]}
    requires TookFirstLive(s2, s', t, idle[1..], live)
    ensures TookFirstLive(s, s', t, idle, live)
  {
    FirstIsDead(idle, live);
    hide DeadAhead, IdleOf, WaitersOf;
  }

  lemma FirstIsLive(s: State, s1: State, s2: State, t: TakerId, live: set<ConnId>)
    requires TakerAt(s, t, Looping) && PopStep(s, t, s1)
    requires IdleOf(s.pool, s.takers[t].route)[0] in live && ProbeLiveStep(s1, t, s2)
    ensures TookFirstLive(s, s2, t, IdleOf(s.pool, s.takers[t].route), live)
  {
  }

  lemma NoneIsIdle(s: State, w: WaiterId, s': State, t: TakerId, live: set<ConnId>)
    requires RegisterStep(s, t, w, s')
    ensures TookFirstLive(s, s', t, IdleOf(s.pool, s.takers[t].route), live)
  {
  }

  lemma NoStepMore(ss: seq<State>, acts: seq<Action>, t: TakerId, live: set<ConnId>, k: nat)
    requires TakesAlone(ss, acts, t, live) && k <= |acts|
    ensures k < |acts| ==> t in ss[k].takers && (ss[k].takers[t].pc.Looping? || ss[k].takers[t].pc.Probing?)
  {
    hide Step;
    if k < |acts| {
      assert Alone(ss[k], acts[k], t, live);
    }
  }

  /** A take call that nobody interrupts returns the first live connection of its route's list, and closes exactly the
    * dead ones before it; if none is live it closes them all and waits. */
  lemma {:induction false} TakeSkipsTheDead(ss: seq<State>, acts: seq<Action>, t: TakerId, live: set<ConnId>)
    requires TakesAlone(ss, acts, t, live) && TakerAt(ss[0], t, Looping)
    ensures TookFirstLive(ss[0], ss[|acts|], t, IdleOf(ss[0].pool, ss[0].takers[t].route), live)
    decreases |acts|
  {
    hide TookFirstLive, RouteBecomes, IdleOf, WaitersOf;
    var n := |acts|;
    assert Step(ss[0], acts[0], ss[1]) && Alone(ss[0], acts[0], t, live);
    if acts[0].Register? {
      NoneIsIdle(ss[0], acts[0].w, ss[1], t, live);
      NoStepMore(ss, acts, t, live, 1);
    } else {
      var idle := IdleOf(ss[0].pool, ss[0].takers[t].route);
      assert TakerAt(ss[1], t, Probing(idle[0]));
      assert Step(ss[1], acts[1], ss[2]) && Alone(ss[1], acts[1], t, live);
      if idle[0] in live {
        FirstIsLive(ss[0], ss[1], ss[2], t, live);
        NoStepMore(ss, acts, t, live, 2);
      } else {
        DeadIsSkipped(ss[0], ss[1], ss[2], t, live);
        LaterPart(ss, acts, t, live, 2);
        hide TakesAlone, Step, Alone;
        TakeSkipsTheDead(ss[2..], acts[2..], t, live);
        SkippedThen(ss[0], ss[2], ss[n], t, idle, live);
      }
    }
  }

  lemma PopIsEnabled(s: State, t: TakerId) returns (s': State)
    requires TakerAt(s, t, Looping) && IdleOf(s.pool, s.takers[t].route) != []
    ensures PopStep(s, t, s')
  {
    var r := s.takers[t].route;
    var idle := IdleOf(s.pool, r);
    s' := Goto(s, t, Probing(idle[0])).(pool := s.pool.(idle := s.pool.idle[r := idle[1..]]));
  }

  lemma RegisterIsEnabled(s: State, t: TakerId, w: WaiterId) returns (s': State)
    requires TakerAt(s, t, Looping) && IdleOf(s.pool, s.takers[t].route) == [] && w !in s.channels
    ensures RegisterStep(s, t, w, s')
  {
    var r := s.takers[t].route;
    var pool := s.pool.(waiters := s.pool.waiters[r := WaitersOf(s.pool, r) + {w}]);
    s' := Goto(s, t, Waiting(w)).(pool := pool, channels := s.channels[w := Channel(t, [], false)]);
  }

  /** And there is such a stretch from every state in which the call is at the top of its loop, whatever the probes say. */
  lemma {:induction false} TakeRunsAlone(s: State, t: TakerId, live: set<ConnId>, w: WaiterId)
      returns (ss: seq<State>, acts: seq<Action>)
    requires TakerAt(s, t, Looping) && w !in s.channels
    ensures TakesAlone(ss, acts, t, live) && ss[0] == s
    decreases |IdleOf(s.pool, s.takers[t].route)|
  {
    var idle := IdleOf(s.pool, s.takers[t].route);
    if idle == [] {
      var s1 := RegisterIsEnabled(s, t, w);
      ss, acts := [s, s1], [Register(t, w)];
    } else {
      var s1 := PopIsEnabled(s, t);
      hide RouteBecomes, IdleOf, WaitersOf, DeadAhead;
      assert TakerAt(s1, t, Probing(idle[0]));
      if idle[0] in live {
        ss, acts := LiveAtOnce(s, s1, t, live, idle[0]);
      } else {
        var s2 := Goto(s1, t, Looping).(dead := s1.dead + {idle[0]});
        assert ProbeDeadStep(s1, t, s2);
        DeadIsSkipped(s, s1, s2, t, live);
        hide TakesAlone;
        var later, rest := TakeRunsAlone(s2, t, live, w);
        ss, acts := [s, s1] + later, [Pop(t), ProbeDead(t)] + rest;
        TwoStepsMore(s, s1, later, Pop(t), ProbeDead(t), rest, t, live);
      }
    }
  }

  lemma LiveAtOnce(s: State, s1: State, t: TakerId, live: set<ConnId>, c: ConnId)
      returns (ss: seq<State>, acts: seq<Action>)
    requires TakerAt(s, t, Looping) && PopStep(s, t, s1) && TakerAt(s1, t, Probing(c)) && c in live
    ensures TakesAlone(ss, acts, t, live) && ss[0] == s
  {
    hide PopStep;
    ss, acts := [s, s1, Goto(s1, t, Took(c))], [Pop(t), ProbeLive(t)];
  }

  lemma TwoStepsMore(s: State, s1: State, ss: seq<State>, a: Action, a1: Action, acts: seq<Action>, t: TakerId,
          live: set<ConnId>)
    requires TakesAlone(ss, acts, t, live) && Step(s, a, s1) && Step(s1, a1, ss[0])
    requires Alone(s, a, t, live) && Alone(s1, a1, t, live)
    ensures TakesAlone([s, s1] + ss, [a, a1] + acts, t, live)
  {
    hide Step, Alone;
    var ss', acts' := [s, s1] + ss, [a, a1] + acts;
    forall i | 0 <= i < |acts'| ensures Step(ss'[i], acts'[i], ss'[i + 1]) && Alone(ss'[i], acts'[i], t, live) {
      if i >= 2 { assert ss'[i] == ss[i - 2] && ss'[i + 1] == ss[i - 1] && acts'[i] == acts[i - 2]; }
    }
  }

  // --------------------------------------------------------------- the pool's methods are the pool's steps

  /** The locked part of add is one of its two steps, whichever the waiters decide. */
  method AddIsAStep(pool: AgentPool, r: Route, c: ConnId, ghost s: State)
      returns (delivered: bool, w: WaiterId, ghost s': State)
    requires s.pool == pool.Contents() && c !in s.adders
    modifies pool
    ensures Step(s, if delivered then AddDeliver(c, r, w) else AddPark(c, r), s') && s'.pool == pool.Contents()
  {
    hide RouteBecomes, IdleOf, WaitersOf;
    delivered, w := pool.Add(r, c);
    if delivered {
      s' := s.(pool := pool.Contents(), adders := s.adders[c := Sending(w)], routes := s.routes[c := r]);
    } else {
      s' := s.(pool := pool.Contents(), adders := s.adders[c := Done], routes := s.routes[c := r],
               reapers := s.reapers[c := Watching]);
    }
  }

  /** The locked part of one round of take is a pop or a registration. */
  method TakeIsAStep(pool: AgentPool, r: Route, t: TakerId, w: WaiterId, ghost s: State) returns (found: bool, ghost s': State)
    requires s.pool == pool.Contents() && TakerAt(s, t, Looping) && s.takers[t].route == r && w !in s.channels
    modifies pool
    ensures Step(s, if found then Pop(t) else Register(t, w), s') && s'.pool == pool.Contents()
  {
    hide RouteBecomes, IdleOf, WaitersOf;
    var conn;
    found, conn := pool.Take(r, w);
    if found {
      s' := Goto(s, t, Probing(conn)).(pool := pool.Contents());
    } else {
      s' := Goto(s, t, Waiting(w)).(pool := pool.Contents(), channels := s.channels[w := Channel(t, [], false)]);
    }
  }

  /** removeIdle, as the cancel goroutine calls it, is its first step. */
  method RemoveIdleIsAStep(pool: AgentPool, r: Route, c: ConnId, ghost s: State) returns (removed: bool, ghost s': State)
    requires s.pool == pool.Contents() && c in s.reapers && s.reapers[c] == Watching && c in s.routes && s.routes[c] == r
    modifies pool
    ensures Step(s, Reap(c), s') && s'.pool == pool.Contents() && (removed <==> s'.reapers[c] == Removed)
  {
    hide RouteBecomes, IdleOf, WaitersOf, Without;
    removed := pool.RemoveIdle(r, c);
    s' := s.(pool := pool.Contents(), reapers := s.reapers[c := if removed then Removed else Exited]);
  }

  /** removeWaiter, as an expired take calls it, is the step by which that call leaves. */
  method RemoveWaiterIsAStep(pool: AgentPool, r: Route, t: TakerId, w: WaiterId, ghost s: State) returns (ghost s': State)
    requires s.pool == pool.Contents() && TakerAt(s, t, Leaving(w)) && s.takers[t].route == r
    modifies pool
    ensures Step(s, Leave(t), s') && s'.pool == pool.Contents()
  {
    hide RouteBecomes, IdleOf, WaitersOf;
    pool.RemoveWaiter(r, w);
    s' := Goto(s, t, TimedOut).(pool := pool.Contents());
  }
}
