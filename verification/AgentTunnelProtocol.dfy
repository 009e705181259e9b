/** The interleaving semantics of the agent pool. Every critical section, channel send,
    channel close, channel receive, liveness probe, context expiry and connection close is
    one atomic step; any number of add calls, take calls and cancel goroutines are at some
    program point each, and any enabled step may come next. */
module AgentTunnelProtocol {
  import opened AgentTunnels
  import opened Collections

  type TakerId = nat

  /** An add call that found a waiter: about to send, about to close the channel, returned. */
  datatype Adder = Sending(waiter: WaiterId) | Closing(waiter: WaiterId) | Done

  /** A take call: at the top of its loop, probing a connection, in the select, past the
      expired-context case of the select, or returned. */
  datatype TakerPc =
    | Looping
    | Probing(conn: ConnId)
    | Waiting(waiter: WaiterId)
    | Leaving(waiter: WaiterId)
    | Took(conn: ConnId)
    | TimedOut
    | GotNil

  datatype Taker = Taker(route: Route, pc: TakerPc)

  /** The goroutine that waits for a parked connection's context to end. */
  datatype Reaper = Watching | Removed | Closed | Exited

  /** A one-slot waiter channel, made by one round of one take call. */
  datatype Channel = Channel(maker: TakerId, buffer: seq<ConnId>, closed: bool)

  datatype State = State(
    pool: Pool,
    adders: map<ConnId, Adder>,
    routes: map<ConnId, Route>,
    reapers: map<ConnId, Reaper>,
    channels: map<WaiterId, Channel>,
    takers: map<TakerId, Taker>,
    dead: set<ConnId>)

  datatype Action =
    | AddDeliver(c: ConnId, r: Route, w: WaiterId)
    | AddPark(c: ConnId, r: Route)
    | Send(c: ConnId)
    | CloseChannel(c: ConnId)
    | StartTake(t: TakerId, r: Route)
    | Pop(t: TakerId)
    | Register(t: TakerId, w: WaiterId)
    | Receive(t: TakerId)
    | ReceiveNil(t: TakerId)
    | ProbeLive(t: TakerId)
    | ProbeDead(t: TakerId)
    | Expire(t: TakerId)
    | Leave(t: TakerId)
    | Reap(c: ConnId)
    | CloseReaped(c: ConnId)

  const INITIAL := State(Pool(map[], map[]), map[], map[], map[], map[], map[], {})

  ghost predicate TakerAt(s: State, t: TakerId, pc: TakerPc) {
    t in s.takers && s.takers[t].pc == pc
  }

  function Goto(s: State, t: TakerId, pc: TakerPc): State
    requires t in s.takers
  {
    s.(takers := s.takers[t := s.takers[t].(pc := pc)])
  }

  ghost predicate PoolStep(s: State, s': State, r: Route, idle: seq<ConnId>, waiters: set<WaiterId>) {
    RouteBecomes(s.pool, s'.pool, r, idle, waiters)
  }

  ghost predicate AddDeliverStep(s: State, c: ConnId, r: Route, w: WaiterId, s': State) {
    && c !in s.adders && w in WaitersOf(s.pool, r)
    && PoolStep(s, s', r, IdleOf(s.pool, r), WaitersOf(s.pool, r) - {w})
    && s' == s.(pool := s'.pool, adders := s.adders[c := Sending(w)], routes := s.routes[c := r])
  }

  ghost predicate AddParkStep(s: State, c: ConnId, r: Route, s': State) {
    && c !in s.adders && WaitersOf(s.pool, r) == {}
    && PoolStep(s, s', r, IdleOf(s.pool, r) + [c], {})
    && s' == s.(pool := s'.pool, adders := s.adders[c := Done], routes := s.routes[c := r],
                reapers := s.reapers[c := Watching])
  }

  ghost predicate SendStep(s: State, c: ConnId, s': State) {
    && CanSend(s, c)
    && var w := s.adders[c].waiter;
    s' == s.(adders := s.adders[c := Closing(w)],
             channels := s.channels[w := s.channels[w].(buffer := s.channels[w].buffer + [c])])
  }

  ghost predicate CloseChannelStep(s: State, c: ConnId, s': State) {
    && CanClose(s, c)
    && var w := s.adders[c].waiter;
    s' == s.(adders := s.adders[c := Done], channels := s.channels[w := s.channels[w].(closed := true)])
  }

  ghost predicate StartTakeStep(s: State, t: TakerId, r: Route, s': State) {
    && t !in s.takers
    && s' == s.(takers := s.takers[t := Taker(r, Looping)])
  }

  ghost predicate PopStep(s: State, t: TakerId, s': State) {
    && TakerAt(s, t, Looping)
    && var r := s.takers[t].route;
    && IdleOf(s.pool, r) != []
    && PoolStep(s, s', r, IdleOf(s.pool, r)[1..], WaitersOf(s.pool, r))
    && s' == Goto(s, t, Probing(IdleOf(s.pool, r)[0])).(pool := s'.pool)
  }

  ghost predicate RegisterStep(s: State, t: TakerId, w: WaiterId, s': State) {
    && TakerAt(s, t, Looping) && w !in s.channels
    && var r := s.takers[t].route;
    && IdleOf(s.pool, r) == []
    && PoolStep(s, s', r, [], WaitersOf(s.pool, r) + {w})
    && s' == Goto(s, t, Waiting(w)).(pool := s'.pool, channels := s.channels[w := Channel(t, [], false)])
  }

  ghost predicate ReceiveStep(s: State, t: TakerId, s': State) {
    && t in s.takers && s.takers[t].pc.Waiting?
    && var w := s.takers[t].pc.waiter;
    && w in s.channels && s.channels[w].buffer != []
    && s' == Goto(s, t, Probing(s.channels[w].buffer[0])).(
               channels := s.channels[w := s.channels[w].(buffer := s.channels[w].buffer[1..])])
  }

  ghost predicate ReceiveNilStep(s: State, t: TakerId, s': State) {
    && t in s.takers && s.takers[t].pc.Waiting?
    && var w := s.takers[t].pc.waiter;
    && w in s.channels && s.channels[w].buffer == [] && s.channels[w].closed
    && s' == Goto(s, t, GotNil)
  }

  ghost predicate ProbeLiveStep(s: State, t: TakerId, s': State) {
    && t in s.takers && s.takers[t].pc.Probing?
    && s' == Goto(s, t, Took(s.takers[t].pc.conn))
  }

  ghost predicate ProbeDeadStep(s: State, t: TakerId, s': State) {
    && t in s.takers && s.takers[t].pc.Probing?
    && s' == Goto(s, t, Looping).(dead := s.dead + {s.takers[t].pc.conn})
  }

  ghost predicate ExpireStep(s: State, t: TakerId, s': State) {
    && t in s.takers && s.takers[t].pc.Waiting?
    && s' == Goto(s, t, Leaving(s.takers[t].pc.waiter))
  }

  ghost predicate LeaveStep(s: State, t: TakerId, s': State) {
    && t in s.takers && s.takers[t].pc.Leaving?
    && var r := s.takers[t].route;
    && PoolStep(s, s', r, IdleOf(s.pool, r), WaitersOf(s.pool, r) - {s.takers[t].pc.waiter})
    && s' == Goto(s, t, TimedOut).(pool := s'.pool)
  }

  ghost predicate ReapStep(s: State, c: ConnId, s': State) {
    && c in s.reapers && s.reapers[c] == Watching && c in s.routes
    && var r := s.routes[c];
    && PoolStep(s, s', r, Without(IdleOf(s.pool, r), c), WaitersOf(s.pool, r))
    && s' == s.(pool := s'.pool,
                reapers := s.reapers[c := if c in IdleOf(s.pool, r) then Removed else Exited])
  }

  ghost predicate CloseReapedStep(s: State, c: ConnId, s': State) {
    && c in s.reapers && s.reapers[c] == Removed
    && s' == s.(reapers := s.reapers[c := Closed])
  }

  /** One atomic step. The effect on the pool's maps is exactly what the methods of AgentPool ensure. */
  ghost predicate Step(s: State, a: Action, s': State) {
    match a
    case AddDeliver(c, r, w) => AddDeliverStep(s, c, r, w, s')
    case AddPark(c, r) => AddParkStep(s, c, r, s')
    case Send(c) => SendStep(s, c, s')
    case CloseChannel(c) => CloseChannelStep(s, c, s')
    case StartTake(t, r) => StartTakeStep(s, t, r, s')
    case Pop(t) => PopStep(s, t, s')
    case Register(t, w) => RegisterStep(s, t, w, s')
    case Receive(t) => ReceiveStep(s, t, s')
    case ReceiveNil(t) => ReceiveNilStep(s, t, s')
    case ProbeLive(t) => ProbeLiveStep(s, t, s')
    case ProbeDead(t) => ProbeDeadStep(s, t, s')
    case Expire(t) => ExpireStep(s, t, s')
    case Leave(t) => LeaveStep(s, t, s')
    case Reap(c) => ReapStep(s, c, s')
    case CloseReaped(c) => CloseReapedStep(s, c, s')
  }

  /** A send goes through at once: the slot is empty and the channel open. */
  ghost predicate CanSend(s: State, c: ConnId) {
    && c in s.adders && s.adders[c].Sending? && s.adders[c].waiter in s.channels
    && var ch := s.channels[s.adders[c].waiter]; ch.buffer == [] && !ch.closed
  }

  /** A close does not hit a channel that is already closed. */
  ghost predicate CanClose(s: State, c: ConnId) {
    && c in s.adders && s.adders[c].Closing? && s.adders[c].waiter in s.channels
    && !s.channels[s.adders[c].waiter].closed
  }

  /** A run from the empty pool. */
  ghost predicate Run(ss: seq<State>, acts: seq<Action>) {
    && |ss| == |acts| + 1
    && ss[0] == INITIAL
    && forall i :: 0 <= i < |acts| ==> Step(ss[i], acts[i], ss[i + 1])
  }
}
