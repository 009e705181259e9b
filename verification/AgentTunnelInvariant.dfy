/** Where each connection is, what phase each waiter channel is in, and that every step keeps both. */
module AgentTunnelInvariant {
  import opened AgentTunnels
  import opened Collections
  import opened AgentTunnelProtocol

  // ---------------------------------------------------------------- where a connection is

  datatype Place =
    | Idle(r: Route)
    | BoundTo(w: WaiterId)
    | InSlot(w: WaiterId)
    | HeldBy(t: TakerId)
    | TakenBy(t: TakerId)
    | FoundDead
    | Reaped

  ghost predicate At(s: State, c: ConnId, p: Place) {
    match p
    case Idle(r) => c in IdleOf(s.pool, r)
    case BoundTo(w) => c in s.adders && s.adders[c] == Sending(w)
    case InSlot(w) => w in s.channels && c in s.channels[w].buffer
    case HeldBy(t) => TakerAt(s, t, Probing(c))
    case TakenBy(t) => TakerAt(s, t, Took(c))
    case FoundDead => c in s.dead
    case Reaped => c in s.reapers && s.reapers[c] in {Removed, Closed}
  }

  /** Each part of the state agrees with loc, the one place of every connection ever added. */
  ghost predicate IdleAgrees(pool: Pool, loc: map<ConnId, Place>) {
    forall r, c :: c in IdleOf(pool, r) <==> c in loc && loc[c] == Idle(r)
  }

  ghost predicate AddersAgree(adders: map<ConnId, Adder>, loc: map<ConnId, Place>) {
    && loc.Keys == adders.Keys
    && forall c :: c in loc ==> if adders[c].Sending? then loc[c] == BoundTo(adders[c].waiter) else !loc[c].BoundTo?
  }

  ghost predicate SlotsAgree(channels: map<WaiterId, Channel>, loc: map<ConnId, Place>) {
    && (forall w, c :: w in channels && c in channels[w].buffer ==> c in loc && loc[c] == InSlot(w))
    && (forall c :: c in loc && loc[c].InSlot? ==> loc[c].w in channels && c in channels[loc[c].w].buffer)
  }

  ghost predicate TakersAgree(takers: map<TakerId, Taker>, loc: map<ConnId, Place>) {
    && (forall t :: t in takers && takers[t].pc.Probing? ==> takers[t].pc.conn in loc && loc[takers[t].pc.conn] == HeldBy(t))
    && (forall t :: t in takers && takers[t].pc.Took? ==> takers[t].pc.conn in loc && loc[takers[t].pc.conn] == TakenBy(t))
    && (forall c :: c in loc && loc[c].HeldBy? ==> loc[c].t in takers && takers[loc[c].t].pc == Probing(c))
    && (forall c :: c in loc && loc[c].TakenBy? ==> loc[c].t in takers && takers[loc[c].t].pc == Took(c))
  }

  ghost predicate DeadAgree(dead: set<ConnId>, loc: map<ConnId, Place>) {
    forall c :: c in dead <==> c in loc && loc[c] == FoundDead
  }

  ghost predicate ReapersAgree(reapers: map<ConnId, Reaper>, loc: map<ConnId, Place>) {
    forall c :: (c in reapers && reapers[c] in {Removed, Closed}) <==> c in loc && loc[c] == Reaped
  }

  ghost predicate Located(s: State, loc: map<ConnId, Place>) {
    && IdleAgrees(s.pool, loc)
    && AddersAgree(s.adders, loc)
    && SlotsAgree(s.channels, loc)
    && TakersAgree(s.takers, loc)
    && DeadAgree(s.dead, loc)
    && ReapersAgree(s.reapers, loc)
  }

  // ------------------------------------------------------------ the life of a waiter channel

  datatype Phase = Registered(r: Route) | Bound(c: ConnId) | Delivered(c: ConnId) | Consumed(c: ConnId) | Withdrawn

  ghost predicate OnChannel(takers: map<TakerId, Taker>, t: TakerId, w: WaiterId) {
    t in takers && takers[t].pc in {Waiting(w), Leaving(w)}
  }

  /** Each part of the state agrees with ph, the phase of every waiter channel ever made. */
  ghost predicate WaitersPhased(pool: Pool, ph: map<WaiterId, Phase>) {
    forall r, w :: w in WaitersOf(pool, r) <==> w in ph && ph[w] == Registered(r)
  }

  ghost predicate AddersPhased(adders: map<ConnId, Adder>, ph: map<WaiterId, Phase>) {
    && (forall c :: c in adders && adders[c].Sending? ==> adders[c].waiter in ph && ph[adders[c].waiter] == Bound(c))
    && (forall c :: c in adders && adders[c].Closing? ==>
          adders[c].waiter in ph && ph[adders[c].waiter] in {Delivered(c), Consumed(c)})
    && (forall w :: w in ph && ph[w].Bound? ==> ph[w].c in adders && adders[ph[w].c] == Sending(w))
    && (forall w :: w in ph && (ph[w].Delivered? || ph[w].Consumed?) ==>
          ph[w].c in adders && adders[ph[w].c] in {Closing(w), Done})
  }

  ghost predicate ChannelsPhased(channels: map<WaiterId, Channel>, adders: map<ConnId, Adder>,
          ph: map<WaiterId, Phase>) {
    && ph.Keys == channels.Keys
    && forall w :: w in ph ==>
         && channels[w].buffer == (if ph[w].Delivered? then [ph[w].c] else [])
         && (channels[w].closed <==>
               (ph[w].Delivered? || ph[w].Consumed?) && ph[w].c in adders && adders[ph[w].c] == Done)
  }

  ghost predicate TakersPhased(takers: map<TakerId, Taker>, channels: map<WaiterId, Channel>, ph: map<WaiterId,
          Phase>) {
    && (forall t :: t in takers && (takers[t].pc.Waiting? || takers[t].pc.Leaving?) ==>
          var w := takers[t].pc.waiter;
          w in ph && w in channels && channels[w].maker == t && !ph[w].Consumed? && !ph[w].Withdrawn?)
    && (forall w :: w in ph && ph[w].Registered? ==>
          w in channels && OnChannel(takers, channels[w].maker, w) && takers[channels[w].maker].route == ph[w].r)
  }

  ghost predicate Phased(s: State, ph: map<WaiterId, Phase>) {
    && WaitersPhased(s.pool, ph)
    && AddersPhased(s.adders, ph)
    && ChannelsPhased(s.channels, s.adders, ph)
    && TakersPhased(s.takers, s.channels, ph)
  }

  ghost predicate PoolOk(s: State) {
    ListsOk(s.pool) && ParkedOk(s.pool, s.adders, s.routes, s.reapers)
  }

  ghost predicate ListsOk(pool: Pool) {
    && (forall r :: NoDuplicates(IdleOf(pool, r)))
    && (forall r :: IdleOf(pool, r) == [] || WaitersOf(pool, r) == {})
  }

  ghost predicate ParkedOk(pool: Pool, adders: map<ConnId, Adder>, routes: map<ConnId, Route>,
          reapers: map<ConnId, Reaper>) {
    && routes.Keys == adders.Keys
    && (forall r, c :: c in IdleOf(pool, r) ==>
          c in adders && adders[c] == Done && routes[c] == r && c in reapers && reapers[c] == Watching)
    && (forall c :: c in reapers ==> c in adders && adders[c] == Done)
  }

  // ---------------------------------------------------- every step moves at most one connection

  lemma IdleElsewhere(pool: Pool, loc: map<ConnId, Place>, c: ConnId, p: Place)
    requires IdleAgrees(pool, loc) && !p.Idle? && (c in loc ==> !loc[c].Idle?)
    ensures IdleAgrees(pool, loc[c := p])
  {
  }

  lemma AddersElsewhere(adders: map<ConnId, Adder>, loc: map<ConnId, Place>, c: ConnId, p: Place)
    requires AddersAgree(adders, loc) && !p.BoundTo? && c in loc && !loc[c].BoundTo?
    ensures AddersAgree(adders, loc[c := p])
  {
  }

  lemma SlotsElsewhere(channels: map<WaiterId, Channel>, loc: map<ConnId, Place>, c: ConnId, p: Place)
    requires SlotsAgree(channels, loc) && !p.InSlot? && (c in loc ==> !loc[c].InSlot?)
    ensures SlotsAgree(channels, loc[c := p])
  {
  }

  lemma TakersElsewhere(takers: map<TakerId, Taker>, loc: map<ConnId, Place>, c: ConnId, p: Place)
    requires TakersAgree(takers, loc) && !p.HeldBy? && !p.TakenBy?
    requires c in loc ==> !loc[c].HeldBy? && !loc[c].TakenBy?
    ensures TakersAgree(takers, loc[c := p])
  {
  }

  lemma DeadElsewhere(dead: set<ConnId>, loc: map<ConnId, Place>, c: ConnId, p: Place)
    requires DeadAgree(dead, loc) && !p.FoundDead? && (c in loc ==> !loc[c].FoundDead?)
    ensures DeadAgree(dead, loc[c := p])
  {
  }

  lemma ReapersElsewhere(reapers: map<ConnId, Reaper>, loc: map<ConnId, Place>, c: ConnId, p: Place)
    requires ReapersAgree(reapers, loc) && !p.Reaped? && (c in loc ==> !loc[c].Reaped?)
    ensures ReapersAgree(reapers, loc[c := p])
  {
  }

  /** Moving c leaves alone every part of the state that neither has nor gets it. */
  lemma Elsewhere(s: State, loc: map<ConnId, Place>, c: ConnId, p: Place)
    requires Located(s, loc)
    ensures !p.Idle? && (c in loc ==> !loc[c].Idle?) ==> IdleAgrees(s.pool, loc[c := p])
    ensures !p.BoundTo? && c in loc && !loc[c].BoundTo? ==> AddersAgree(s.adders, loc[c := p])
    ensures !p.InSlot? && (c in loc ==> !loc[c].InSlot?) ==> SlotsAgree(s.channels, loc[c := p])
    ensures !p.HeldBy? && !p.TakenBy? && (c in loc ==> !loc[c].HeldBy? && !loc[c].TakenBy?) ==>
      TakersAgree(s.takers, loc[c := p])
    ensures !p.FoundDead? && (c in loc ==> !loc[c].FoundDead?) ==> DeadAgree(s.dead, loc[c := p])
    ensures !p.Reaped? && (c in loc ==> !loc[c].Reaped?) ==> ReapersAgree(s.reapers, loc[c := p])
  {
    hide IdleAgrees, AddersAgree, SlotsAgree, TakersAgree, DeadAgree, ReapersAgree;
    var before := if c in loc then loc[c] else p;
    if !p.Idle? && !before.Idle? { IdleElsewhere(s.pool, loc, c, p); }
    if !p.BoundTo? && c in loc && !before.BoundTo? { AddersElsewhere(s.adders, loc, c, p); }
    if !p.InSlot? && !before.InSlot? { SlotsElsewhere(s.channels, loc, c, p); }
    if !p.HeldBy? && !p.TakenBy? && !before.HeldBy? && !before.TakenBy? { TakersElsewhere(s.takers, loc, c, p); }
    if !p.FoundDead? && !before.FoundDead? { DeadElsewhere(s.dead, loc, c, p); }
    if !p.Reaped? && !before.Reaped? { ReapersElsewhere(s.reapers, loc, c, p); }
  }

  lemma AddDeliverMoves(s: State, c: ConnId, r: Route, w: WaiterId, s': State, loc: map<ConnId, Place>)
    requires Located(s, loc) && AddDeliverStep(s, c, r, w, s')
    ensures Located(s', loc[c := BoundTo(w)])
  {
    hide SlotsAgree, TakersAgree, DeadAgree, ReapersAgree;
    Elsewhere(s, loc, c, BoundTo(w));
  }

  lemma ParkedIdle(pool: Pool, pool': Pool, c: ConnId, r: Route, loc: map<ConnId, Place>)
    requires IdleAgrees(pool, loc) && c !in loc && RouteBecomes(pool, pool', r, IdleOf(pool, r) + [c], {})
    ensures IdleAgrees(pool', loc[c := Idle(r)])
  {
    forall o, d ensures d in IdleOf(pool', o) <==> d in IdleOf(pool, o) || (o == r && d == c) {
    }
  }

  lemma ParkedAdder(adders: map<ConnId, Adder>, reapers: map<ConnId, Reaper>, c: ConnId, r: Route, loc: map<ConnId, Place>)
    requires AddersAgree(adders, loc) && ReapersAgree(reapers, loc) && c !in loc
    ensures AddersAgree(adders[c := Done], loc[c := Idle(r)])
    ensures ReapersAgree(reapers[c := Watching], loc[c := Idle(r)])
  {
  }

  lemma AddParkMoves(s: State, c: ConnId, r: Route, s': State, loc: map<ConnId, Place>)
    requires PoolOk(s) && Located(s, loc) && AddParkStep(s, c, r, s')
    ensures Located(s', loc[c := Idle(r)])
  {
    NotYetAnywhere(s, c, loc);
    hide IdleAgrees, AddersAgree, SlotsAgree, TakersAgree, DeadAgree, ReapersAgree, PoolOk, RouteBecomes;
    Elsewhere(s, loc, c, Idle(r));
    ParkedIdle(s.pool, s'.pool, c, r, loc);
    ParkedAdder(s.adders, s.reapers, c, r, loc);
  }

  lemma NotYetAnywhere(s: State, c: ConnId, loc: map<ConnId, Place>)
    requires Located(s, loc) && c !in s.adders
    ensures c !in loc
  {
    hide IdleAgrees, SlotsAgree, TakersAgree, DeadAgree, ReapersAgree;
  }

  lemma SendMoves(s: State, c: ConnId, s': State, loc: map<ConnId, Place>)
    requires Located(s, loc) && SendStep(s, c, s')
    ensures Located(s', loc[c := InSlot(s.adders[c].waiter)])
  {
    hide IdleAgrees, TakersAgree, DeadAgree, ReapersAgree;
    Elsewhere(s, loc, c, InSlot(s.adders[c].waiter));
  }

  lemma IdleIsLocated(s: State, r: Route, loc: map<ConnId, Place>)
    requires PoolOk(s) && Located(s, loc)
    ensures var l := IdleOf(s.pool, r);
      && NoDuplicates(l) && (forall c :: c in l ==> c in loc && loc[c] == Idle(r))
      && (l != [] ==> l[0] in l && Without(l, l[0]) == l[1..])
  {
    hide ParkedOk, AddersAgree, SlotsAgree, TakersAgree, DeadAgree, ReapersAgree, NoDuplicates, IdleOf, WaitersOf;
  }

  lemma PopMoves(s: State, t: TakerId, s': State, loc: map<ConnId, Place>)
    requires PoolOk(s) && Located(s, loc) && PopStep(s, t, s')
    ensures Located(s', loc[s'.takers[t].pc.conn := HeldBy(t)])
  {
    var r, c := s.takers[t].route, s'.takers[t].pc.conn;
    IdleIsLocated(s, r, loc);
    hide PoolOk, IdleAgrees, AddersAgree, SlotsAgree, TakersAgree, DeadAgree, ReapersAgree, NoDuplicates, RouteBecomes,
      Without;
    OneLeaves(s.pool, s'.pool, r, c, loc, HeldBy(t));
    TakerGets(s.takers, t, c, loc);
    Elsewhere(s, loc, c, HeldBy(t));
  }

  lemma TakerGets(takers: map<TakerId, Taker>, t: TakerId, c: ConnId, loc: map<ConnId, Place>)
    requires TakersAgree(takers, loc) && t in takers && takers[t].pc.Looping? && c in loc && loc[c].Idle?
    ensures TakersAgree(takers[t := takers[t].(pc := Probing(c))], loc[c := HeldBy(t)])
  {
  }

  lemma ReceiveMoves(s: State, t: TakerId, s': State, loc: map<ConnId, Place>)
    requires Located(s, loc) && ReceiveStep(s, t, s') && |s.channels[s.takers[t].pc.waiter].buffer| <= 1
    ensures Located(s', loc[s'.takers[t].pc.conn := HeldBy(t)])
  {
    hide IdleAgrees, AddersAgree, DeadAgree, ReapersAgree;
    Elsewhere(s, loc, s'.takers[t].pc.conn, HeldBy(t));
  }

  lemma ProbeLiveMoves(s: State, t: TakerId, s': State, loc: map<ConnId, Place>)
    requires Located(s, loc) && ProbeLiveStep(s, t, s')
    ensures Located(s', loc[s.takers[t].pc.conn := TakenBy(t)])
  {
    hide IdleAgrees, AddersAgree, SlotsAgree, DeadAgree, ReapersAgree;
    Elsewhere(s, loc, s.takers[t].pc.conn, TakenBy(t));
  }

  lemma ProbeDeadMoves(s: State, t: TakerId, s': State, loc: map<ConnId, Place>)
    requires Located(s, loc) && ProbeDeadStep(s, t, s')
    ensures Located(s', loc[s.takers[t].pc.conn := FoundDead])
  {
    hide IdleAgrees, AddersAgree, SlotsAgree, ReapersAgree;
    Elsewhere(s, loc, s.takers[t].pc.conn, FoundDead);
  }

  lemma ReapMoves(s: State, c: ConnId, s': State, loc: map<ConnId, Place>)
    requires PoolOk(s) && Located(s, loc) && ReapStep(s, c, s')
    ensures Located(s', if s'.reapers[c] == Removed then loc[c := Reaped] else loc)
  {
    var r := s.routes[c];
    IdleIsLocated(s, r, loc);
    hide PoolOk, IdleAgrees, AddersAgree, SlotsAgree, TakersAgree, DeadAgree, ReapersAgree, NoDuplicates, RouteBecomes;
    OneLeaves(s.pool, s'.pool, r, c, loc, Reaped);
    ReaperMoves(s.reapers, c, loc);
    Elsewhere(s, loc, c, Reaped);
  }

  lemma ReaperMoves(reapers: map<ConnId, Reaper>, c: ConnId, loc: map<ConnId, Place>)
    requires ReapersAgree(reapers, loc) && c in reapers && reapers[c] == Watching
    ensures ReapersAgree(reapers[c := Removed], loc[c := Reaped]) && ReapersAgree(reapers[c := Exited], loc)
  {
  }

  lemma OneLeaves(pool: Pool, pool': Pool, r: Route, c: ConnId, loc: map<ConnId, Place>, p: Place)
    requires IdleAgrees(pool, loc) && NoDuplicates(IdleOf(pool, r)) && !p.Idle?
    requires RouteBecomes(pool, pool', r, Without(IdleOf(pool, r), c), WaitersOf(pool, r))
    ensures IdleAgrees(pool', if c in IdleOf(pool, r) then loc[c := p] else loc)
  {
    WithoutMembers(IdleOf(pool, r), c);
    hide NoDuplicates, IdleOf, WaitersOf, Without;
    var next := if c in IdleOf(pool, r) then loc[c := p] else loc;
    forall o, d ensures d in IdleOf(pool', o) <==> d in next && next[d] == Idle(o) {
      assert d in IdleOf(pool, o) <==> d in loc && loc[d] == Idle(o);
      assert c in IdleOf(pool, r) <==> c in loc && loc[c] == Idle(r);
      assert IdleOf(pool', o) == if o == r then Without(IdleOf(pool, r), c) else IdleOf(pool, o);
    }
  }

  lemma CloseChannelStays(s: State, c: ConnId, s': State, loc: map<ConnId, Place>)
    requires Located(s, loc) && CloseChannelStep(s, c, s')
    ensures Located(s', loc)
  {
    hide IdleAgrees, TakersAgree, DeadAgree, ReapersAgree;
  }

  lemma SameIdleLists(pool: Pool, pool': Pool, r: Route, ws: set<WaiterId>, loc: map<ConnId, Place>)
    requires IdleAgrees(pool, loc) && RouteBecomes(pool, pool', r, IdleOf(pool, r), ws)
    ensures IdleAgrees(pool', loc)
  {
    assert forall o :: IdleOf(pool', o) == IdleOf(pool, o);
  }

  lemma EmptySlot(channels: map<WaiterId, Channel>, w: WaiterId, t: TakerId, loc: map<ConnId, Place>)
    requires SlotsAgree(channels, loc) && w !in channels
    ensures SlotsAgree(channels[w := Channel(t, [], false)], loc)
  {
  }

  lemma WaitingHoldsNothing(takers: map<TakerId, Taker>, t: TakerId, w: WaiterId, loc: map<ConnId, Place>)
    requires TakersAgree(takers, loc) && t in takers && takers[t].pc == Looping
    ensures TakersAgree(takers[t := takers[t].(pc := Waiting(w))], loc)
  {
  }

  lemma RegisterStays(s: State, t: TakerId, w: WaiterId, s': State, loc: map<ConnId, Place>)
    requires Located(s, loc) && RegisterStep(s, t, w, s')
    ensures Located(s', loc)
  {
    hide IdleAgrees, AddersAgree, SlotsAgree, TakersAgree, DeadAgree, ReapersAgree, RouteBecomes;
    EmptySlot(s.channels, w, t, loc);
    WaitingHoldsNothing(s.takers, t, w, loc);
    SameIdleLists(s.pool, s'.pool, s.takers[t].route, WaitersOf(s.pool, s.takers[t].route) + {w}, loc);
  }

  lemma LeaveStays(s: State, t: TakerId, s': State, loc: map<ConnId, Place>)
    requires Located(s, loc) && LeaveStep(s, t, s')
    ensures Located(s', loc)
  {
    hide IdleAgrees, AddersAgree, SlotsAgree, DeadAgree, ReapersAgree, RouteBecomes;
    var r := s.takers[t].route;
    SameIdleLists(s.pool, s'.pool, r, WaitersOf(s.pool, r) - {s.takers[t].pc.waiter}, loc);
  }

  lemma TakerStays(s: State, a: Action, s': State, loc: map<ConnId, Place>)
    requires Located(s, loc) && Step(s, a, s') && (a.StartTake? || a.ReceiveNil? || a.Expire?)
    ensures Located(s', loc)
  {
    hide IdleAgrees, AddersAgree, SlotsAgree, DeadAgree, ReapersAgree, RouteBecomes;
  }

  lemma CloseReapedStays(s: State, c: ConnId, s': State, loc: map<ConnId, Place>)
    requires Located(s, loc) && CloseReapedStep(s, c, s')
    ensures Located(s', loc)
  {
    hide IdleAgrees, AddersAgree, SlotsAgree, TakersAgree, DeadAgree;
  }

  ghost function Relocate(s: State, a: Action, s': State, loc: map<ConnId, Place>): map<ConnId, Place>
    requires Step(s, a, s')
  {
    match a
    case AddDeliver(c, r, w) => loc[c := BoundTo(w)]
    case AddPark(c, r) => loc[c := Idle(r)]
    case Send(c) => loc[c := InSlot(s.adders[c].waiter)]
    case Pop(t) => loc[s'.takers[t].pc.conn := HeldBy(t)]
    case Receive(t) => loc[s'.takers[t].pc.conn := HeldBy(t)]
    case ProbeLive(t) => loc[s.takers[t].pc.conn := TakenBy(t)]
    case ProbeDead(t) => loc[s.takers[t].pc.conn := FoundDead]
    case Reap(c) => if s'.reapers[c] == Removed then loc[c := Reaped] else loc
    case _ => loc
  }

  lemma SlotHoldsOne(s: State, t: TakerId, ph: map<WaiterId, Phase>)
    requires Phased(s, ph) && t in s.takers && s.takers[t].pc.Waiting? && s.takers[t].pc.waiter in s.channels
    ensures |s.channels[s.takers[t].pc.waiter].buffer| <= 1
  {
    hide WaitersPhased, AddersPhased, TakersPhased;
  }

  lemma StepLocates(s: State, a: Action, s': State, loc: map<ConnId, Place>, ph: map<WaiterId, Phase>)
    requires PoolOk(s) && Located(s, loc) && Phased(s, ph) && Step(s, a, s')
    ensures Located(s', Relocate(s, a, s', loc))
  {
    if a.Receive? { SlotHoldsOne(s, a.t, ph); }
    hide PoolOk, Located, Phased;
    match a
    case AddDeliver(c, r, w) => AddDeliverMoves(s, c, r, w, s', loc);
    case AddPark(c, r) => AddParkMoves(s, c, r, s', loc);
    case Send(c) => SendMoves(s, c, s', loc);
    case CloseChannel(c) => CloseChannelStays(s, c, s', loc);
    case Pop(t) => PopMoves(s, t, s', loc);
    case Register(t, w) => RegisterStays(s, t, w, s', loc);
    case Leave(t) => LeaveStays(s, t, s', loc);
    case Receive(t) => ReceiveMoves(s, t, s', loc);
    case ProbeLive(t) => ProbeLiveMoves(s, t, s', loc);
    case ProbeDead(t) => ProbeDeadMoves(s, t, s', loc);
    case Reap(c) => ReapMoves(s, c, s', loc);
    case CloseReaped(c) => CloseReapedStays(s, c, s', loc);
    case _ => TakerStays(s, a, s', loc);
  }

  // ---------------------------------------------------- every step advances at most one channel

  ghost function Rephase(s: State, a: Action, s': State, ph: map<WaiterId, Phase>): map<WaiterId, Phase>
    requires Step(s, a, s')
  {
    match a
    case AddDeliver(c, r, w) => ph[w := Bound(c)]
    case Send(c) => ph[s.adders[c].waiter := Delivered(c)]
    case Register(t, w) => ph[w := Registered(s.takers[t].route)]
    case Receive(t) => ph[s.takers[t].pc.waiter := Consumed(s'.takers[t].pc.conn)]
    case Leave(t) =>
      var w := s.takers[t].pc.waiter;
      if w in ph && ph[w].Registered? then ph[w := Withdrawn] else ph
    case _ => ph
  }

  lemma WaiterBound(pool: Pool, pool': Pool, r: Route, w: WaiterId, ph: map<WaiterId, Phase>, next: Phase)
    requires WaitersPhased(pool, ph) && w in WaitersOf(pool, r) && !next.Registered?
    requires RouteBecomes(pool, pool', r, IdleOf(pool, r), WaitersOf(pool, r) - {w})
    ensures WaitersPhased(pool', ph[w := next])
  {
    assert w in ph && ph[w] == Registered(r);
    forall o, v ensures v in WaitersOf(pool', o) <==> v in ph[w := next] && ph[w := next][v] == Registered(o) {
      assert v in WaitersOf(pool, o) <==> v in ph && ph[v] == Registered(o);
      assert WaitersOf(pool', o) == if o == r then WaitersOf(pool, r) - {w} else WaitersOf(pool, o);
    }
  }

  lemma AddDeliverKeepsChannels(s: State, c: ConnId, r: Route, w: WaiterId, s': State, ph: map<WaiterId, Phase>)
    requires Phased(s, ph) && AddDeliverStep(s, c, r, w, s')
    ensures ChannelsPhased(s'.channels, s'.adders, ph[w := Bound(c)])
  {
    assert w in ph && ph[w] == Registered(r);
    hide WaitersPhased, TakersPhased, RouteBecomes;
  }

  lemma AddDeliverKeepsPool(s: State, c: ConnId, r: Route, w: WaiterId, s': State, ph: map<WaiterId, Phase>)
    requires Phased(s, ph) && AddDeliverStep(s, c, r, w, s')
    ensures WaitersPhased(s'.pool, ph[w := Bound(c)])
    ensures ChannelsPhased(s'.channels, s'.adders, ph[w := Bound(c)])
  {
    AddDeliverKeepsChannels(s, c, r, w, s', ph);
    hide WaitersPhased, ChannelsPhased, AddersPhased, TakersPhased, RouteBecomes;
    WaiterBound(s.pool, s'.pool, r, w, ph, Bound(c));
  }

  lemma AddDeliverKeepsAdders(s: State, c: ConnId, r: Route, w: WaiterId, s': State, ph: map<WaiterId, Phase>)
    requires Phased(s, ph) && AddDeliverStep(s, c, r, w, s')
    ensures AddersPhased(s'.adders, ph[w := Bound(c)])
  {
    hide ChannelsPhased, TakersPhased, RouteBecomes;
  }

  lemma AddDeliverKeepsTakers(s: State, c: ConnId, r: Route, w: WaiterId, s': State, ph: map<WaiterId, Phase>)
    requires Phased(s, ph) && AddDeliverStep(s, c, r, w, s')
    ensures TakersPhased(s'.takers, s'.channels, ph[w := Bound(c)])
  {
    hide ChannelsPhased, AddersPhased, RouteBecomes;
  }

  lemma RegisterKeepsPool(s: State, t: TakerId, w: WaiterId, s': State, ph: map<WaiterId, Phase>)
    requires Phased(s, ph) && RegisterStep(s, t, w, s')
    ensures WaitersPhased(s'.pool, ph[w := Registered(s.takers[t].route)])
    ensures ChannelsPhased(s'.channels, s'.adders, ph[w := Registered(s.takers[t].route)])
    ensures w !in ph
  {
    hide AddersPhased, TakersPhased;
  }

  lemma RegisterKeepsAdders(s: State, t: TakerId, w: WaiterId, s': State, ph: map<WaiterId, Phase>)
    requires Phased(s, ph) && RegisterStep(s, t, w, s') && w !in ph
    ensures AddersPhased(s'.adders, ph[w := Registered(s.takers[t].route)])
  {
    hide ChannelsPhased, WaitersPhased, TakersPhased, RouteBecomes;
  }

  lemma RegisterKeepsTakers(s: State, t: TakerId, w: WaiterId, s': State, ph: map<WaiterId, Phase>)
    requires Phased(s, ph) && RegisterStep(s, t, w, s') && w !in ph
    ensures TakersPhased(s'.takers, s'.channels, ph[w := Registered(s.takers[t].route)])
  {
    hide ChannelsPhased, WaitersPhased, AddersPhased, RouteBecomes;
  }

  lemma LeaveKeepsPool(s: State, t: TakerId, s': State, ph: map<WaiterId, Phase>, ph': map<WaiterId, Phase>)
    requires Phased(s, ph) && LeaveStep(s, t, s') && ph' == Rephase(s, Leave(t), s', ph)
    ensures WaitersPhased(s'.pool, ph')
    ensures ChannelsPhased(s'.channels, s'.adders, ph')
  {
    hide AddersPhased;
  }

  lemma LeaveKeepsAdders(s: State, t: TakerId, s': State, ph: map<WaiterId, Phase>, ph': map<WaiterId, Phase>)
    requires Phased(s, ph) && LeaveStep(s, t, s') && ph' == Rephase(s, Leave(t), s', ph)
    ensures AddersPhased(s'.adders, ph')
  {
    hide ChannelsPhased, WaitersPhased, TakersPhased, RouteBecomes;
  }

  lemma LeaveKeepsTakers(s: State, t: TakerId, s': State, ph: map<WaiterId, Phase>, ph': map<WaiterId, Phase>)
    requires Phased(s, ph) && LeaveStep(s, t, s') && ph' == Rephase(s, Leave(t), s', ph)
    ensures TakersPhased(s'.takers, s'.channels, ph')
  {
    hide ChannelsPhased, WaitersPhased, AddersPhased, RouteBecomes;
  }

  lemma SendPhases(s: State, c: ConnId, s': State, ph: map<WaiterId, Phase>)
    requires Phased(s, ph) && SendStep(s, c, s')
    ensures Phased(s', ph[s.adders[c].waiter := Delivered(c)])
  {
    hide WaitersPhased, RouteBecomes;
    SendKeepsWaiters(s.pool, s.adders, c, ph);
  }

  lemma SendKeepsWaiters(pool: Pool, adders: map<ConnId, Adder>, c: ConnId, ph: map<WaiterId, Phase>)
    requires WaitersPhased(pool, ph) && AddersPhased(adders, ph) && c in adders && adders[c].Sending?
    ensures WaitersPhased(pool, ph[adders[c].waiter := Delivered(c)])
  {
  }

  lemma ReceivePhases(s: State, t: TakerId, s': State, ph: map<WaiterId, Phase>)
    requires Phased(s, ph) && ReceiveStep(s, t, s')
    ensures Phased(s', ph[s.takers[t].pc.waiter := Consumed(s'.takers[t].pc.conn)])
  {
    hide WaitersPhased, RouteBecomes;
    ReceiveKeepsWaiters(s.pool, s.channels, s.adders, s.takers[t].pc.waiter, s'.takers[t].pc.conn, ph);
    ReceiveKeepsTakers(s, t, s', ph);
    hide TakersPhased;
  }

  lemma ReceiveKeepsTakers(s: State, t: TakerId, s': State, ph: map<WaiterId, Phase>)
    requires Phased(s, ph) && ReceiveStep(s, t, s')
    ensures TakersPhased(s'.takers, s'.channels, ph[s.takers[t].pc.waiter := Consumed(s'.takers[t].pc.conn)])
  {
    hide WaitersPhased, AddersPhased, RouteBecomes;
  }

  lemma ReceiveKeepsWaiters(pool: Pool, channels: map<WaiterId, Channel>, adders: map<ConnId, Adder>,
                            w: WaiterId, c: ConnId, ph: map<WaiterId, Phase>)
    requires WaitersPhased(pool, ph) && ChannelsPhased(channels, adders, ph)
    requires w in channels && channels[w].buffer != []
    ensures WaitersPhased(pool, ph[w := Consumed(c)])
  {
  }

  ghost predicate Quiet(a: Action) {
    !a.AddDeliver? && !a.Register? && !a.Leave? && !a.Send? && !a.Receive?
  }

  lemma QuietKeepsPool(s: State, a: Action, s': State, ph: map<WaiterId, Phase>)
    requires Phased(s, ph) && Step(s, a, s') && Quiet(a)
    ensures WaitersPhased(s'.pool, ph)
    ensures ChannelsPhased(s'.channels, s'.adders, ph)
  {
    hide TakersPhased;
  }

  lemma QuietKeepsAdders(s: State, a: Action, s': State, ph: map<WaiterId, Phase>)
    requires Phased(s, ph) && Step(s, a, s') && Quiet(a)
    ensures AddersPhased(s'.adders, ph)
  {
    hide WaitersPhased, TakersPhased, ChannelsPhased, RouteBecomes;
  }

  lemma NilNeverArrives(s: State, t: TakerId, ph: map<WaiterId, Phase>)
    requires Phased(s, ph)
    ensures forall s' :: !ReceiveNilStep(s, t, s')
  {
    hide WaitersPhased, AddersPhased;
  }

  /** A take call that moves, but neither comes to wait nor leaves off waiting. */
  lemma OneTakerMoves(takers: map<TakerId, Taker>, channels: map<WaiterId, Channel>, ph: map<WaiterId, Phase>,
          t: TakerId, next: Taker)
    requires TakersPhased(takers, channels, ph)
    requires t in takers && takers[t].pc.Waiting? ==> next.route == takers[t].route && next.pc == Leaving(takers[t].pc.waiter)
    requires t in takers ==> !takers[t].pc.Leaving?
    requires !next.pc.Waiting? && (next.pc.Leaving? ==> t in takers && takers[t].pc == Waiting(next.pc.waiter))
    ensures TakersPhased(takers[t := next], channels, ph)
  {
  }

  lemma ClosingKeepsTakers(takers: map<TakerId, Taker>, channels: map<WaiterId, Channel>, ph: map<WaiterId,
          Phase>, w: WaiterId)
    requires TakersPhased(takers, channels, ph) && w in channels
    ensures TakersPhased(takers, channels[w := channels[w].(closed := true)], ph)
  {
  }

  lemma QuietKeepsTakers(s: State, a: Action, s': State, ph: map<WaiterId, Phase>)
    requires Phased(s, ph) && Step(s, a, s') && Quiet(a)
    ensures TakersPhased(s'.takers, s'.channels, ph)
  {
    hide WaitersPhased, AddersPhased, ChannelsPhased, TakersPhased, RouteBecomes;
    if a.ReceiveNil? {
      hide *;
      NilNeverArrives(s, a.t, ph);
    } else if a.CloseChannel? {
      ClosingKeepsTakers(s.takers, s.channels, ph, s.adders[a.c].waiter);
    } else if a.StartTake? || a.Pop? || a.ProbeLive? || a.ProbeDead? || a.Expire? {
      OneTakerMoves(s.takers, s.channels, ph, a.t, s'.takers[a.t]);
    }
  }

  lemma StepPhases(s: State, a: Action, s': State, ph: map<WaiterId, Phase>)
    requires Phased(s, ph) && Step(s, a, s')
    ensures Phased(s', Rephase(s, a, s', ph))
  {
    hide WaitersPhased, AddersPhased, ChannelsPhased, TakersPhased, RouteBecomes;
    match a
    case AddDeliver(c, r, w) =>
      AddDeliverKeepsPool(s, c, r, w, s', ph);
      AddDeliverKeepsAdders(s, c, r, w, s', ph);
      AddDeliverKeepsTakers(s, c, r, w, s', ph);
    case Register(t, w) =>
      RegisterKeepsPool(s, t, w, s', ph);
      RegisterKeepsAdders(s, t, w, s', ph);
      RegisterKeepsTakers(s, t, w, s', ph);
    case Leave(t) =>
      var ph' := Rephase(s, a, s', ph);
      LeaveKeepsPool(s, t, s', ph, ph'); LeaveKeepsAdders(s, t, s', ph, ph'); LeaveKeepsTakers(s, t, s', ph, ph');
    case Send(c) => SendPhases(s, c, s', ph);
    case Receive(t) => ReceivePhases(s, t, s', ph);
    case _ => QuietKeepsPool(s, a, s', ph); QuietKeepsAdders(s, a, s', ph); QuietKeepsTakers(s, a, s', ph);
  }

  // ---------------------------------------------------------------------- the pool's own maps

  lemma ReapKeepsLists(s: State, c: ConnId, s': State)
    requires PoolOk(s) && ReapStep(s, c, s')
    ensures ListsOk(s'.pool)
  {
    WithoutMembers(IdleOf(s.pool, s.routes[c]), c);
    hide ParkedOk, Without;
  }

  /** Fewer idle connections, and not c: then c's cancel goroutine may be anywhere. */
  lemma ParkedWithout(pool: Pool, pool': Pool, adders: map<ConnId, Adder>, routes: map<ConnId, Route>,
          reapers: map<ConnId, Reaper>, c: ConnId, next: Reaper)
    requires ParkedOk(pool, adders, routes, reapers) && c in reapers
    requires forall r, d :: d in IdleOf(pool', r) ==> d in IdleOf(pool, r) && d != c
    ensures ParkedOk(pool', adders, routes, reapers[c := next])
  {
    hide IdleOf;
  }

  lemma ReapedIsUnlinked(s: State, c: ConnId, s': State)
    requires PoolOk(s) && ReapStep(s, c, s')
    ensures forall r, d :: d in IdleOf(s'.pool, r) ==> d in IdleOf(s.pool, r) && d != c
  {
    WithoutMembers(IdleOf(s.pool, s.routes[c]), c);
    hide IdleOf, WaitersOf, Without, NoDuplicates;
    forall r, d | d in IdleOf(s'.pool, r) ensures d in IdleOf(s.pool, r) && d != c {
      if r == s.routes[c] { assert d in Without(IdleOf(s.pool, r), c); }
    }
  }

  lemma ReapKeepsParked(s: State, c: ConnId, s': State)
    requires PoolOk(s) && ReapStep(s, c, s')
    ensures ParkedOk(s'.pool, s'.adders, s'.routes, s'.reapers)
  {
    ReapedIsUnlinked(s, c, s');
    hide RouteBecomes, ListsOk, ParkedOk;
    ParkedWithout(s.pool, s'.pool, s.adders, s.routes, s.reapers, c, s'.reapers[c]);
  }

  lemma ReapKeepsPool(s: State, c: ConnId, s': State)
    requires PoolOk(s) && ReapStep(s, c, s')
    ensures PoolOk(s')
  {
    ReapKeepsLists(s, c, s');
    ReapKeepsParked(s, c, s');
  }

  lemma AddParkKeepsLists(s: State, c: ConnId, r: Route, s': State)
    requires PoolOk(s) && AddParkStep(s, c, r, s')
    ensures ListsOk(s'.pool)
  {
  }

  lemma AddParkKeepsParked(s: State, c: ConnId, r: Route, s': State)
    requires PoolOk(s) && AddParkStep(s, c, r, s')
    ensures ParkedOk(s'.pool, s'.adders, s'.routes, s'.reapers)
  {
    hide ListsOk;
  }

  lemma AddDeliverKeepsLists(s: State, c: ConnId, r: Route, w: WaiterId, s': State)
    requires PoolOk(s) && AddDeliverStep(s, c, r, w, s')
    ensures PoolOk(s')
  {
    assert forall o :: IdleOf(s'.pool, o) == IdleOf(s.pool, o);
    assert forall o :: WaitersOf(s'.pool, o) <= WaitersOf(s.pool, o);
  }

  lemma PopKeepsLists(s: State, t: TakerId, s': State)
    requires PoolOk(s) && PopStep(s, t, s')
    ensures ListsOk(s'.pool)
  {
    hide ParkedOk;
  }

  lemma PopKeepsParked(s: State, t: TakerId, s': State)
    requires PoolOk(s) && PopStep(s, t, s')
    ensures ParkedOk(s'.pool, s'.adders, s'.routes, s'.reapers)
  {
    assert forall r, c :: c in IdleOf(s'.pool, r) ==> c in IdleOf(s.pool, r);
    hide ListsOk, RouteBecomes;
  }

  lemma PopKeepsPool(s: State, t: TakerId, s': State)
    requires PoolOk(s) && PopStep(s, t, s')
    ensures PoolOk(s')
  {
    PopKeepsLists(s, t, s');
    PopKeepsParked(s, t, s');
  }

  /** Register and Leave change no idle list. */
  lemma WaiterKeepsPool(s: State, a: Action, s': State)
    requires PoolOk(s) && Step(s, a, s') && (a.Register? || a.Leave?)
    ensures PoolOk(s')
  {
    var r := s.takers[a.t].route;
    assert forall o :: IdleOf(s'.pool, o) == IdleOf(s.pool, o);
  }

  lemma QuietKeepsParked(s: State, a: Action, s': State)
    requires PoolOk(s) && Step(s, a, s')
    requires !a.AddPark? && !a.AddDeliver? && !a.Pop? && !a.Register? && !a.Leave? && !a.Reap?
    ensures s'.pool == s.pool && ParkedOk(s'.pool, s'.adders, s'.routes, s'.reapers)
  {
    hide ListsOk, RouteBecomes;
  }

  lemma StepKeepsPool(s: State, a: Action, s': State)
    requires PoolOk(s) && Step(s, a, s')
    ensures PoolOk(s')
  {
    hide ListsOk, ParkedOk, RouteBecomes;
    if a.AddPark? {
      AddParkKeepsLists(s, a.c, a.r, s');
      AddParkKeepsParked(s, a.c, a.r, s');
    } else if a.AddDeliver? {
      AddDeliverKeepsLists(s, a.c, a.r, a.w, s');
    } else if a.Pop? {
      PopKeepsPool(s, a.t, s');
    } else if a.Register? || a.Leave? {
      WaiterKeepsPool(s, a, s');
    } else if a.Reap? {
      ReapKeepsPool(s, a.c, s');
    } else {
      QuietKeepsParked(s, a, s');
    }
  }

  // ---------------------------------------------------------------------------- whole runs

  /** What every reachable state satisfies. */
  ghost predicate Inv(s: State) {
    PoolOk(s) && exists loc: map<ConnId, Place>, ph: map<WaiterId, Phase> :: Located(s, loc) && Phased(s, ph)
  }

  lemma StepKeepsInv(s: State, a: Action, s': State)
    requires Inv(s) && Step(s, a, s')
    ensures Inv(s')
  {
    hide Step, PoolOk, Located, Phased;
    var loc: map<ConnId, Place>, ph: map<WaiterId, Phase> :| Located(s, loc) && Phased(s, ph);
    StepKeepsPool(s, a, s');
    StepLocates(s, a, s', loc, ph);
    StepPhases(s, a, s', ph);
  }

  lemma InitialInv()
    ensures Inv(INITIAL)
  {
    assert Located(INITIAL, map[]) && Phased(INITIAL, map[]);
  }

  lemma {:induction false} InvHolds(ss: seq<State>, acts: seq<Action>, i: nat)
    requires Run(ss, acts) && i < |ss|
    ensures Inv(ss[i])
  {
    hide Step, Inv;
    if i == 0 {
      InitialInv();
    } else {
      InvHolds(ss, acts, i - 1);
      StepKeepsInv(ss[i - 1], acts[i - 1], ss[i]);
    }
  }
}
