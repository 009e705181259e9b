/** The gateway's pool of idle agent tunnels: the maps guarded by its mutex, and one
    method per critical section. The interleaving of these sections with the channel
    operations around them is in AgentTunnelProtocol. */
module AgentTunnels {
  import opened Collections

  type Route = string
  type ConnId = nat
  type WaiterId = nat

  /** The contents of the pool's two maps. */
  datatype Pool = Pool(idle: map<Route, seq<ConnId>>, waiters: map<Route, set<WaiterId>>)

  function IdleOf(p: Pool, r: Route): seq<ConnId> {
    if r in p.idle then p.idle[r] else []
  }

  function WaitersOf(p: Pool, r: Route): set<WaiterId> {
    if r in p.waiters then p.waiters[r] else {}
  }

  /** What a waiter sees of a critical section: the idle list and the waiter set of one
      route change, those of every other route stay. */
  ghost predicate RouteBecomes(p: Pool, q: Pool, r: Route, idle: seq<ConnId>, waiters: set<WaiterId>) {
    && IdleOf(q, r) == idle
    && WaitersOf(q, r) == waiters
    && forall o :: o != r ==> IdleOf(q, o) == IdleOf(p, o) && WaitersOf(q, o) == WaitersOf(p, o)
  }

  lemma WithoutStep<T>(l: seq<T>, e: nat, c: T)
    requires e < |l| && l[e] != c
    ensures l[..e] + Without(l[e..], c) == l[..e + 1] + Without(l[e + 1..], c)
  {
    assert l[e..][1..] == l[e + 1..];
    assert l[..e + 1] == l[..e] + [l[e]];
  }

  lemma WithoutFound<T>(l: seq<T>, e: nat, c: T)
    requires e < |l| && l[e] == c
    ensures l[..e] + Without(l[e..], c) == l[..e] + l[e + 1..]
  {
    assert l[e..][1..] == l[e + 1..];
  }

  lemma {:induction false} WithoutNone<T>(l: seq<T>, c: T)
    requires c !in l
    ensures Without(l, c) == l
  {
    if l != [] { WithoutNone(l[1..], c); }
  }

  class AgentPool {
    var idle: map<Route, seq<ConnId>>
    var waiters: map<Route, set<WaiterId>>

    constructor ()
      ensures Contents() == Pool(map[], map[])
    {
      idle, waiters := map[], map[];
    }

    ghost function Contents(): Pool
      reads this
    {
      Pool(idle, waiters)
    }

    /** The locked part of add: bind the connection to some registered waiter, or park it. */
    method Add(route: Route, conn: ConnId) returns (delivered: bool, waiter: WaiterId)
      modifies this
      ensures delivered == (WaitersOf(old(Contents()), route) != {})
      ensures delivered ==> waiter in WaitersOf(old(Contents()), route)
      ensures delivered ==>
        RouteBecomes(old(Contents()), Contents(), route,
          IdleOf(old(Contents()), route), WaitersOf(old(Contents()), route) - {waiter})
      ensures !delivered ==>
        RouteBecomes(old(Contents()), Contents(), route, IdleOf(old(Contents()), route) + [conn], {})
    {
      delivered, waiter := false, 0;
      if route in waiters && waiters[route] != {} {
        var w :| w in waiters[route];
        waiters := waiters[route := waiters[route] - {w}];
        return true, w;
      }
      if route !in idle {
        idle := idle[route := []];
      }
      idle := idle[route := idle[route] + [conn]];
    }

    /** The locked part of one round of take: pop the oldest idle connection, or register
        the round's new waiter channel. */
    method Take(route: Route, freshWaiter: WaiterId) returns (found: bool, conn: ConnId)
      modifies this
      ensures found == (IdleOf(old(Contents()), route) != [])
      ensures found ==> conn == IdleOf(old(Contents()), route)[0]
      ensures found ==>
        RouteBecomes(old(Contents()), Contents(), route,
          IdleOf(old(Contents()), route)[1..], WaitersOf(old(Contents()), route))
      ensures !found ==>
        RouteBecomes(old(Contents()), Contents(), route, [], WaitersOf(old(Contents()), route) + {freshWaiter})
    {
      found, conn := false, 0;
      if route in idle && |idle[route]| > 0 {
        conn := idle[route][0];
        idle := idle[route := idle[route][1..]];
        return true, conn;
      }
      if route !in waiters {
        waiters := waiters[route := {}];
      }
      waiters := waiters[route := waiters[route] + {freshWaiter}];
    }

    /** removeIdle: walk the route's list and unlink the first element equal to target. */
    method RemoveIdle(route: Route, target: ConnId) returns (removed: bool)
      modifies this
      ensures removed == (target in IdleOf(old(Contents()), route))
      ensures RouteBecomes(old(Contents()), Contents(), route,
                Without(IdleOf(old(Contents()), route), target), WaitersOf(old(Contents()), route))
    {
      WithoutNone([], target);
      hide Without;
      if route !in idle {
        return false;
      }
      var l := idle[route];
      assert l[..0] + Without(l[0..], target) == Without(l, target) by { assert l[0..] == l; }
      var e := 0;
      while e < |l|
        invariant 0 <= e <= |l|
        invariant target !in l[..e]
        invariant l[..e] + Without(l[e..], target) == Without(l, target)
        invariant idle == old(idle) && waiters == old(waiters)
      {
        if l[e] == target {
          WithoutFound(l, e, target);
          idle := idle[route := l[..e] + l[e + 1..]];
          if |idle[route]| == 0 {
            idle := idle - {route};
          }
          return true;
        }
        WithoutStep(l, e, target);
        e := e + 1;
      }
      WithoutNone(l, target);
      assert l[..e] == l;
      return false;
    }

    /** removeWaiter: unregister the channel if it is still registered. */
    method RemoveWaiter(route: Route, target: WaiterId)
      modifies this
      ensures RouteBecomes(old(Contents()), Contents(), route,
                IdleOf(old(Contents()), route), WaitersOf(old(Contents()), route) - {target})
    {
      if route in waiters && target in waiters[route] {
        waiters := waiters[route := waiters[route] - {target}];
        if |waiters[route]| == 0 {
          waiters := waiters - {route};
        }
      }
    }
  }
}
