/** The connection pool of a host, and who owns a session in every interleaving of its lock sections. */
module Pools {
  import opened Common

  /** Sessions are told apart by number. */
  type Session = nat

  datatype Pool = Pool(max: nat, idle: map<string, seq<Session>>, active: set<Session>)

  function IdleOf(pool: Pool, host: string): seq<Session> {
    if host in pool.idle then pool.idle[host] else []
  }

  function Pooled(pool: Pool): set<Session> {
    set host, s | host in pool.idle && s in pool.idle[host] :: s
  }

  // ----- what the lock sections do -----

  /** Takes the idle session returned last; it is active from now on. */
  function TakeIdle(pool: Pool, host: string): (Pool, Option<Session>) {
    var conns := IdleOf(pool, host);
    if conns == [] then (pool, None)
    else
      var conn := conns[|conns| - 1];
      (Pool(pool.max, pool.idle[host := conns[..|conns| - 1]], pool.active + {conn}), Some(conn))
  }

  function Track(pool: Pool, s: Session): Pool {
    pool.(active := pool.active + {s})
  }

  function Untrack(pool: Pool, s: Session): Pool {
    pool.(active := pool.active - {s})
  }

  /** There is room for one more idle session of the host. */
  predicate Room(pool: Pool, host: string) {
    |IdleOf(pool, host)| < pool.max
  }

  function GiveBack(pool: Pool, host: string, s: Session): Pool {
    if Room(pool, host) then Untrack(pool, s).(idle := pool.idle[host := IdleOf(pool, host) + [s]])
    else Untrack(pool, s)
  }

  /** What GetConnection makes of a pool, and the session it returns. */
  function Acquired(pool: Pool, host: string, made: Session, answers: bool, connects: bool): (Pool, Option<Session>) {
    var (taken, conn) := TakeIdle(pool, host);
    if conn.Some? && answers then (taken, conn)
    else
      var rest := if conn.Some? then Untrack(taken, conn.value) else taken;
      if connects then (Track(rest, made), Some(made)) else (Untrack(Track(rest, made), made), None)
  }

  class ConnectionPool {
    const maxConnectionsPerHost: nat
    var connections: map<string, seq<Session>>
    var activeConnections: set<Session>

    ghost function State(): Pool
      reads this
    {
      Pool(maxConnectionsPerHost, connections, activeConnections)
    }

    constructor (max: nat)
      ensures State() == Pool(max, map[], {})
    {
      maxConnectionsPerHost, connections, activeConnections := max, map[], {};
    }

    /** The first lock section of GetConnection. */
    method Reuse(host: string) returns (conn: Option<Session>)
      modifies this
      ensures (State(), conn) == TakeIdle(old(State()), host)
    {
      if host in connections && |connections[host]| > 0 {
        var conns := connections[host];
        conn := Some(conns[|conns| - 1]);
        connections := connections[host := conns[..|conns| - 1]];
        activeConnections := activeConnections + {conn.value};
      } else {
        conn := None;
      }
    }

    method MarkActive(s: Session)
      modifies this
      ensures State() == Track(old(State()), s)
    {
      activeConnections := activeConnections + {s};
    }

    method MarkInactive(s: Session)
      modifies this
      ensures State() == Untrack(old(State()), s)
    {
      activeConnections := activeConnections - {s};
    }

    /**
      * GetConnection when nobody comes in between: the lock sections one after the other. `answers` says whether the
      * idle session answers the ping, `connects` whether the new session `made` connects.
      */
    method GetConnection(host: string, made: Session, answers: bool, connects: bool) returns (conn: Option<Session>)
      modifies this
      ensures (State(), conn) == Acquired(old(State()), host, made, answers, connects)
    {
      conn := Reuse(host);
      if conn.Some? {
        if answers {
          return;
        }
        MarkInactive(conn.value);
      }
      MarkActive(made);
      if connects {
        return Some(made);
      }
      MarkInactive(made);
      conn := None;
    }

    method ReturnConnection(host: string, conn: Session) returns (closed: set<Session>)
      modifies this
      ensures State() == GiveBack(old(State()), host, conn)
      ensures closed == if Room(old(State()), host) then {} else {conn}
    {
      activeConnections := activeConnections - {conn};
      var conns := if host in connections then connections[host] else [];
      if |conns| < maxConnectionsPerHost {
        connections := connections[host := conns + [conn]];
        closed := {};
      } else {
        closed := {conn};
      }
    }

    /** The sessions in the idle lists, list by list. */
    method IdleSessions() returns (sessions: set<Session>)
      ensures sessions == Pooled(State())
    {
      sessions := {};
      var hosts := connections.Keys;
      ghost var done: set<string> := {};
      while hosts != {}
        invariant done !! hosts && done + hosts == connections.Keys
        invariant sessions == set host, s | host in done && s in connections[host] :: s
      {
        var host :| host in hosts;
        var conns := connections[host];
        ghost var before := sessions;
        for i := 0 to |conns|
          invariant sessions == before + Elements(conns[..i])
        {
          sessions := sessions + {conns[i]};
        }
        assert conns[..|conns|] == conns;
        hosts, done := hosts - {host}, done + {host};
      }
    }

    method CloseAll() returns (closed: set<Session>)
      modifies this
      ensures State() == old(State()).(idle := map[])
      ensures closed == Pooled(old(State()))
    {
      closed := IdleSessions();
      connections := map[];
    }

    method ForceCloseAll() returns (closed: set<Session>)
      modifies this
      ensures State() == Pool(maxConnectionsPerHost, map[], {})
      ensures closed == old(State()).active + Pooled(old(State()))
    {
      closed := activeConnections;
      activeConnections := {};
      var pooled := IdleSessions();
      closed := closed + pooled;
      connections := map[];
    }
  }

  // ----- the users of a pool -----

  /** How far a user of the pool has come; each gets one session and gives it back. */
  datatype Phase =
    | Ready
    | Pinging(s: Session)
    | Dead(s: Session)
    | Creating
    | Connecting(s: Session)
    | Rejected(s: Session)
    | Holding(s: Session)
    | Done

  datatype User = User(host: string, phase: Phase)

  /** `open` are the sessions with a live connection; `forced` tells whether the timeout has struck. */
  datatype System = System(pool: Pool, users: seq<User>, open: set<Session>, next: Session, forced: bool, exited: bool)

  datatype Step =
    | Skip(i: nat)            // no session is asked for
    | Get(i: nat)             // look for an idle session
    | PingOk(i: nat, revived: bool)
    | PingFailed(i: nat)
    | CloseDead(i: nat)
    | Create(i: nat)          // a new session, tracked before it connects
    | ConnectOk(i: nat)
    | ConnectFailed(i: nat)
    | Drop(i: nat)            // no longer tracked, error returned
    | Reconnect(i: nat)       // a session in use comes back to life by the native fallback
    | Return(i: nat)
    | Force                   // the host timeout and its ticker
    | Exit                    // all users are done: CloseAll

  predicate Enabled(sys: System, step: Step) {
    match step
    case Force => true
    case Exit => !sys.exited && forall u :: u in sys.users ==> u.phase == Done
    case _ =>
      step.i < |sys.users| && var phase := sys.users[step.i].phase;
      match step
      case Skip(_) => phase == Ready
      case Get(_) => phase == Ready
      case PingOk(_, _) => phase.Pinging?
      case PingFailed(_) => phase.Pinging?
      case CloseDead(_) => phase.Dead?
      case Create(_) => phase == Creating
      case ConnectOk(_) => phase.Connecting?
      case ConnectFailed(_) => phase.Connecting?
      case Drop(_) => phase.Rejected?
      case Reconnect(_) => phase.Holding?
      case Return(_) => phase.Holding?
      case _ => false
  }

  function Moved(sys: System, i: nat, phase: Phase): System
    requires i < |sys.users|
  {
    sys.(users := sys.users[i := sys.users[i].(phase := phase)])
  }

  function Next(sys: System, step: Step): System
    requires Enabled(sys, step)
  {
    match step
    case Force => sys.(pool := Pool(sys.pool.max, map[], {}), open := sys.open - sys.pool.active - Pooled(sys.pool),
      forced := true)
    case Exit => sys.(pool := sys.pool.(idle := map[]), open := sys.open - Pooled(sys.pool), exited := true)
    case Skip(i) => Moved(sys, i, Done)
    case Get(i) =>
      var (pool, conn) := TakeIdle(sys.pool, sys.users[i].host);
      Moved(sys, i, if conn.Some? then Pinging(conn.value) else Creating).(pool := pool)
    case PingOk(i, revived) =>
      var s := sys.users[i].phase.s;
      Moved(sys, i, Holding(s)).(open := if revived then sys.open + {s} else sys.open)
    case PingFailed(i) =>
      var s := sys.users[i].phase.s;
      Moved(sys, i, Dead(s)).(pool := Untrack(sys.pool, s))
    case CloseDead(i) => Moved(sys, i, Creating).(open := sys.open - {sys.users[i].phase.s})
    case Create(i) => Moved(sys, i, Connecting(sys.next)).(pool := Track(sys.pool, sys.next), next := sys.next + 1)
    case ConnectOk(i) =>
      var s := sys.users[i].phase.s;
      Moved(sys, i, Holding(s)).(open := sys.open + {s})
    case ConnectFailed(i) => Moved(sys, i, Rejected(sys.users[i].phase.s))
    case Drop(i) => Moved(sys, i, Done).(pool := Untrack(sys.pool, sys.users[i].phase.s))
    case Reconnect(i) => sys.(open := sys.open + {sys.users[i].phase.s})
    case Return(i) =>
      var s, host := sys.users[i].phase.s, sys.users[i].host;
      Moved(sys, i, Done).(pool := GiveBack(sys.pool, host, s), open := if Room(sys.pool, host) then sys.open
        else sys.open - {s})
  }

  /** The session in a user's hands. */
  function Owned(u: User): Option<Session> {
    match u.phase
    case Pinging(s) => Some(s)
    case Dead(s) => Some(s)
    case Connecting(s) => Some(s)
    case Rejected(s) => Some(s)
    case Holding(s) => Some(s)
    case _ => None
  }

  /** Sessions the pool is to know as active. */
  predicate Tracked(u: User) {
    u.phase.Pinging? || u.phase.Connecting? || u.phase.Rejected? || u.phase.Holding?
  }

  /** Sessions that may have a live connection. */
  predicate Connected(u: User) {
    u.phase.Pinging? || u.phase.Dead? || u.phase.Holding?
  }

  // ----- one place per session -----

  predicate Lists(pool: Pool, host: string, s: Session) {
    host in pool.idle && s in pool.idle[host]
  }

  ghost predicate IdleLists(pool: Pool, next: Session) {
    && (forall host :: host in pool.idle ==> Distinct(pool.idle[host]) && |pool.idle[host]| <= pool.max)
    && (forall host, other, s: Session :: Lists(pool, host, s) && Lists(pool, other, s) ==> host == other)
    && (forall host, s: Session :: Lists(pool, host, s) ==> s < next)
    && (forall host, s: Session :: Lists(pool, host, s) ==> s !in pool.active)
  }

  predicate Hands(sys: System) {
    && (forall i :: 0 <= i < |sys.users| && Owned(sys.users[i]).Some? ==>
          Owned(sys.users[i]).value < sys.next && Owned(sys.users[i]).value !in Pooled(sys.pool))
    && (forall i, j :: 0 <= i < j < |sys.users| && Owned(sys.users[i]).Some? ==>
         Owned(sys.users[i]) != Owned(sys.users[j]))
  }

  predicate Owner(sys: System, s: Session, i: int) {
    0 <= i < |sys.users| && Owned(sys.users[i]) == Some(s)
  }

  ghost predicate Invariant(sys: System) {
    && IdleLists(sys.pool, sys.next) && Hands(sys)
    && ActiveHeld(sys) && OpenKept(sys) && HeldActive(sys) && Left(sys)
  }

  /** Each state comes from the one before by an enabled step. */
  ghost predicate Linked(states: seq<System>, steps: seq<Step>) {
    && |states| == |steps| + 1
    && forall k :: 0 <= k < |steps| ==> Enabled(states[k], steps[k]) && states[k + 1] == Next(states[k], steps[k])
  }

  /** A run: an empty pool, all users ready. */
  ghost predicate Behavior(states: seq<System>, steps: seq<Step>) {
    && Linked(states, steps)
    && states[0].pool.idle == map[] && states[0].pool.active == {} && states[0].open == {} && !states[0].forced &&
         !states[0].exited
    && forall u :: u in states[0].users ==> u.phase == Ready
  }

  // ----- the invariant holds in every run -----

  lemma PooledHas(pool: Pool, s: Session)
    ensures s in Pooled(pool) <==> exists host :: Lists(pool, host, s)
  {
    if s in Pooled(pool) {
      var host :| host in pool.idle && s in pool.idle[host];
      assert Lists(pool, host, s);
    }
  }

  lemma SamePooled(pool: Pool, other: Pool)
    requires pool.idle == other.idle
    ensures Pooled(pool) == Pooled(other)
    ensures forall host, s: Session :: Lists(pool, host, s) == Lists(other, host, s)
  {
  }

  /** Taking an idle session: it leaves the lists. */
  lemma Taken(pool: Pool, host: string, next: Session)
    requires IdleLists(pool, next) && IdleOf(pool, host) != []
    ensures var (after, conn) := TakeIdle(pool, host);
      && conn.Some? && conn.value < next && conn.value !in pool.active && conn.value in Pooled(pool)
      && IdleLists(after, next) && Pooled(after) == Pooled(pool) - {conn.value} && after.max == pool.max
  {
    hide Pooled;
    var (after, conn) := TakeIdle(pool, host);
    var s, conns := conn.value, pool.idle[host];
    var init := conns[..|conns| - 1];
    assert conns == init + [s] && s in conns && s !in init;
    assert Lists(pool, host, s);
    forall h, x ensures Lists(after, h, x) <==> Lists(pool, h, x) && x != s {
      if h != host && x == s { assert !Lists(pool, h, x); }
    }
    forall x ensures x in Pooled(after) <==> x in Pooled(pool) && x != s {
      PooledHas(pool, x);
      PooledHas(after, x);
    }
    hide Lists;
    PooledHas(pool, s);
  }

  /** Giving a session back that is in no list. */
  lemma Given(pool: Pool, host: string, s: Session, next: Session)
    requires IdleLists(pool, next) && s < next && s !in Pooled(pool)
    ensures IdleLists(GiveBack(pool, host, s), next)
    ensures Pooled(GiveBack(pool, host, s)) == if Room(pool, host) then Pooled(pool) + {s} else Pooled(pool)
  {
    hide Pooled;
    var after := GiveBack(pool, host, s);
    if Room(pool, host) {
      PooledHas(pool, s);
      assert forall h :: !Lists(pool, h, s);
      assert after.idle[host] == IdleOf(pool, host) + [s];
      MoreListed(pool, host, s, after);
      forall x ensures x in Pooled(after) <==> x in Pooled(pool) || x == s {
        PooledHas(pool, x);
        PooledHas(after, x);
        assert x == s ==> Lists(after, host, x);
      }
      assert !Lists(pool, host, s);
      DistinctMore(IdleOf(pool, host), s);
      hide Lists;
    } else {
      UntrackedLists(pool, next, s);
    }
  }

  lemma MoreListed(pool: Pool, host: string, s: Session, after: Pool)
    requires after.idle == pool.idle[host := IdleOf(pool, host) + [s]]
    ensures forall h, x :: Lists(after, h, x) <==> Lists(pool, h, x) || (h == host && x == s)
  {
  }

  lemma DistinctMore(conns: seq<Session>, s: Session)
    requires Distinct(conns) && s !in conns
    ensures Distinct(conns + [s])
  {
  }

  /** A user moves on with a session it has, or with none. */
  lemma UserMoves(sys: System, i: nat, phase: Phase, pool: Pool)
    requires Hands(sys) && i < |sys.users| && Pooled(pool) <= Pooled(sys.pool)
    requires Owned(User("", phase)).None? || Owned(User("", phase)) == Owned(sys.users[i])
    ensures Hands(Moved(sys, i, phase).(pool := pool))
  {
    hide Pooled;
    var after := Moved(sys, i, phase).(pool := pool);
    assert Owned(after.users[i]) == Owned(User("", phase));
  }

  /** A user gets a session nobody has. */
  lemma UserGets(sys: System, i: nat, phase: Phase, pool: Pool, next: Session)
    requires Hands(sys) && i < |sys.users| && sys.next <= next && Pooled(pool) <= Pooled(sys.pool)
    requires var owned := Owned(User("", phase));
      owned.Some? && owned.value < next && owned.value !in Pooled(pool) && forall k :: !Owner(sys, owned.value, k)
    ensures Hands(Moved(sys, i, phase).(pool := pool, next := next))
  {
    hide Pooled;
    var after := Moved(sys, i, phase).(pool := pool, next := next);
    assert Owned(after.users[i]) == Owned(User("", phase));
    forall j, k | 0 <= j < k < |after.users| && Owned(after.users[j]).Some?
      ensures Owned(after.users[j]) != Owned(after.users[k])
    {
      assert !Owner(sys, Owned(User("", phase)).value, j) && !Owner(sys, Owned(User("", phase)).value, k);
    }
  }

  lemma HandsKept(sys: System, step: Step)
    requires IdleLists(sys.pool, sys.next) && Hands(sys) && Enabled(sys, step)
    ensures IdleLists(Next(sys, step).pool, Next(sys, step).next) && Hands(Next(sys, step))
  {
    hide Pooled, GiveBack, Hands, IdleLists;
    match step
    case Force => NoneIdle(sys);
    case Exit => NoneIdle(sys);
    case Skip(i) => UserMoves(sys, i, Done, sys.pool);
    case Get(i) =>
      if IdleOf(sys.pool, sys.users[i].host) == [] {
        UserMoves(sys, i, Creating, sys.pool);
      } else {
        Taken(sys.pool, sys.users[i].host, sys.next);
        var (pool, conn) := TakeIdle(sys.pool, sys.users[i].host);
        PooledUnowned(sys, conn.value);
        UserGets(sys, i, Pinging(conn.value), pool, sys.next);
      }
    case PingOk(i, _) =>
      UserMoves(sys, i, Holding(sys.users[i].phase.s), sys.pool);
      SameHands(Moved(sys, i, Holding(sys.users[i].phase.s)), Next(sys, step));
    case PingFailed(i) =>
      UntrackedLists(sys.pool, sys.next, sys.users[i].phase.s);
      UserMoves(sys, i, Dead(sys.users[i].phase.s), Untrack(sys.pool, sys.users[i].phase.s));
    case CloseDead(i) =>
      UserMoves(sys, i, Creating, sys.pool);
      SameHands(Moved(sys, i, Creating), Next(sys, step));
    case Create(i) =>
      NextUnused(sys);
      UserGets(sys, i, Connecting(sys.next), Track(sys.pool, sys.next), sys.next + 1);
    case ConnectOk(i) =>
      UserMoves(sys, i, Holding(sys.users[i].phase.s), sys.pool);
      SameHands(Moved(sys, i, Holding(sys.users[i].phase.s)), Next(sys, step));
    case ConnectFailed(i) => UserMoves(sys, i, Rejected(sys.users[i].phase.s), sys.pool);
    case Drop(i) =>
      UntrackedLists(sys.pool, sys.next, sys.users[i].phase.s);
      UserMoves(sys, i, Done, Untrack(sys.pool, sys.users[i].phase.s));
    case Reconnect(i) => SameHands(sys, Next(sys, step));
    case Return(i) => ReturnKept(sys, i);
  }

  lemma SameHands(sys: System, after: System)
    requires Hands(sys) && after.users == sys.users && after.next == sys.next && after.pool == sys.pool
    ensures Hands(after)
  {
    hide Pooled;
  }

  lemma NoneIdle(sys: System)
    requires Hands(sys)
    ensures forall active :: IdleLists(Pool(sys.pool.max, map[], active), sys.next)
    ensures forall active, open, forced, exited ::
      Hands(System(Pool(sys.pool.max, map[], active), sys.users, open, sys.next, forced, exited))
  {
  }

  lemma PooledUnowned(sys: System, s: Session)
    requires Hands(sys) && s in Pooled(sys.pool)
    ensures forall k :: !Owner(sys, s, k)
  {
    hide Pooled;
  }

  lemma UntrackedLists(pool: Pool, next: Session, s: Session)
    requires IdleLists(pool, next)
    ensures IdleLists(Untrack(pool, s), next) && Pooled(Untrack(pool, s)) == Pooled(pool)
  {
    hide Pooled, Lists;
    SamePooled(pool, Untrack(pool, s));
  }

  /** A new session is in no list and in nobody's hands. */
  lemma NextUnused(sys: System)
    requires IdleLists(sys.pool, sys.next) && Hands(sys)
    ensures IdleLists(Track(sys.pool, sys.next), sys.next + 1)
    ensures Pooled(Track(sys.pool, sys.next)) == Pooled(sys.pool) && sys.next !in Pooled(sys.pool)
    ensures forall k :: !Owner(sys, sys.next, k)
  {
    hide Pooled, Lists;
    SamePooled(sys.pool, Track(sys.pool, sys.next));
    PooledHas(sys.pool, sys.next);
  }

  lemma ReturnKept(sys: System, i: nat)
    requires IdleLists(sys.pool, sys.next) && Hands(sys) && Enabled(sys, Return(i))
    ensures IdleLists(Next(sys, Return(i)).pool, sys.next) && Hands(Next(sys, Return(i)))
  {
    hide Pooled, GiveBack, Room;
    var s, after := sys.users[i].phase.s, Next(sys, Return(i));
    assert Owned(sys.users[i]) == Some(s);
    Given(sys.pool, sys.users[i].host, s, sys.next);
    forall j | 0 <= j < |after.users| && Owned(after.users[j]).Some?
      ensures Owned(after.users[j]).value < after.next && Owned(after.users[j]).value !in Pooled(after.pool)
    {
      assert j != i && after.users[j] == sys.users[j];
      assert Owned(sys.users[j]) != Owned(sys.users[i]);
    }
  }

  // ----- who accounts for the active and the open sessions -----

  ghost predicate ActiveHeld(sys: System) {
    forall s: Session :: s in sys.pool.active ==> exists i :: Owner(sys, s, i) && Tracked(sys.users[i])
  }

  ghost predicate OpenKept(sys: System) {
    forall s: Session :: s in sys.open ==>
      s in Pooled(sys.pool) || exists i :: Owner(sys, s, i) && Connected(sys.users[i])
  }

  ghost predicate HeldActive(sys: System) {
    !sys.forced ==> forall i :: 0 <= i < |sys.users| && Tracked(sys.users[i]) ==>
      Owned(sys.users[i]).value in sys.pool.active
  }

  ghost predicate Left(sys: System) {
    sys.exited ==> sys.pool.idle == map[] && forall u :: u in sys.users ==> u.phase == Done
  }

  /** One user moves; the other users keep what they have. */
  lemma OthersKeep(sys: System, i: nat, phase: Phase, after: System, s: Session, j: int)
    requires i < |sys.users| && after.users == Moved(sys, i, phase).users && Owner(sys, s, j) && j != i
    ensures Owner(after, s, j) && after.users[j] == sys.users[j]
  {
  }

  lemma ActiveHeldKept(sys: System, step: Step)
    requires Hands(sys) && ActiveHeld(sys) && Enabled(sys, step)
    ensures ActiveHeld(Next(sys, step))
  {
    hide Pooled, Hands, Room;
    var after := Next(sys, step);
    if step != Force && step != Exit {
      var i := step.i;
      forall s: Session | s in after.pool.active ensures exists j :: Owner(after, s, j) && Tracked(after.users[j]) {
        if s in sys.pool.active {
          var j :| Owner(sys, s, j) && Tracked(sys.users[j]);
          if j != i {
            OthersKeep(sys, i, after.users[i].phase, after, s, j);
            assert Owner(after, s, j) && Tracked(after.users[j]);
          } else {
            assert Owner(after, s, i) && Tracked(after.users[i]);
          }
        } else {
          assert Owner(after, s, i) && Tracked(after.users[i]);
        }
      }
    } else {
      forall s: Session | s in after.pool.active ensures exists j :: Owner(after, s, j) && Tracked(after.users[j]) {
        var j :| Owner(sys, s, j) && Tracked(sys.users[j]);
        assert Owner(after, s, j) && Tracked(after.users[j]);
      }
    }
  }

  lemma OpenKeptKept(sys: System, step: Step)
    requires IdleLists(sys.pool, sys.next) && Hands(sys) && OpenKept(sys) && Enabled(sys, step)
    ensures OpenKept(Next(sys, step))
  {
    hide Pooled, Hands, Room, IdleLists;
    var after := Next(sys, step);
    PooledAfter(sys, step);
    forall s: Session | s in after.open
      ensures s in Pooled(after.pool) || exists j :: Owner(after, s, j) && Connected(after.users[j])
    {
      if s in sys.open && s !in Pooled(sys.pool) {
        var j :| Owner(sys, s, j) && Connected(sys.users[j]);
        if step != Force && step != Exit && j != step.i {
          OthersKeep(sys, step.i, after.users[step.i].phase, after, s, j);
        }
        assert s !in Pooled(after.pool) ==> Owner(after, s, j) && Connected(after.users[j]);
      } else if s !in Pooled(after.pool) {
        assert Owner(after, s, step.i) && Connected(after.users[step.i]);
      }
    }
  }

  /** How the idle lists change. */
  lemma PooledAfter(sys: System, step: Step)
    requires IdleLists(sys.pool, sys.next) && Hands(sys) && Enabled(sys, step)
    ensures var before, now := Pooled(sys.pool), Pooled(Next(sys, step).pool);
      match step
      case Force => now == {}
      case Exit => now == {}
      case Get(i) =>
        var conn := TakeIdle(sys.pool, sys.users[i].host).1;
        now == if conn.Some? then before - {conn.value} else before
      case Return(i) => now == if Room(sys.pool, sys.users[i].host) then before + {sys.users[i].phase.s} else before
      case _ => now == before
  {
    hide GiveBack;
    match step
    case Get(i) => if IdleOf(sys.pool, sys.users[i].host) != [] { Taken(sys.pool, sys.users[i].host, sys.next); }
    case Return(i) =>
      assert Owned(sys.users[i]).Some?;
      Given(sys.pool, sys.users[i].host, sys.users[i].phase.s, sys.next);
    case Force =>
    case Exit =>
    case _ => SamePooled(sys.pool, Next(sys, step).pool);
  }

  lemma HeldActiveKept(sys: System, step: Step)
    requires Hands(sys) && HeldActive(sys) && Enabled(sys, step)
    ensures HeldActive(Next(sys, step))
  {
    hide Pooled, Room, IdleOf;
    var after := Next(sys, step);
    if !after.forced {
      forall j | 0 <= j < |after.users| && Tracked(after.users[j])
        ensures Owned(after.users[j]).value in after.pool.active
      {
        if step != Exit && j != step.i {
          assert after.users[j] == sys.users[j];
          assert Owned(sys.users[step.i]).Some? ==> Owned(sys.users[j]) != Owned(sys.users[step.i]);
        }
      }
    }
  }

  lemma LeftKept(sys: System, step: Step)
    requires Left(sys) && Enabled(sys, step)
    ensures Left(Next(sys, step))
  {
    assert forall i :: 0 <= i < |sys.users| ==> sys.users[i] in sys.users;
  }

  lemma StepPreserves(sys: System, step: Step)
    requires Invariant(sys) && Enabled(sys, step)
    ensures Invariant(Next(sys, step))
  {
    hide IdleLists, Hands, Enabled, Next, Tracked, Connected, Pooled;
    HandsKept(sys, step);
    ActiveHeldKept(sys, step);
    OpenKeptKept(sys, step);
    HeldActiveKept(sys, step);
    LeftKept(sys, step);
  }

  lemma {:induction false} RunInvariant(states: seq<System>, steps: seq<Step>, k: nat)
    requires Behavior(states, steps) && k <= |steps|
    ensures Invariant(states[k])
  {
    if k == 0 {
      hide Next, Enabled;
      assert forall i :: 0 <= i < |states[0].users| ==> states[0].users[i] in states[0].users;
    } else {
      hide Invariant, Next, Enabled;
      RunInvariant(states, steps, k - 1);
      StepPreserves(states[k - 1], steps[k - 1]);
    }
  }

  // ----- ownership and leaks -----

  /**
    * In every reachable state a session is in at most one place: in one idle list, there once, or in the hands of one
    * user. No idle list is longer than the maximum, and what is active is in somebody's hands and not idle.
    */
  lemma OnePlace(states: seq<System>, steps: seq<Step>, k: nat)
    requires Behavior(states, steps) && k <= |steps|
    ensures |states| == |steps| + 1
    ensures var sys := states[k];
      && (forall host :: host in sys.pool.idle ==>
           Distinct(sys.pool.idle[host]) && |sys.pool.idle[host]| <= sys.pool.max)
      && (forall host, other, s: Session :: Lists(sys.pool, host, s) && Lists(sys.pool, other, s) ==> host == other)
      && (forall host, s: Session, i :: Lists(sys.pool, host, s) ==> !Owner(sys, s, i))
      && (forall s: Session, i, j :: Owner(sys, s, i) && Owner(sys, s, j) ==> i == j)
      && (forall s: Session :: s in sys.pool.active ==>
           (exists i :: Owner(sys, s, i)) && forall host :: !Lists(sys.pool, host, s))
  {
    hide Next, Enabled, Pooled, Tracked, Connected;
    RunInvariant(states, steps, k);
    var sys := states[k];
    forall host, s: Session, i | Lists(sys.pool, host, s) ensures !Owner(sys, s, i) {
      PooledHas(sys.pool, s);
    }
    OneOwner(sys);
  }

  lemma OneOwner(sys: System)
    requires Hands(sys)
    ensures forall s: Session, i, j :: Owner(sys, s, i) && Owner(sys, s, j) ==> i == j
  {
    hide Pooled;
  }

  lemma NobodyOwns(sys: System)
    requires forall u :: u in sys.users ==> u.phase == Done
    ensures forall s: Session, i :: !Owner(sys, s, i)
  {
    assert forall i :: 0 <= i < |sys.users| ==> sys.users[i] in sys.users;
  }

  lemma LeftClosed(sys: System)
    requires Invariant(sys) && sys.exited
    ensures sys.open == {} && sys.pool.idle == map[]
  {
    assert Pooled(sys.pool) == {};
    NobodyOwns(sys);
    assert forall s: Session :: s !in sys.open;
  }

  /** When the target is left, every session that was ever opened is closed. */
  lemma NoLeak(states: seq<System>, steps: seq<Step>, k: nat)
    requires Behavior(states, steps) && k <= |steps| && states[k].exited
    ensures states[k].open == {} && states[k].pool.idle == map[]
  {
    hide Invariant, Next, Enabled;
    RunInvariant(states, steps, k);
    LeftClosed(states[k]);
  }

  /** A live session the pool does not know. */
  predicate Stray(sys: System, s: Session) {
    s in sys.open && s !in sys.pool.active && s !in Pooled(sys.pool)
  }

  /** As long as the timeout has not struck, the pool knows every live session but those it is about to close. */
  lemma TrackedUntilForced(states: seq<System>, steps: seq<Step>, k: nat, s: Session)
    requires Behavior(states, steps) && k <= |steps| && !states[k].forced && Stray(states[k], s)
    ensures |states| == |steps| + 1 && exists i :: Owner(states[k], s, i) && states[k].users[i].phase.Dead?
  {
    hide Next, Enabled, Pooled;
    RunInvariant(states, steps, k);
    var i :| Owner(states[k], s, i) && Connected(states[k].users[i]);
  }

  // ----- what closing by force leaves open -----

  /** The step brings the session to life. */
  predicate Revives(sys: System, step: Step, s: Session) {
    match step
    case ConnectOk(i) => i < |sys.users| && sys.users[i].phase == Connecting(s)
    case PingOk(i, revived) => i < |sys.users| && sys.users[i].phase == Pinging(s) && revived
    case Reconnect(i) => i < |sys.users| && sys.users[i].phase == Holding(s)
    case _ => false
  }

  /** At step f the pool was closed by force while the session was active, and it has not been tracked since. */
  predicate DroppedAt(states: seq<System>, steps: seq<Step>, f: nat, k: nat, s: Session) {
    && f < k < |states| == |steps| + 1
    && steps[f] == Force && s in states[f].pool.active
    && forall m :: f < m <= k ==> s !in states[m].pool.active
  }

  /** It has come to life since. */
  predicate RevivedIn(states: seq<System>, steps: seq<Step>, f: nat, k: nat, s: Session)
    requires k < |states| == |steps| + 1
  {
    exists m :: f < m < k && Revives(states[m], steps[m], s)
  }

  /** The pool has lost track of the session; if it lives, it came to life after that. */
  ghost predicate Lost(states: seq<System>, steps: seq<Step>, k: nat, s: Session)
    requires k < |states| == |steps| + 1
  {
    exists f: nat :: DroppedAt(states, steps, f, k, s) && (s in states[k].open ==> RevivedIn(states, steps, f, k, s))
  }

  /** The pool knows the user's session, or has lost track of it; then it lives at most if it is held. */
  ghost predicate Accounted(states: seq<System>, steps: seq<Step>, k: nat, u: User)
    requires k < |states| == |steps| + 1
  {
    Tracked(u) ==>
      var s := Owned(u).value;
      s in states[k].pool.active || (Lost(states, steps, k, s) && (s in states[k].open ==> u.phase.Holding?))
  }

  lemma {:induction false} AllAccounted(states: seq<System>, steps: seq<Step>, k: nat)
    requires Behavior(states, steps) && k <= |steps|
    ensures |states| == |steps| + 1 && forall i :: 0 <= i < |states[k].users| ==>
      Accounted(states, steps, k, states[k].users[i])
  {
    hide Next, Enabled, Pooled, Accounted;
    if k > 0 {
      AllAccounted(states, steps, k - 1);
      RunInvariant(states, steps, k - 1);
      forall i | 0 <= i < |states[k].users| ensures Accounted(states, steps, k, states[k].users[i]) {
        StepAccounts(states, steps, k - 1, i);
      }
    } else {
      forall i | 0 <= i < |states[0].users| ensures Accounted(states, steps, 0, states[0].users[i]) {
        assert states[0].users[i] in states[0].users;
        ReadyAccounted(states, steps, states[0].users[i]);
      }
    }
  }

  lemma ReadyAccounted(states: seq<System>, steps: seq<Step>, u: User)
    requires |states| == |steps| + 1 && u.phase == Ready
    ensures Accounted(states, steps, 0, u)
  {
  }

  /** A user whose session the pool does not know has had it before the step, too. */
  lemma KeepsSession(sys: System, step: Step, i: nat)
    requires Hands(sys) && Enabled(sys, step) && i < |Next(sys, step).users|
    requires var after := Next(sys, step); Tracked(after.users[i]) && Owned(after.users[i]).value !in after.pool.active
    ensures i < |sys.users| && var after := Next(sys, step); var s := Owned(after.users[i]).value;
      && Tracked(sys.users[i]) && Owned(sys.users[i]) == Some(s)
      && (s in sys.pool.active ==> step == Force && s !in after.open)
      && (s in after.open && s !in sys.open ==> Revives(sys, step, s) && after.users[i].phase.Holding?)
      && (sys.users[i].phase.Holding? ==> after.users[i].phase.Holding?)
  {
    hide Pooled, Room, IdleOf;
    var after := Next(sys, step);
    var s := Owned(after.users[i]).value;
    if step != Force && step != Exit && step.i != i {
      assert after.users[i] == sys.users[i];
      assert Owned(sys.users[step.i]).Some? ==> Owned(sys.users[i]) != Owned(sys.users[step.i]);
    }
  }

  lemma JustDropped(states: seq<System>, steps: seq<Step>, k: nat, s: Session)
    requires |states| == |steps| + 1 && k < |steps| && steps[k] == Force && s in states[k].pool.active
    requires s !in states[k + 1].pool.active && s !in states[k + 1].open
    ensures Lost(states, steps, k + 1, s)
  {
    assert DroppedAt(states, steps, k, k + 1, s);
  }

  lemma StillLost(states: seq<System>, steps: seq<Step>, k: nat, s: Session)
    requires |states| == |steps| + 1 && k < |steps| && Lost(states, steps, k, s) && s !in states[k + 1].pool.active
    requires s in states[k + 1].open ==> s in states[k].open || Revives(states[k], steps[k], s)
    ensures Lost(states, steps, k + 1, s)
  {
    hide Revives;
    var f: nat :| DroppedAt(states, steps, f, k, s) && (s in states[k].open ==> RevivedIn(states, steps, f, k, s));
    assert DroppedAt(states, steps, f, k + 1, s);
    if s in states[k].open {
      var m :| f < m < k && Revives(states[m], steps[m], s);
      assert RevivedIn(states, steps, f, k + 1, s);
    } else if s in states[k + 1].open {
      assert RevivedIn(states, steps, f, k + 1, s);
    }
  }

  lemma StepAccounts(states: seq<System>, steps: seq<Step>, k: nat, i: nat)
    requires |states| == |steps| + 1 && k < |steps| && Enabled(states[k], steps[k]) &&
      states[k + 1] == Next(states[k], steps[k])
    requires Hands(states[k]) && i < |states[k + 1].users|
    requires forall j :: 0 <= j < |states[k].users| ==> Accounted(states, steps, k, states[k].users[j])
    ensures Accounted(states, steps, k + 1, states[k + 1].users[i])
  {
    hide Pooled, GiveBack, Lost, Hands, Next, Enabled, Revives;
    var sys, after, step := states[k], states[k + 1], steps[k];
    var u := after.users[i];
    if Tracked(u) {
      var s := Owned(u).value;
      if s !in after.pool.active {
        KeepsSession(sys, step, i);
        assert Accounted(states, steps, k, sys.users[i]);
        if s in sys.pool.active {
          assert step == Force;
          JustDropped(states, steps, k, s);
        } else {
          StillLost(states, steps, k, s);
        }
      }
    }
  }
  /**
    * Which sessions outlive a closing by force: in every reachable state a live session does exactly if its user is
    * about to close it after a failed ping, or if it is held, an earlier closing by force struck it while it was
    * active, it has not been tracked since, and it came to life after that. An idle session never does.
    */
  lemma SurvivesForce(states: seq<System>, steps: seq<Step>, k: nat, s: Session)
    requires Behavior(states, steps) && k <= |steps| && s in states[k].open
    ensures |states| == |steps| + 1
    ensures s in Next(states[k], Force).open <==>
      || (exists i :: 0 <= i < |states[k].users| && states[k].users[i].phase == Dead(s))
      || (exists i, f: nat :: 0 <= i < |states[k].users| && states[k].users[i].phase == Holding(s)
            && DroppedAt(states, steps, f, k, s) && RevivedIn(states, steps, f, k, s))
  {
    hide Pooled, Revives, Behavior, HeldActive;
    assert |states| == |steps| + 1 by { AllAccounted(states, steps, k); }
    RunInvariant(states, steps, k);
    AllAccounted(states, steps, k);
    var sys := states[k];
    OneOwner(sys);
    assert s in Next(sys, Force).open <==> Stray(sys, s);
    if Stray(sys, s) {
      var i :| Owner(sys, s, i) && Connected(sys.users[i]);
      if !sys.users[i].phase.Dead? {
        assert Accounted(states, steps, k, sys.users[i]);
        var f: nat :| DroppedAt(states, steps, f, k, s) && (s in sys.open ==> RevivedIn(states, steps, f, k, s));
      }
    }
    if i :| 0 <= i < |sys.users| && (sys.users[i].phase == Dead(s) || sys.users[i].phase == Holding(s)) {
      assert Owner(sys, s, i);
    }
  }

  /**
    * A run in which that happens: a session that connects while the pool is closed by force is not known to it any
    * more, and closing by force again leaves it open for as long as it is held.
    */
  lemma StrayAfterForce(host: string) returns (states: seq<System>, steps: seq<Step>)
    ensures Behavior(states, steps) && |steps| == 7 && states[0] == OneUser(host, Ready, {}, {}, 0, false)
    ensures steps == [Get(0), Create(0), Force, ConnectOk(0), Force, Return(0), Force]
    ensures 0 in states[5].open && 0 in states[6].open && states[7].open == {}
  {
    hide Enabled, Next;
    steps := [Get(0), Create(0), Force, ConnectOk(0), Force, Return(0), Force];
    var s6 := OneUser(host, Phase.Done, {}, {0}, 1, true);
    states := [
      OneUser(host, Ready, {}, {}, 0, false), OneUser(host, Creating, {}, {}, 0, false),
      OneUser(host, Connecting(0), {0}, {}, 1, false), OneUser(host, Connecting(0), {}, {}, 1, true),
      OneUser(host, Holding(0), {}, {0}, 1, true), OneUser(host, Holding(0), {}, {0}, 1, true),
      s6.(pool := Pool(1, map[host := [0]], {})), OneUser(host, Phase.Done, {}, {}, 1, true)];
    Connects(host);
    Returns(host);
  }

  /** One user, no idle session. */
  function OneUser(host: string, phase: Phase, active: set<Session>, open: set<Session>, next: Session,
                   forced: bool): System {
    System(Pool(1, map[], active), [User(host, phase)], open, next, forced, false)
  }

  predicate Leads(sys: System, step: Step, after: System) {
    Enabled(sys, step) && Next(sys, step) == after
  }

  lemma Connects(host: string)
    ensures Leads(OneUser(host, Ready, {}, {}, 0, false), Get(0), OneUser(host, Creating, {}, {}, 0, false))
    ensures Leads(OneUser(host, Creating, {}, {}, 0, false), Create(0), OneUser(host, Connecting(0), {0}, {}, 1, false))
    ensures Leads(OneUser(host, Connecting(0), {0}, {}, 1, false), Force, OneUser(host, Connecting(0), {}, {}, 1, true))
    ensures Leads(OneUser(host, Connecting(0), {}, {}, 1, true), ConnectOk(0),
      OneUser(host, Holding(0), {}, {0}, 1, true))
  {
    assert Pooled(Pool(1, map[], {0})) == {};
  }

  lemma Returns(host: string)
    ensures Leads(OneUser(host, Holding(0), {}, {0}, 1, true), Force, OneUser(host, Holding(0), {}, {0}, 1, true))
    ensures var back := OneUser(host, Phase.Done, {}, {0}, 1, true).(pool := Pool(1, map[host := [0]], {}));
      && Leads(OneUser(host, Holding(0), {}, {0}, 1, true), Return(0), back)
      && Leads(back, Force, OneUser(host, Phase.Done, {}, {}, 1, true))
  {
    assert Pooled(Pool(1, map[], {})) == {};
    var pool: Pool := Pool(1, map[host := [0]], {});
    assert 0 in pool.idle[host];
    assert Pooled(pool) == {0};
    var none: map<string, seq<Session>> := map[];
    assert [] + [0 as Session] == [0] && none[host := [0]] == pool.idle;
  }

  // ----- every run can be ended -----

  function Rank(phase: Phase): nat {
    match phase
    case Ready => 6
    case Dead(_) => 5
    case Creating => 4
    case Connecting(_) => 3
    case Pinging(_) => 2
    case Rejected(_) => 1
    case Holding(_) => 1
    case Done => 0
  }

  function Ranks(users: seq<User>): nat {
    if users == [] then 0 else Ranks(users[..|users| - 1]) + Rank(users[|users| - 1].phase)
  }

  lemma {:induction false} RanksUpdate(users: seq<User>, i: nat, user: User)
    requires i < |users|
    ensures Ranks(users[i := user]) == Ranks(users) - Rank(users[i].phase) + Rank(user.phase)
  {
    var last := |users| - 1;
    if i < last {
      assert users[i := user][..last] == users[..last][i := user];
      RanksUpdate(users[..last], i, user);
    } else {
      assert users[i := user][..last] == users[..last];
    }
  }

  /** A step that brings user i nearer to being done. */
  function Onward(sys: System, i: nat): Step
    requires i < |sys.users| && sys.users[i].phase != Done
  {
    match sys.users[i].phase
    case Ready => Skip(i)
    case Pinging(_) => PingOk(i, false)
    case Dead(_) => CloseDead(i)
    case Creating => Create(i)
    case Connecting(_) => ConnectFailed(i)
    case Rejected(_) => Drop(i)
    case Holding(_) => Return(i)
  }

  lemma OnwardMoves(sys: System, i: nat)
    requires i < |sys.users| && sys.users[i].phase != Done
    ensures Enabled(sys, Onward(sys, i)) && Ranks(Next(sys, Onward(sys, i)).users) < Ranks(sys.users)
  {
    hide Pooled, GiveBack;
    var next := Next(sys, Onward(sys, i));
    assert next.users == sys.users[i := next.users[i]];
    RanksUpdate(sys.users, i, next.users[i]);
  }

  lemma LinkFront(sys: System, step: Step, states: seq<System>, steps: seq<Step>)
    requires Linked(states, steps) && Enabled(sys, step) && states[0] == Next(sys, step)
    ensures Linked([sys] + states, [step] + steps)
  {
    hide Enabled, Next;
  }

  lemma ExitPossible(sys: System)
    requires !sys.exited && forall i :: 0 <= i < |sys.users| ==> sys.users[i].phase == Done
    ensures Enabled(sys, Exit) && Next(sys, Exit).exited
  {
  }

  /** No user waits for another: from every state the target can be left, and then no session is open. */
  lemma {:induction false} CanLeave(sys: System) returns (states: seq<System>, steps: seq<Step>)
    requires Invariant(sys)
    ensures Linked(states, steps) && states[0] == sys
    ensures states[|steps|].exited && states[|steps|].open == {}
    decreases Ranks(sys.users)
  {
    hide Invariant, Enabled, Next, Onward, Ranks;
    if sys.exited {
      states, steps := [sys], [];
      LeftClosed(sys);
    } else if i :| 0 <= i < |sys.users| && sys.users[i].phase != Done {
      var step := Onward(sys, i);
      OnwardMoves(sys, i);
      StepPreserves(sys, step);
      var states', steps' := CanLeave(Next(sys, step));
      LinkFront(sys, step, states', steps');
      states, steps := [sys] + states', [step] + steps';
    } else {
      ExitPossible(sys);
      StepPreserves(sys, Exit);
      LeftClosed(Next(sys, Exit));
      states, steps := [sys, Next(sys, Exit)], [Exit];
    }
  }

  // ----- GetConnection in one go -----

  /** The user has got this session, or an error. */
  predicate Got(sys: System, i: nat, conn: Option<Session>) {
    i < |sys.users| && sys.users[i].phase == if conn.Some? then Holding(conn.value) else Done
  }

  lemma CreateSteps(sys: System, i: nat, connects: bool) returns (states: seq<System>, steps: seq<Step>)
    requires i < |sys.users| && sys.users[i].phase == Creating
    ensures Linked(states, steps) && states[0] == sys &&
      Got(states[|steps|], i, if connects then Some(sys.next) else None)
    ensures states[|steps|].pool == if connects then Track(sys.pool, sys.next)
      else Untrack(Track(sys.pool, sys.next), sys.next)
  {
    var created := Next(sys, Create(i));
    if connects {
      states, steps := [sys, created, Next(created, ConnectOk(i))], [Create(i), ConnectOk(i)];
    } else {
      var rejected := Next(created, ConnectFailed(i));
      states, steps := [sys, created, rejected, Next(rejected, Drop(i))], [Create(i), ConnectFailed(i), Drop(i)];
    }
  }

  /** GetConnection is what a user's steps amount to when nobody comes in between. */
  lemma AcquiredSteps(sys: System, i: nat, answers: bool, connects: bool)
    returns (states: seq<System>, steps: seq<Step>)
    requires i < |sys.users| && sys.users[i].phase == Ready
    ensures Linked(states, steps) && states[0] == sys
    ensures var (pool, conn) := Acquired(sys.pool, sys.users[i].host, sys.next, answers, connects);
      states[|steps|].pool == pool && Got(states[|steps|], i, conn)
  {
    hide TakeIdle, Pooled;
    var taken := Next(sys, Get(i));
    if taken.users[i].phase.Pinging? && answers {
      states, steps := [sys, taken, Next(taken, PingOk(i, false))], [Get(i), PingOk(i, false)];
    } else if taken.users[i].phase.Pinging? {
      var dead := Next(taken, PingFailed(i));
      var closed := Next(dead, CloseDead(i));
      states, steps := CreateSteps(closed, i, connects);
      LinkFront(dead, CloseDead(i), states, steps);
      states, steps := [dead] + states, [CloseDead(i)] + steps;
      LinkFront(taken, PingFailed(i), states, steps);
      states, steps := [taken] + states, [PingFailed(i)] + steps;
      LinkFront(sys, Get(i), states, steps);
      states, steps := [sys] + states, [Get(i)] + steps;
    } else {
      states, steps := CreateSteps(taken, i, connects);
      LinkFront(sys, Get(i), states, steps);
      states, steps := [sys] + states, [Get(i)] + steps;
    }
  }

  // ----- which session is taken -----

  /** The session returned last is the one taken first, and taking it leaves the idle lists as they were before. */
  lemma LastReturnedFirst(pool: Pool, host: string, s: Session)
    requires Room(pool, host)
    ensures var (after, conn) := TakeIdle(GiveBack(pool, host, s), host);
      conn == Some(s) && after.active == pool.active + {s} && forall h :: IdleOf(after, h) == IdleOf(pool, h)
  {
    var back := GiveBack(pool, host, s);
    var conns := back.idle[host];
    assert conns == IdleOf(pool, host) + [s] && conns[..|conns| - 1] == IdleOf(pool, host);
    assert pool.active - {s} + {s} == pool.active + {s};
  }
}
