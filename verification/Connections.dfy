/** The registry of websocket connections, under every interleaving of the event loop. */
module Connections {
  import opened SyncStore

  type Socket = int

  /** `held` are the locks somebody holds; lock 0 is the global one. `open` to `users` are the gauges. */
  datatype Registry = Registry(
    active: map<UserId, seq<Socket>>,
    locks: map<UserId, int>,
    held: set<int>,
    nextLock: int,
    open: int,
    connects: nat,
    disconnects: nat,
    users: nat)

  const GLOBAL := 0
  const EMPTY_REGISTRY := Registry(map[], map[], {}, 1, 0, 0, 0, 0)

  function Sockets(r: Registry, u: UserId): seq<Socket> {
    if u in r.active then r.active[u] else []
  }

  function RemoveFirst(xs: seq<Socket>, x: Socket): seq<Socket> {
    if xs == [] then [] else if xs[0] == x then xs[1..] else [xs[0]] + RemoveFirst(xs[1..], x)
  }

  // ---- what runs between two suspension points ----

  function WithLock(r: Registry, u: UserId): Registry {
    if u in r.locks then r else r.(locks := r.locks[u := r.nextLock], nextLock := r.nextLock + 1)
  }

  function Opened(r: Registry, u: UserId, ws: Socket): Registry {
    var r' := WithLock(r, u);
    var active := r'.active[u := Sockets(r', u) + [ws]];
    r'.(active := active, open := r'.open + 1, connects := r'.connects + 1, users := |active|)
  }

  /** The connections without one occurrence of the socket; the last one takes the user along. */
  function Without(active: map<UserId, seq<Socket>>, u: UserId, ws: Socket): map<UserId, seq<Socket>>
    requires u in active
  {
    var rest := RemoveFirst(active[u], ws);
    if rest == [] then active - {u} else active[u := rest]
  }

  /** A socket that is not registered is not closed again. */
  function Closed(r: Registry, u: UserId, ws: Socket): Registry {
    var r' := WithLock(r, u);
    if ws !in Sockets(r', u) then r'
    else
      var active := Without(r'.active, u, ws);
      r'.(active := active, open := r'.open - 1, disconnects := r'.disconnects + 1, users := |active|)
  }

  /** The double check: the lock goes only if the user is still without connections. */
  function Cleaned(r: Registry, u: UserId): Registry {
    if u !in r.active && u in r.locks then r.(locks := r.locks - {u}) else r
  }

  // ---- the manager ----

  class ConnectionManager {
    var active: map<UserId, seq<Socket>>
    var locks: map<UserId, int>
    var held: set<int>
    var nextLock: int
    var open: int
    var connects: nat
    var disconnects: nat
    var users: nat

    function State(): Registry
      reads this
    {
      Registry(active, locks, held, nextLock, open, connects, disconnects, users)
    }

    /** At a suspension point nobody holds a lock, and lock names are in order. */
    ghost predicate Idle()
      reads this
    {
      held == {} && LocksInOrder(locks, nextLock)
    }

    constructor ()
      ensures State() == EMPTY_REGISTRY && Idle()
    {
      active, locks, held, nextLock, open, connects, disconnects, users := map[], map[], {}, 1, 0, 0, 0, 0;
    }

    /** Taking a free lock does not suspend; taking a held one would, so it must be free. */
    method Acquire(lock: int)
      requires lock !in held
      modifies this`held
      ensures held == old(held) + {lock}
    {
      held := held + {lock};
    }

    method Release(lock: int)
      requires lock in held
      modifies this`held
      ensures held == old(held) - {lock}
    {
      held := held - {lock};
    }

    method GetUserLock(u: UserId) returns (lock: int)
      requires Idle()
      modifies this`held, this`locks, this`nextLock
      ensures Idle() && State() == WithLock(old(State()), u)
      ensures u in locks && lock == locks[u] && lock != GLOBAL
      ensures forall v :: v in old(locks) ==> v in locks && locks[v] == old(locks[v])
      ensures forall v :: v in locks ==> v in old(locks) || v == u
    {
      Acquire(GLOBAL);
      if u !in locks {
        locks := locks[u := nextLock];
        nextLock := nextLock + 1;
      }
      lock := locks[u];
      Release(GLOBAL);
    }

    /** The critical section of `connect`. */
    method AddSocket(lock: int, u: UserId, ws: Socket)
      requires lock !in held
      modifies this`held, this`active
      ensures held == old(held)
      ensures active == old(active)[u := old(Sockets(State(), u)) + [ws]]
    {
      Acquire(lock);
      active := active[u := (if u in active then active[u] else []) + [ws]];
      Release(lock);
    }

    /** The critical section of `disconnect`; `cleanup` says that the user is gone. */
    method RemoveSocket(lock: int, u: UserId, ws: Socket) returns (found: bool, cleanup: bool)
      requires lock !in held
      modifies this`held, this`active
      ensures held == old(held)
      ensures found == (ws in Sockets(old(State()), u))
      ensures active == if found then Without(old(active), u, ws) else old(active)
      ensures cleanup == (found && u !in active)
    {
      Acquire(lock);
      var connections := if u in active then active[u] else [];
      found, cleanup := ws in connections, false;
      if found {
        active, cleanup := RemoveConnection(active, u, ws);
      }
      Release(lock);
    }

    /** `connect` up to its only suspension point, the online counter. */
    method Connect(u: UserId, ws: Socket)
      requires Idle()
      modifies this
      ensures Idle() && State() == Opened(old(State()), u, ws)
    {
      var lock := GetUserLock(u);
      AddSocket(lock, u, ws);
      open, connects, users := open + 1, connects + 1, |active|;
    }

    /** `disconnect` up to the online counter; `cleanup` says whether the lock is to be dropped later. */
    method Disconnect(u: UserId, ws: Socket) returns (found: bool, cleanup: bool)
      requires Idle()
      modifies this
      ensures Idle() && State() == Closed(old(State()), u, ws)
      ensures found == (ws in Sockets(old(State()), u))
      ensures cleanup == (found && u !in active)
    {
      var lock := GetUserLock(u);
      found, cleanup := RemoveSocket(lock, u, ws);
      if !found {
        return;
      }
      open, disconnects, users := open - 1, disconnects + 1, |active|;
    }

    /** The end of `disconnect`, after the online counter. */
    method Cleanup(u: UserId)
      requires Idle()
      modifies this`held, this`locks
      ensures Idle() && State() == Cleaned(old(State()), u)
    {
      Acquire(GLOBAL);
      if u !in active && u in locks {
        locks := locks - {u};
      }
      Release(GLOBAL);
    }

    /** `send_personal_message` up to the first send: the connections as they are now. */
    method CopyConnections(u: UserId) returns (connections: seq<Socket>)
      requires Idle()
      modifies this`held, this`locks, this`nextLock
      ensures Idle() && State() == WithLock(old(State()), u)
      ensures connections == Sockets(old(State()), u)
    {
      var lock := GetUserLock(u);
      Acquire(lock);
      connections := if u in active then active[u] else [];
      Release(lock);
    }
  }

  /** `connections.remove(websocket)`, then `del` of the user when the list has become empty. */
  method RemoveConnection(active: map<UserId, seq<Socket>>, u: UserId, ws: Socket)
    returns (after: map<UserId, seq<Socket>>, cleanup: bool)
    requires u in active
    ensures after == Without(active, u, ws)
    ensures cleanup <==> u !in after
  {
    var connections := RemoveFirst(active[u], ws);
    after, cleanup := active[u := connections], false;
    if connections == [] {
      DropUser(active, u, connections);
      after, cleanup := after - {u}, true;
    }
  }

  lemma DropUser(active: map<UserId, seq<Socket>>, u: UserId, rest: seq<Socket>)
    ensures active[u := rest] - {u} == active - {u}
  {
  }

  /** Locks are numbered upwards, and no two users share one. */
  ghost predicate LocksInOrder(locks: map<UserId, int>, nextLock: int) {
    && nextLock >= 1
    && (forall u :: u in locks ==> 0 < locks[u] < nextLock)
    && (forall u, v :: u in locks && v in locks && u != v ==> locks[u] != locks[v])
  }

  // ---- interleavings ----

  /** What a suspended coroutine does when it is resumed. */
  datatype Job =
    | Leaving(user: UserId, cleanup: bool)
    | Sending(user: UserId, socket: Socket)

  /** `joined` and `left` record every connection made and every effective disconnection. */
  datatype Loop = Loop(
    registry: Registry,
    jobs: multiset<Job>,
    joined: multiset<(UserId, Socket)>,
    left: multiset<(UserId, Socket)>)

  datatype Event =
    | Join(user: UserId, socket: Socket)
    | Leave(user: UserId, socket: Socket)
    | Send(user: UserId)
    | Resume(job: Job, failed: bool)

  const EMPTY_LOOP := Loop(EMPTY_REGISTRY, multiset{}, multiset{}, multiset{})

  /** A disconnection; the anonymous user skips the online counter and cleans up at once. */
  function LeaveStep(l: Loop, anonymous: UserId, u: UserId, ws: Socket): Loop {
    var r := Closed(l.registry, u, ws);
    if ws !in Sockets(l.registry, u) then l.(registry := r)
    else
      var gone := u !in r.active;
      var l' := l.(registry := r, left := l.left + multiset{(u, ws)});
      if u != anonymous then l'.(jobs := l'.jobs + multiset{Leaving(u, gone)})
      else if gone then l'.(registry := Cleaned(r, u))
      else l'
  }

  function SendJobs(u: UserId, sockets: seq<Socket>): multiset<Job> {
    if sockets == [] then multiset{} else multiset{Sending(u, sockets[0])} + SendJobs(u, sockets[1..])
  }

  /** One turn of the event loop; resuming a job that is not there does nothing. */
  function Turn(l: Loop, anonymous: UserId, e: Event): Loop {
    match e
    case Join(u, ws) =>
      l.(registry := Opened(l.registry, u, ws), joined := l.joined + multiset{(u, ws)})
    case Leave(u, ws) => LeaveStep(l, anonymous, u, ws)
    case Send(u) =>
      l.(registry := WithLock(l.registry, u), jobs := l.jobs + SendJobs(u, Sockets(l.registry, u)))
    case Resume(job, failed) =>
      if job in l.jobs then Resumed(l.(jobs := l.jobs - multiset{job}), anonymous, job, failed) else l
  }

  function Resumed(l: Loop, anonymous: UserId, job: Job, failed: bool): Loop {
    match job
    case Leaving(u, cleanup) => if cleanup then l.(registry := Cleaned(l.registry, u)) else l
    case Sending(u, ws) => if failed then LeaveStep(l, anonymous, u, ws) else l
  }

  function Turns(anonymous: UserId, events: seq<Event>): Loop {
    if events == [] then EMPTY_LOOP
    else Turn(Turns(anonymous, events[..|events| - 1]), anonymous, events[|events| - 1])
  }

  // ---- the invariant ----

  /** How many sockets are registered. */
  ghost function Live(active: map<UserId, seq<Socket>>): nat {
    if active == map[] then 0
    else
      var u :| u in active;
      |active[u]| + Live(active - {u})
  }

  lemma {:induction false} LiveAny(active: map<UserId, seq<Socket>>, u: UserId)
    requires u in active
    ensures Live(active) == |active[u]| + Live(active - {u})
    decreases |active|
  {
    var v :| v in active && Live(active) == |active[v]| + Live(active - {v});
    if v != u {
      LiveAny(active - {v}, u);
      LiveAny(active - {u}, v);
      assert active - {v} - {u} == active - {u} - {v};
    }
  }

  /** No lock is held, no user has an empty list, every connected user has a lock. */
  ghost predicate Shape(r: Registry) {
    && r.held == {} && LocksInOrder(r.locks, r.nextLock)
    && (forall u :: u in r.active ==> r.active[u] != [])
    && (forall u :: u in r.active ==> u in r.locks)
  }

  /** The gauges tell the true counts. */
  ghost predicate Gauges(r: Registry) {
    && r.open == Live(r.active)
    && r.users == |r.active|
    && r.connects == r.disconnects + Live(r.active)
  }

  /** Socket by socket: connections made are effective disconnections plus what is registered now. */
  ghost predicate Ledger(l: Loop) {
    && l.registry.connects == |l.joined| && l.registry.disconnects == |l.left|
    && forall u, ws :: l.joined[(u, ws)] == l.left[(u, ws)] + multiset(Sockets(l.registry, u))[ws]
  }

  ghost predicate Inv(l: Loop) {
    Shape(l.registry) && Gauges(l.registry) && Ledger(l)
  }

  /** At every suspension point of every interleaving the registry and its gauges are right. */
  lemma {:induction false} AlwaysConsistent(anonymous: UserId, events: seq<Event>)
    ensures Inv(Turns(anonymous, events))
  {
    if events == [] {
      assert Live(EMPTY_REGISTRY.active) == 0;
    } else {
      var n := |events| - 1;
      AlwaysConsistent(anonymous, events[..n]);
      TurnKeepsInv(Turns(anonymous, events[..n]), anonymous, events[n]);
    }
  }

  lemma TurnKeepsInv(l: Loop, anonymous: UserId, e: Event)
    requires Inv(l)
    ensures Inv(Turn(l, anonymous, e))
  {
    match e
    case Join(u, ws) => JoinKeepsInv(l, u, ws);
    case Leave(u, ws) => LeaveKeepsInv(l, anonymous, u, ws);
    case Send(u) =>
      LockKeepsInv(l, u);
      JobsKeepInv(l.(registry := WithLock(l.registry, u)), l.jobs + SendJobs(u, Sockets(l.registry, u)));
    case Resume(job, failed) =>
      if job in l.jobs {
        JobsKeepInv(l, l.jobs - multiset{job});
        ResumeKeepsInv(l.(jobs := l.jobs - multiset{job}), anonymous, job, failed);
      }
  }

  lemma ResumeKeepsInv(l: Loop, anonymous: UserId, job: Job, failed: bool)
    requires Inv(l)
    ensures Inv(Resumed(l, anonymous, job, failed))
  {
    match job
    case Leaving(u, _) => CleanedKeepsInv(l, u);
    case Sending(u, ws) => LeaveKeepsInv(l, anonymous, u, ws);
  }

  lemma JoinKeepsInv(l: Loop, u: UserId, ws: Socket)
    requires Inv(l)
    ensures Inv(l.(registry := Opened(l.registry, u, ws), joined := l.joined + multiset{(u, ws)}))
  {
    var r, r' := l.registry, Opened(l.registry, u, ws);
    assert Shape(r');
    OpenedGauges(r, u, ws);
    OpenedLedger(l, u, ws);
  }

  lemma OpenedGauges(r: Registry, u: UserId, ws: Socket)
    requires Gauges(r)
    ensures Gauges(Opened(r, u, ws))
  {
    var r' := Opened(r, u, ws);
    LiveSet(r.active, u, Sockets(r, u) + [ws]);
    assert |r'.active[u]| == |Sockets(r, u)| + 1;
  }

  /** Replacing the sockets of one user. */
  lemma LiveSet(active: map<UserId, seq<Socket>>, u: UserId, sockets: seq<Socket>)
    ensures Live(active[u := sockets]) == Live(active) + |sockets| - if u in active then |active[u]| else 0
  {
    LiveAny(active[u := sockets], u);
    assert active[u := sockets] - {u} == active - {u};
    if u in active {
      LiveAny(active, u);
    } else {
      assert active - {u} == active;
    }
  }

  lemma OpenedLedger(l: Loop, u: UserId, ws: Socket)
    requires Ledger(l)
    ensures Ledger(l.(registry := Opened(l.registry, u, ws), joined := l.joined + multiset{(u, ws)}))
  {
    assert |l.joined + multiset{(u, ws)}| == |l.joined| + 1;
    forall v, x
      ensures (l.joined + multiset{(u, ws)})[(v, x)] ==
              l.left[(v, x)] + multiset(Sockets(Opened(l.registry, u, ws), v))[x]
    {
      assert l.joined[(v, x)] == l.left[(v, x)] + multiset(Sockets(l.registry, v))[x];
      OpenedSockets(l.registry, u, ws, v, x);
    }
  }

  lemma OpenedSockets(r: Registry, u: UserId, ws: Socket, v: UserId, x: Socket)
    ensures multiset(Sockets(Opened(r, u, ws), v))[x] == multiset(Sockets(r, v))[x] + if (v, x) == (u, ws) then 1 else 0
  {
    assert Sockets(Opened(r, u, ws), v) == if v == u then Sockets(r, u) + [ws] else Sockets(r, v);
  }

  lemma {:induction false} RemoveFirstEffect(xs: seq<Socket>, x: Socket)
    requires x in xs
    ensures multiset(RemoveFirst(xs, x)) == multiset(xs) - multiset{x}
    ensures |RemoveFirst(xs, x)| == |xs| - 1
  {
    assert xs == [xs[0]] + xs[1..];
    if xs[0] != x {
      RemoveFirstEffect(xs[1..], x);
    }
  }

  lemma LeaveKeepsInv(l: Loop, anonymous: UserId, u: UserId, ws: Socket)
    requires Inv(l)
    ensures Inv(LeaveStep(l, anonymous, u, ws))
  {
    LockKeepsInv(l, u);
    if ws in Sockets(l.registry, u) {
      ClosedShape(l.registry, u, ws);
      ClosedGauges(l.registry, u, ws);
      ClosedLedger(l, u, ws);
      CleanedKeepsInv(l.(registry := Closed(l.registry, u, ws), left := l.left + multiset{(u, ws)}), u);
    }
  }

  /** Dropping the lock of a user without connections changes nothing that matters. */
  lemma CleanedKeepsInv(l: Loop, u: UserId)
    requires Inv(l)
    ensures Inv(l.(registry := Cleaned(l.registry, u)))
  {
  }

  lemma JobsKeepInv(l: Loop, jobs: multiset<Job>)
    requires Inv(l)
    ensures Inv(l.(jobs := jobs))
  {
  }

  lemma LockKeepsInv(l: Loop, u: UserId)
    requires Inv(l)
    ensures Inv(l.(registry := WithLock(l.registry, u)))
  {
  }

  lemma ClosedShape(r: Registry, u: UserId, ws: Socket)
    requires Shape(r)
    ensures Shape(Closed(r, u, ws))
  {
  }

  lemma WithoutLive(active: map<UserId, seq<Socket>>, u: UserId, ws: Socket)
    requires u in active && ws in active[u]
    ensures Live(Without(active, u, ws)) + 1 == Live(active)
  {
    var after := Without(active, u, ws);
    RemoveFirstEffect(active[u], ws);
    LiveAny(active, u);
    if u in after {
      LiveAny(after, u);
      assert after - {u} == active - {u};
    }
  }

  lemma ClosedGauges(r: Registry, u: UserId, ws: Socket)
    requires Gauges(r) && ws in Sockets(r, u)
    ensures Gauges(Closed(r, u, ws))
  {
    WithoutLive(r.active, u, ws);
  }

  lemma WithoutSockets(r: Registry, u: UserId, ws: Socket, v: UserId, x: Socket)
    requires ws in Sockets(r, u)
    ensures multiset(Sockets(r, v))[x] == multiset(Sockets(Closed(r, u, ws), v))[x] + if (v, x) == (u, ws) then 1 else 0
  {
    if v == u {
      RemoveFirstEffect(r.active[u], ws);
      assert Sockets(Closed(r, u, ws), u) == RemoveFirst(r.active[u], ws);
      assert ws in multiset(r.active[u]);
    }
  }

  lemma ClosedLedger(l: Loop, u: UserId, ws: Socket)
    requires Ledger(l) && ws in Sockets(l.registry, u)
    ensures Ledger(l.(registry := Closed(l.registry, u, ws), left := l.left + multiset{(u, ws)}))
  {
    var l' := l.(registry := Closed(l.registry, u, ws), left := l.left + multiset{(u, ws)});
    assert |l'.left| == |l.left| + 1;
    forall v, x ensures l'.joined[(v, x)] == l'.left[(v, x)] + multiset(Sockets(l'.registry, v))[x] {
      LedgerAt(l, u, ws, v, x);
    }
  }

  lemma LedgerAt(l: Loop, u: UserId, ws: Socket, v: UserId, x: Socket)
    requires Ledger(l) && ws in Sockets(l.registry, u)
    ensures l.joined[(v, x)] ==
            (l.left + multiset{(u, ws)})[(v, x)] + multiset(Sockets(Closed(l.registry, u, ws), v))[x]
  {
    assert l.joined[(v, x)] == l.left[(v, x)] + multiset(Sockets(l.registry, v))[x];
    WithoutSockets(l.registry, u, ws, v, x);
  }

  // ---- what one turn does to sockets and jobs ----

  /** The event disconnects the socket: asked for by its endpoint, or because a send to it failed. */
  ghost predicate Disconnects(l: Loop, e: Event, u: UserId, ws: Socket) {
    e == Leave(u, ws) || (e == Resume(Sending(u, ws), true) && Sending(u, ws) in l.jobs)
  }

  /** A turn registers the socket that joins, takes out the one that is disconnected, and leaves all others. */
  lemma TurnSockets(l: Loop, anonymous: UserId, e: Event, u: UserId, ws: Socket)
    ensures multiset(Sockets(Turn(l, anonymous, e).registry, u))[ws] ==
      multiset(Sockets(l.registry, u))[ws]
      + (if e == Join(u, ws) then 1 else 0)
      - (if Disconnects(l, e, u, ws) && ws in Sockets(l.registry, u) then 1 else 0)
  {
    match e
    case Join(v, x) => OpenedSockets(l.registry, v, x, u, ws);
    case Leave(v, x) => LeaveSockets(l, anonymous, v, x, u, ws);
    case Send(v) => assert Sockets(WithLock(l.registry, v), u) == Sockets(l.registry, u);
    case Resume(job, failed) => ResumeSockets(l, anonymous, job, failed, u, ws);
  }

  lemma ResumeSockets(l: Loop, anonymous: UserId, job: Job, failed: bool, u: UserId, ws: Socket)
    ensures multiset(Sockets(Turn(l, anonymous, Resume(job, failed)).registry, u))[ws] ==
      multiset(Sockets(l.registry, u))[ws] -
      if job == Sending(u, ws) && failed && job in l.jobs && ws in Sockets(l.registry, u) then 1 else 0
  {
    var l' := l.(jobs := l.jobs - multiset{job});
    match job
    case Leaving(v, _) => assert Sockets(Cleaned(l.registry, v), u) == Sockets(l.registry, u);
    case Sending(v, x) => if failed { LeaveSockets(l', anonymous, v, x, u, ws); }
  }

  lemma LeaveSockets(l: Loop, anonymous: UserId, v: UserId, x: Socket, u: UserId, ws: Socket)
    ensures multiset(Sockets(LeaveStep(l, anonymous, v, x).registry, u))[ws] ==
      multiset(Sockets(l.registry, u))[ws] - if (v, x) == (u, ws) && x in Sockets(l.registry, v) then 1 else 0
  {
    if x in Sockets(l.registry, v) {
      WithoutSockets(l.registry, v, x, u, ws);
      assert Sockets(LeaveStep(l, anonymous, v, x).registry, u) == Sockets(Closed(l.registry, v, x), u);
    } else {
      assert Sockets(LeaveStep(l, anonymous, v, x).registry, u) == Sockets(l.registry, u);
    }
  }

  /** A message to a user queues one send for each of the user's sockets and nothing else. */
  lemma SendsToAll(l: Loop, anonymous: UserId, u: UserId, job: Job)
    ensures Turn(l, anonymous, Send(u)).jobs[job] ==
      l.jobs[job] + if job.Sending? && job.user == u then multiset(Sockets(l.registry, u))[job.socket] else 0
  {
    SendJobsExact(u, Sockets(l.registry, u), job);
  }

  lemma {:induction false} SendJobsExact(u: UserId, sockets: seq<Socket>, job: Job)
    ensures SendJobs(u, sockets)[job] == if job.Sending? && job.user == u then multiset(sockets)[job.socket] else 0
  {
    if sockets != [] {
      SendJobsExact(u, sockets[1..], job);
      assert sockets == [sockets[0]] + sockets[1..];
    }
  }

  /** The job that finishes the disconnection of a registered socket; the anonymous user needs none. */
  ghost function FollowUp(l: Loop, l': Loop, anonymous: UserId, u: UserId, ws: Socket): multiset<Job> {
    if ws in Sockets(l.registry, u) && u != anonymous
    then multiset{Leaving(u, u !in l'.registry.active)}
    else multiset{}
  }

  /**
   * What is waiting after a turn: resuming a job takes it off, and a disconnection, whoever asked for
   * it, leaves a job that cleans up exactly when the user has no socket left.
   */
  lemma TurnJobs(l: Loop, anonymous: UserId, e: Event)
    requires !e.Send?
    ensures var l' := Turn(l, anonymous, e);
      match e
      case Join(_, _) => l'.jobs == l.jobs
      case Leave(u, ws) => l'.jobs == l.jobs + FollowUp(l, l', anonymous, u, ws)
      case Resume(Leaving(u, cleanup), _) => l'.jobs == l.jobs - multiset{Leaving(u, cleanup)}
      case Resume(Sending(u, ws), failed) =>
        l'.jobs == l.jobs - multiset{Sending(u, ws)} +
          if failed && Sending(u, ws) in l.jobs then FollowUp(l, l', anonymous, u, ws) else multiset{}
  {
  }

  // ---- locks that outlive their user ----

  /** The event takes the lock of user `u`, creating it when it is missing. */
  ghost predicate Takes(l: Loop, e: Event, u: UserId) {
    match e
    case Join(v, _) => v == u
    case Leave(v, _) => v == u
    case Send(v) => v == u
    case Resume(job, failed) => job in l.jobs && job.Sending? && job.user == u && failed
  }

  /** The event ends with the clean-up of user `u`; that of the anonymous user's last socket comes at once. */
  ghost predicate CleansUp(l: Loop, anonymous: UserId, e: Event, u: UserId) {
    match e
    case Join(_, _) => false
    case Leave(v, ws) => v == u && LastSocket(l, anonymous, u, ws)
    case Send(_) => false
    case Resume(Leaving(v, cleanup), _) => Leaving(v, cleanup) in l.jobs && v == u && cleanup
    case Resume(Sending(v, ws), failed) =>
      Sending(v, ws) in l.jobs && v == u && failed && LastSocket(l, anonymous, u, ws)
  }

  ghost predicate LastSocket(l: Loop, anonymous: UserId, u: UserId, ws: Socket) {
    u == anonymous && ws in Sockets(l.registry, u) && u !in Closed(l.registry, u, ws).active
  }

  /** Something has taken the lock of `u` since the last clean-up of `u`. */
  ghost predicate TakenSinceCleanup(anonymous: UserId, events: seq<Event>, u: UserId) {
    events != [] &&
    var n := |events| - 1;
    var l := Turns(anonymous, events[..n]);
    !CleansUp(l, anonymous, events[n], u) && (Takes(l, events[n], u) || TakenSinceCleanup(anonymous, events[..n], u))
  }

  /** A user without connections still has a lock exactly when something has taken it since the last clean-up. */
  lemma {:induction false} LockOutlivesUser(anonymous: UserId, events: seq<Event>, u: UserId)
    ensures var r := Turns(anonymous, events).registry;
      u !in r.active ==> (u in r.locks <==> TakenSinceCleanup(anonymous, events, u))
  {
    if events != [] {
      var n := |events| - 1;
      AlwaysConsistent(anonymous, events[..n]);
      LockOutlivesUser(anonymous, events[..n], u);
      TurnLock(Turns(anonymous, events[..n]), anonymous, events[n], u);
    }
  }

  lemma TurnLock(l: Loop, anonymous: UserId, e: Event, u: UserId)
    requires Inv(l)
    ensures var r, r' := l.registry, Turn(l, anonymous, e).registry;
      u !in r'.active ==>
        if CleansUp(l, anonymous, e, u) then u !in r'.locks
        else if Takes(l, e, u) then u in r'.locks
        else u !in r.active && (u in r'.locks <==> u in r.locks)
  {
    match e
    case Join(_, _) =>
    case Leave(v, ws) => LeaveLock(l, anonymous, v, ws, u);
    case Send(_) =>
    case Resume(job, failed) =>
      if job in l.jobs && job.Sending? && failed {
        LeaveLock(l.(jobs := l.jobs - multiset{job}), anonymous, job.user, job.socket, u);
      }
  }

  /** What a disconnection of user `v` means for the lock of user `u`. */
  lemma LeaveLock(l: Loop, anonymous: UserId, v: UserId, ws: Socket, u: UserId)
    ensures var r, r' := l.registry, LeaveStep(l, anonymous, v, ws).registry;
      if u != v then (u in r'.active <==> u in r.active) && (u in r'.locks <==> u in r.locks)
      else u !in r'.active ==> (u in r'.locks <==> !LastSocket(l, anonymous, u, ws))
  {
    ClosedLock(l.registry, v, ws, u);
  }

  lemma ClosedLock(r: Registry, v: UserId, ws: Socket, u: UserId)
    ensures var r' := Closed(r, v, ws);
      && (u in r'.locks <==> u in r.locks || u == v)
      && (u != v ==> (u in r'.active <==> u in r.active))
  {
  }

  /** A message sent to a user without connections leaves a lock that nothing is waiting to remove. */
  lemma SendLeavesLock(anonymous: UserId, u: UserId)
    ensures var l := Turns(anonymous, [Send(u)]);
      u !in l.registry.active && u in l.registry.locks && l.jobs == multiset{}
  {
    var e: seq<Event> := [Send(u)];
    assert e[..0] == [];
    assert Turns(anonymous, e) == Turn(EMPTY_LOOP, anonymous, Send(u));
  }

  /** So does a second disconnection of the same socket after the clean-up of the first. */
  lemma SecondDisconnectLeavesLock(anonymous: UserId, u: UserId)
    requires u != anonymous
    ensures var l := Turns(anonymous, [Join(u, 1), Leave(u, 1), Resume(Leaving(u, true), false), Leave(u, 1)]);
      u !in l.registry.active && u in l.registry.locks && l.jobs == multiset{}
  {
    var e1: seq<Event> := [Join(u, 1)];
    var e2: seq<Event> := e1 + [Leave(u, 1)];
    var e3: seq<Event> := e2 + [Resume(Leaving(u, true), false)];
    var e4: seq<Event> := e3 + [Leave(u, 1)];
    assert e1[..0] == [] && e2[..1] == e1 && e3[..2] == e2 && e4[..3] == e3;
    assert Turns(anonymous, e1) == Turn(EMPTY_LOOP, anonymous, Join(u, 1));
    assert Sockets(Turns(anonymous, e1).registry, u) == [1];
    assert RemoveFirst([1], 1) == [];
    var l2 := Turns(anonymous, e2);
    assert l2.jobs == multiset{Leaving(u, true)} && u !in l2.registry.active;
    var l3 := Turns(anonymous, e3);
    assert l3.jobs == multiset{} && u !in l3.registry.active;
    assert e4 == [Join(u, 1), Leave(u, 1), Resume(Leaving(u, true), false), Leave(u, 1)];
  }

  /**
   * The double check is needed: a user can reconnect while an earlier disconnection waits for the
   * online counter, and the lock that the waiting clean-up was about to drop is theirs again.
   */
  lemma ReconnectBeforeCleanup(u: UserId, anonymous: UserId)
    requires u != anonymous
    ensures var l := Turns(anonymous, [Join(u, 1), Leave(u, 1), Join(u, 2)]);
      && Leaving(u, true) in l.jobs
      && u in l.registry.active && u in l.registry.locks
      && Turn(l, anonymous, Resume(Leaving(u, true), false)).registry == l.registry
  {
    var e1: seq<Event> := [Join(u, 1)];
    var e2: seq<Event> := e1 + [Leave(u, 1)];
    var e3: seq<Event> := e2 + [Join(u, 2)];
    assert e1[..0] == [] && e2[..1] == e1 && e3[..2] == e2;
    var l1 := Turns(anonymous, e1);
    assert l1 == Turn(Turns(anonymous, e1[..0]), anonymous, e1[0]);
    assert Sockets(l1.registry, u) == [1];
    var l2 := Turns(anonymous, e2);
    assert RemoveFirst([1], 1) == [];
    assert u !in l2.registry.active && Leaving(u, true) in l2.jobs;
    assert Turns(anonymous, e3) == Turn(l2, anonymous, Join(u, 2));
    assert e3 == [Join(u, 1), Leave(u, 1), Join(u, 2)];
  }
}
