/** The whole system: one writer, any number of clients, every Redis round trip a step of its own. */
module SyncWorld {
  import opened SyncStore
  import opened WriterTasks
  import opened SyncReader
  import opened Coverage

  /** Where a client is in its exchange with the server. */
  datatype Phase =
    | Ready
    | AtVersion(limit: int)
    | AtCard(limit: int)
    | AtMin(limit: int)
    | AtPage(limit: int)
    | Answering(page: seq<Event>, asked: set<BlockId>, members: set<BlockId>, fetched: set<BlockId>, seen: Rows)
    | AtCounter(serverVersion: nat)
    | Updated(updates: seq<Update>, next: nat, more: bool)
    | Resync(next: nat, newVersion: nat)
    | Loading(next: nat, newVersion: nat, missing: set<BlockId>, loaded: Rows)

  /** `raced` records that a page was read after the log had been trimmed past the cursor. */
  datatype Client = Client(
    user: UserId,
    replica: Rows,
    cursor: nat,
    version: nat,
    raced: bool,
    phase: Phase)

  /** `history` is everything ever logged, `past` every row a block has ever had; no step looks at them. */
  datatype World = World(
    store: Store,
    task: Task,
    clients: map<nat, Client>,
    history: seq<Event>,
    past: map<BlockId, set<Row>>)

  datatype Action =
    | Begin(message: Message)
    | Work
    | Join(id: nat, user: UserId, replica: Rows)
    | Ask(id: nat, limit: int)
    | Read(id: nat)
    | ReadMember(id: nat, block: BlockId)
    | ReadRow(id: nat, block: BlockId)
    | Receive(id: nat)
    | LoadRow(id: nat, block: BlockId)

  /** A client with leftover rows but cursor zero and version zero. */
  function Newcomer(u: UserId, replica: Rows): Client {
    Client(u, replica, 0, 0, false, Ready)
  }

  /** The next single Redis command of the reader that answers this client. */
  function ReadStep(cfg: Config, s: Store, c: Client): Client {
    match c.phase
    case AtVersion(limit) =>
      c.(phase := if c.version != Version(s, c.user) then AtCounter(Version(s, c.user)) else AtCard(limit))
    case AtCard(limit) =>
      c.(phase := if Members(s.subs, c.user) == {} then AtCounter(c.version) else AtMin(limit))
    case AtMin(limit) =>
      c.(phase := if Stale(s.log, c.cursor) then AtCounter(c.version) else AtPage(limit))
    case AtPage(limit) =>
      var page := Page(s.log, c.cursor, SafeLimit(limit, cfg.maxLimit));
      c.(raced := c.raced || Stale(s.log, c.cursor),
         phase := if page == [] then Updated([], c.cursor, false) else Answering(page, {}, {}, {}, map[]))
    case Answering(page, asked, members, fetched, seen) =>
      if Answered(c.phase) then
        var next := EndOf(page, c.cursor);
        c.(phase := Updated(Updates(page, members, seen), next, HasMore(s.log, next)))
      else c
    case AtCounter(v) =>
      c.(phase := Resync(s.counter, v))
    case _ => c
  }

  /** Both pipelines of the answer have been read to their end. */
  predicate Answered(p: Phase)
    requires p.Answering?
  {
    && (forall e :: e in p.page ==> e.block in p.asked)
    && (forall e ::
          e in p.page && e.block in p.members && LastOp(p.page, e.block) == Some(Upsert) ==> e.block in p.fetched)
  }

  /** The membership of the block is among those still to be read. */
  predicate WantsMember(p: Phase, b: BlockId) {
    p.Answering? && LastOp(p.page, b).Some? && b !in p.asked
  }

  /** The row of the block is among those still to be read. */
  predicate WantsRow(p: Phase, b: BlockId) {
    p.Answering? && b in p.members && b !in p.fetched && LastOp(p.page, b) == Some(Upsert)
  }

  /** SISMEMBER for one block of the page. */
  function MemberStep(s: Store, c: Client, b: BlockId): Client {
    if WantsMember(c.phase, b) then
      c.(phase := c.phase.(
           asked := c.phase.asked + {b},
           members := if Has(s.subs, c.user, b) then c.phase.members + {b} else c.phase.members))
    else c
  }

  /** HGETALL for one subscribed upserted block of the page. */
  function RowStep(s: Store, c: Client, b: BlockId): Client {
    if WantsRow(c.phase, b) then
      c.(phase := c.phase.(
           fetched := c.phase.fetched + {b},
           seen := if b in s.rows then c.phase.seen[b := s.rows[b]] else c.phase.seen))
    else c
  }

  /** The client takes an answer off the wire, or finishes reloading. */
  function ReceiveStep(s: Store, c: Client): Client {
    match c.phase
    case Updated(updates, next, more) =>
      c.(replica := Apply(c.replica, updates), cursor := next, phase := Ready)
    case Resync(next, v) =>
      c.(phase := Loading(next, v, Members(s.subs, c.user), map[]))
    case Loading(next, v, missing, loaded) =>
      if missing == {} then Client(c.user, loaded, next, v, false, Ready) else c
    case _ => c
  }

  /** One row of the snapshot taken after a resync answer. */
  function LoadStep(s: Store, c: Client, b: BlockId): Client {
    if c.phase.Loading? && b in c.phase.missing then
      c.(phase := c.phase.(
           missing := c.phase.missing - {b},
           loaded := if b in s.rows then c.phase.loaded[b := s.rows[b]] else c.phase.loaded))
    else c
  }

  function Act(w: World, id: nat, c: Client): World {
    w.(clients := w.clients[id := c])
  }

  function Remember(past: map<BlockId, set<Row>>, rows: Rows): map<BlockId, set<Row>> {
    map b | b in past.Keys + rows.Keys ::
      Members(past, b) + if b in rows then {rows[b]} else {}
  }

  function Record(history: seq<Event>, t: Task): seq<Event> {
    if t.Logging? then history + EventsFor(t.start, t.op, t.blocks) else history
  }

  /** One move of the system; an action that is not possible changes nothing. */
  ghost function Next(cfg: Config, w: World, a: Action): World
    requires ValidConfig(cfg)
  {
    match a
    case Begin(m) =>
      if w.task == Idle && ValidMessage(m) then w.(task := Start(cfg, m)) else w
    case Work =>
      var (s, t) := Step(cfg, w.store, w.task);
      w.(store := s, task := t, history := Record(w.history, w.task), past := Remember(w.past, s.rows))
    case Join(id, u, replica) =>
      if id in w.clients then w else Act(w, id, Newcomer(u, replica))
    case Ask(id, limit) =>
      if id in w.clients && w.clients[id].phase == Ready
      then Act(w, id, w.clients[id].(phase := AtVersion(limit))) else w
    case Read(id) =>
      if id in w.clients then Act(w, id, ReadStep(cfg, w.store, w.clients[id])) else w
    case ReadMember(id, b) =>
      if id in w.clients then Act(w, id, MemberStep(w.store, w.clients[id], b)) else w
    case ReadRow(id, b) =>
      if id in w.clients then Act(w, id, RowStep(w.store, w.clients[id], b)) else w
    case Receive(id) =>
      if id in w.clients then Act(w, id, ReceiveStep(w.store, w.clients[id])) else w
    case LoadRow(id, b) =>
      if id in w.clients then Act(w, id, LoadStep(w.store, w.clients[id], b)) else w
  }

  const INITIAL_WORLD := World(EMPTY_STORE, Idle, map[], [], map[])

  /** The world after a run of moves, in any order whatever. */
  ghost function After(cfg: Config, run: seq<Action>): World
    requires ValidConfig(cfg)
  {
    if run == [] then INITIAL_WORLD
    else Next(cfg, After(cfg, run[..|run| - 1]), run[|run| - 1])
  }

  // ---- what holds of one client ----

  ghost predicate ReplicaFresh(s: Store, t: Task, u: UserId, k: nat, replica: Rows) {
    forall b :: FreshIn(s, t, u, k, replica, b)
  }

  /** The replica's word on `b` is right or covered, and it holds no block outside the subscription. */
  ghost predicate FreshIn(s: Store, t: Task, u: UserId, k: nat, replica: Rows, b: BlockId) {
    && Fresh(s, t, u, k, b, Lookup(replica, b))
    && (b in replica ==> Has(s.subs, u, b))
  }

  /** A half-answered page: what has been read so far is right or covered above the page. */
  ghost predicate PageFresh(s: Store, t: Task, u: UserId, k: nat, replica: Rows, p: Phase, b: BlockId)
    requires p.Answering?
  {
    && (b in replica || b in p.members ==> Has(s.subs, u, b))
    && match LastOp(p.page, b)
       case None => Fresh(s, t, u, k, b, Lookup(replica, b))
       case Some(op) =>
         && (op == Delete ==> b !in s.rows || Covered(s, t, b, k))
         && (b in p.asked && b !in p.members ==> Fresh(s, t, u, k, b, Lookup(replica, b)))
         && (op == Upsert && b in p.fetched ==> Fresh(s, t, u, k, b, Lookup(p.seen, b)))
  }

  /** A half-loaded snapshot: what has been loaded so far is right or covered. */
  ghost predicate LoadFresh(s: Store, t: Task, u: UserId, p: Phase, b: BlockId)
    requires p.Loading?
  {
    && (b in p.missing || b in p.loaded ==> Has(s.subs, u, b))
    && (b in p.missing ==> b !in p.loaded)
    && (b !in p.missing ==> Fresh(s, t, u, p.next, b, Lookup(p.loaded, b)))
  }

  /** Nothing has invalidated the client's version and no page read came too late. */
  ghost predicate InGoodStanding(s: Store, t: Task, c: Client) {
    !c.raced && c.version > 0 && Certified(s, t, c.user, c.version)
  }

  ghost predicate PhaseInv(s: Store, t: Task, c: Client) {
    match c.phase
    case Answering(page, asked, members, fetched, seen) =>
      && page != []
      && (forall i :: 0 <= i < |page| ==> page[i].block != "")
      && c.cursor < EndOf(page, c.cursor) <= s.counter
      && members <= asked && fetched <= members && seen.Keys <= fetched
      && (InGoodStanding(s, t, c) ==>
            forall b :: PageFresh(s, t, c.user, EndOf(page, c.cursor), c.replica, c.phase, b))
    case Updated(updates, next, more) =>
      && c.cursor <= next <= s.counter
      && (InGoodStanding(s, t, c) ==> ReplicaFresh(s, t, c.user, next, Apply(c.replica, updates)))
    case AtCounter(v) => v <= Version(s, c.user)
    case Resync(next, v) => next <= s.counter && v <= Version(s, c.user)
    case Loading(next, v, missing, loaded) =>
      && next <= s.counter && v <= Version(s, c.user)
      && (Certified(s, t, c.user, v) ==> forall b :: LoadFresh(s, t, c.user, c.phase, b))
    case _ => InGoodStanding(s, t, c) ==> ReplicaFresh(s, t, c.user, c.cursor, c.replica)
  }

  /** Past the subscription count check, version zero cannot still be current. */
  ghost predicate PastCard(p: Phase) {
    p.AtMin? || p.AtPage? || p.Answering? || p.Updated?
  }

  ghost predicate ClientInv(s: Store, t: Task, c: Client) {
    && c.cursor <= s.counter
    && c.version <= Version(s, c.user)
    && (PastCard(c.phase) && Certified(s, t, c.user, c.version) ==> c.version > 0)
    && PhaseInv(s, t, c)
  }

  /** The log is what the retention bound leaves of the history. */
  ghost predicate HistoryInv(cfg: Config, w: World) {
    && Committed(w.store, w.task) == |w.history|
    && Contiguous(w.history, |w.history|)
    && w.store.log == Trim(w.history, cfg.maxLen)
  }

  ghost predicate WorldInv(cfg: Config, w: World) {
    && Inv(cfg, w.store, w.task)
    && HistoryInv(cfg, w)
    && forall id :: id in w.clients ==> ClientInv(w.store, w.task, w.clients[id])
  }

  // ---- moves of the writer ----

  lemma FreshKept(s: Store, t: Task, s': Store, t': Task, u: UserId, k: nat, b: BlockId, val: Option<Row>)
    requires Advances(s, t, s', t') && k <= s.counter
    requires Members(s'.subs, u) == Members(s.subs, u)
    requires Fresh(s, t, u, k, b, val)
    ensures Fresh(s', t', u, k, b, val)
  {
  }

  lemma WriterKeepsClient(s: Store, t: Task, s': Store, t': Task, c: Client)
    requires Advances(s, t, s', t') && ClientInv(s, t, c)
    ensures ClientInv(s', t', c)
  {
    StandingKept(s, t, s', t', c);
    match c.phase
    case Answering(_, _, _, _, _) => WriterKeepsAnswering(s, t, s', t', c);
    case Loading(_, _, _, _) => WriterKeepsLoading(s, t, s', t', c);
    case Updated(_, _, _) => WriterKeepsUpdated(s, t, s', t', c);
    case _ => WriterKeepsWaiting(s, t, s', t', c);
  }

  /** A version that is current after the move was current before it, for the same subscriptions. */
  lemma StandingKept(s: Store, t: Task, s': Store, t': Task, c: Client)
    requires Advances(s, t, s', t') && c.version <= Version(s, c.user)
    ensures c.version <= Version(s', c.user)
    ensures Certified(s', t', c.user, c.version) ==> Certified(s, t, c.user, c.version)
    ensures InGoodStanding(s', t', c) ==> InGoodStanding(s, t, c) && Members(s'.subs, c.user) == Members(s.subs, c.user)
  {
    assert Version(s, c.user) <= Version(s', c.user);
    assert Certified(s', t', c.user, Version(s, c.user)) ==>
      !WillBump(t, c.user) && Members(s'.subs, c.user) == Members(s.subs, c.user);
  }

  lemma WriterKeepsWaiting(s: Store, t: Task, s': Store, t': Task, c: Client)
    requires Advances(s, t, s', t') && ClientInv(s, t, c)
    requires !c.phase.Answering? && !c.phase.Loading? && !c.phase.Updated?
    ensures PhaseInv(s', t', c)
  {
    StandingKept(s, t, s', t', c);
    if c.phase.AtCounter? || c.phase.Resync? {
      assert Version(s, c.user) <= Version(s', c.user);
    } else if InGoodStanding(s', t', c) {
      ReplicaKept(s, t, s', t', c.user, c.cursor, c.replica);
    }
  }

  lemma WriterKeepsUpdated(s: Store, t: Task, s': Store, t': Task, c: Client)
    requires Advances(s, t, s', t') && c.phase.Updated? && ClientInv(s, t, c)
    ensures PhaseInv(s', t', c)
  {
    StandingKept(s, t, s', t', c);
    if InGoodStanding(s', t', c) {
      ReplicaKept(s, t, s', t', c.user, c.phase.next, Apply(c.replica, c.phase.updates));
    }
  }

  lemma WriterKeepsAnswering(s: Store, t: Task, s': Store, t': Task, c: Client)
    requires Advances(s, t, s', t') && c.phase.Answering? && ClientInv(s, t, c)
    ensures PhaseInv(s', t', c)
  {
    StandingKept(s, t, s', t', c);
    if InGoodStanding(s', t', c) {
      var k := EndOf(c.phase.page, c.cursor);
      forall b ensures PageFresh(s', t', c.user, k, c.replica, c.phase, b) {
        assert PageFresh(s, t, c.user, k, c.replica, c.phase, b);
        PageFreshKept(s, t, s', t', c.user, k, c.replica, c.phase, b);
      }
    }
  }

  lemma PageFreshKept(s: Store, t: Task, s': Store, t': Task, u: UserId, k: nat, replica: Rows, p: Phase, b: BlockId)
    requires Advances(s, t, s', t') && k <= s.counter && p.Answering?
    requires Members(s'.subs, u) == Members(s.subs, u)
    requires PageFresh(s, t, u, k, replica, p, b)
    ensures PageFresh(s', t', u, k, replica, p, b)
  {
    if Fresh(s, t, u, k, b, Lookup(replica, b)) {
      FreshKept(s, t, s', t', u, k, b, Lookup(replica, b));
    }
    if Fresh(s, t, u, k, b, Lookup(p.seen, b)) {
      FreshKept(s, t, s', t', u, k, b, Lookup(p.seen, b));
    }
    assert Covered(s, t, b, k) ==> Covered(s', t', b, k);
    assert Lookup(s'.rows, b) != Lookup(s.rows, b) ==> Covered(s', t', b, k);
  }

  lemma WriterKeepsLoading(s: Store, t: Task, s': Store, t': Task, c: Client)
    requires Advances(s, t, s', t') && c.phase.Loading? && ClientInv(s, t, c)
    ensures PhaseInv(s', t', c)
  {
    if Certified(s', t', c.user, c.phase.newVersion) {
      assert Certified(s', t', c.user, Version(s, c.user));
      forall b ensures LoadFresh(s', t', c.user, c.phase, b) {
        assert LoadFresh(s, t, c.user, c.phase, b);
      }
    }
  }

  lemma ReplicaKept(s: Store, t: Task, s': Store, t': Task, u: UserId, k: nat, replica: Rows)
    requires Advances(s, t, s', t') && k <= s.counter
    requires Members(s'.subs, u) == Members(s.subs, u)
    requires ReplicaFresh(s, t, u, k, replica)
    ensures ReplicaFresh(s', t', u, k, replica)
  {
    forall b ensures FreshIn(s', t', u, k, replica, b) {
      assert FreshIn(s, t, u, k, replica, b);
      FreshKept(s, t, s', t', u, k, b, Lookup(replica, b));
    }
  }

  // ---- moves of one client ----

  lemma ReadKeepsClient(cfg: Config, s: Store, t: Task, c: Client)
    requires Inv(cfg, s, t) && ClientInv(s, t, c)
    ensures ClientInv(s, t, ReadStep(cfg, s, c))
  {
    match c.phase
    case AtCard(_) => CardKeepsClient(cfg, s, t, c);
    case AtPage(limit) => PageReadKeepsClient(cfg, s, t, c);
    case Answering(_, _, _, _, _) => if Answered(c.phase) { CountKeepsClient(cfg, s, t, c); }
    case _ => CheckKeepsClient(cfg, s, t, c);
  }

  lemma CheckKeepsClient(cfg: Config, s: Store, t: Task, c: Client)
    requires Inv(cfg, s, t) && ClientInv(s, t, c)
    requires !c.phase.AtCard? && !c.phase.AtPage? && !c.phase.Answering?
    ensures ClientInv(s, t, ReadStep(cfg, s, c))
  {
  }

  lemma CardKeepsClient(cfg: Config, s: Store, t: Task, c: Client)
    requires Inv(cfg, s, t) && ClientInv(s, t, c) && c.phase.AtCard?
    ensures ClientInv(s, t, ReadStep(cfg, s, c))
  {
    NonEmptyHas(s, c.user);
  }

  lemma NonEmptyHas(s: Store, u: UserId)
    ensures Members(s.subs, u) != {} ==> exists b :: Has(s.subs, u, b)
  {
    if Members(s.subs, u) != {} {
      var b :| b in Members(s.subs, u);
      assert Has(s.subs, u, b);
    }
  }

  lemma PageReadKeepsClient(cfg: Config, s: Store, t: Task, c: Client)
    requires Inv(cfg, s, t) && ClientInv(s, t, c) && c.phase.AtPage?
    ensures ClientInv(s, t, ReadStep(cfg, s, c))
  {
    var c' := ReadStep(cfg, s, c);
    var limit := SafeLimit(c.phase.limit, cfg.maxLimit);
    var page := Page(s.log, c.cursor, limit);
    PageBounds(s.log, Committed(s, t), c.cursor, limit);
    if page != [] && InGoodStanding(s, t, c') {
      forall b ensures PageFresh(s, t, c.user, EndOf(page, c.cursor), c.replica, c'.phase, b) {
        assert FreshIn(s, t, c.user, c.cursor, c.replica, b);
        PageReadFresh(cfg, s, t, c.user, c.cursor, limit, b, Lookup(c.replica, b));
      }
    }
  }

  /** Reading a page moves the cursor over the events it delivers and no others. */
  lemma PageReadFresh(cfg: Config, s: Store, t: Task, u: UserId, cursor: nat, limit: nat, b: BlockId, val: Option<Row>)
    requires Inv(cfg, s, t) && limit >= 1 && !Stale(s.log, cursor)
    requires Page(s.log, cursor, limit) != []
    ensures var page := Page(s.log, cursor, limit);
      && (LastOp(page, b) == None && Fresh(s, t, u, cursor, b, val) ==> Fresh(s, t, u, EndOf(page, cursor), b, val))
      && (LastOp(page, b) == Some(Delete) ==> b !in s.rows || Covered(s, t, b, EndOf(page, cursor)))
  {
    var page := Page(s.log, cursor, limit);
    PageBounds(s.log, Committed(s, t), cursor, limit);
    if LastOp(page, b) == None && Logged(s.log, b, cursor) {
      NotInPage(s.log, Committed(s, t), cursor, limit, b);
    }
    if LastOp(page, b) == Some(Delete) {
      LastInPage(s.log, Committed(s, t), cursor, limit, b);
      assert WillLog(t, b) || OpFits(LastOp(s.log, b), b in s.rows);
    }
  }

  /** An event above the cursor for a block the page does not mention comes after the page. */
  lemma NotInPage(log: seq<Event>, last: nat, cursor: nat, limit: nat, b: BlockId)
    requires Contiguous(log, last) && Logged(log, b, cursor) && LastOp(Page(log, cursor, limit), b) == None
    ensures Logged(log, b, EndOf(Page(log, cursor, limit), cursor))
  {
    var skip, end := PageSlice(log, last, cursor, limit);
    LastOpNone(Page(log, cursor, limit), b);
    LoggedPast(log, skip, end, cursor, EndOf(Page(log, cursor, limit), cursor), b);
  }

  lemma LastInPage(log: seq<Event>, last: nat, cursor: nat, limit: nat, b: BlockId)
    requires Contiguous(log, last) && LastOp(Page(log, cursor, limit), b).Some?
    ensures var page := Page(log, cursor, limit);
      LastOp(log, b) == LastOp(page, b) || Logged(log, b, EndOf(page, cursor))
  {
    var skip, end := PageSlice(log, last, cursor, limit);
    LastOpSliced(log, skip, end, EndOf(Page(log, cursor, limit), cursor), b);
  }

  lemma LoggedPast(log: seq<Event>, skip: nat, end: nat, cursor: nat, k: nat, b: BlockId)
    requires skip <= end <= |log| && Logged(log, b, cursor) && !Mentions(log[skip..end], b)
    requires forall i :: 0 <= i < skip ==> log[i].num <= cursor
    requires forall i :: end <= i < |log| ==> log[i].num > k
    ensures Logged(log, b, k)
  {
    forall i | skip <= i < end ensures log[i].block != b {
      assert log[i] == log[skip..end][i - skip];
    }
  }

  /** A block whose last operation in the page is not its last in the log has a later event. */
  lemma LastOpSliced(log: seq<Event>, skip: nat, end: nat, k: nat, b: BlockId)
    requires skip <= end <= |log| && LastOp(log[skip..end], b).Some?
    requires forall i :: end <= i < |log| ==> log[i].num > k
    ensures LastOp(log, b) == LastOp(log[skip..end], b) || Logged(log, b, k)
  {
    var before, page, after := log[..skip], log[skip..end], log[end..];
    assert log == (before + page) + after;
    LastOpConcat(before + page, after, b);
    LastOpConcat(before, page, b);
    LastOpNone(after, b);
    if Mentions(after, b) {
      var i :| 0 <= i < |after| && after[i].block == b;
      assert log[end + i] == after[i];
    }
  }

  lemma CountKeepsClient(cfg: Config, s: Store, t: Task, c: Client)
    requires Inv(cfg, s, t) && ClientInv(s, t, c) && c.phase.Answering? && Answered(c.phase)
    ensures ClientInv(s, t, ReadStep(cfg, s, c))
  {
    var p := c.phase;
    var k := EndOf(p.page, c.cursor);
    var replica := Apply(c.replica, Updates(p.page, p.members, p.seen));
    if InGoodStanding(s, t, c) {
      forall b ensures FreshIn(s, t, c.user, k, replica, b) {
        assert PageFresh(s, t, c.user, k, c.replica, p, b);
        AppliedOutcome(c.replica, p.page, p.members, p.seen, b);
        if LastOp(p.page, b).Some? {
          AnsweredAt(p, b);
        }
      }
    }
  }

  lemma AnsweredAt(p: Phase, b: BlockId)
    requires p.Answering? && Answered(p) && LastOp(p.page, b).Some?
    ensures b in p.asked
    ensures b in p.members && LastOp(p.page, b) == Some(Upsert) ==> b in p.fetched
  {
    LastOpNone(p.page, b);
    var i :| 0 <= i < |p.page| && p.page[i].block == b;
    assert p.page[i] in p.page;
  }

  lemma MemberKeepsClient(s: Store, t: Task, c: Client, b: BlockId)
    requires ClientInv(s, t, c)
    ensures ClientInv(s, t, MemberStep(s, c, b))
  {
    var c' := MemberStep(s, c, b);
    if c' != c && InGoodStanding(s, t, c) {
      var k := EndOf(c.phase.page, c.cursor);
      forall x ensures PageFresh(s, t, c.user, k, c.replica, c'.phase, x) {
        assert PageFresh(s, t, c.user, k, c.replica, c.phase, x);
      }
    }
  }

  lemma RowKeepsClient(s: Store, t: Task, c: Client, b: BlockId)
    requires ClientInv(s, t, c)
    ensures ClientInv(s, t, RowStep(s, c, b))
  {
    var c' := RowStep(s, c, b);
    if c' != c && InGoodStanding(s, t, c) {
      var k := EndOf(c.phase.page, c.cursor);
      forall x ensures PageFresh(s, t, c.user, k, c.replica, c'.phase, x) {
        assert PageFresh(s, t, c.user, k, c.replica, c.phase, x);
      }
    }
  }

  lemma ReceiveKeepsClient(s: Store, t: Task, c: Client)
    requires ClientInv(s, t, c)
    ensures ClientInv(s, t, ReceiveStep(s, c))
  {
    match c.phase
    case Resync(_, _) => ResyncKeepsClient(s, t, c);
    case Loading(_, _, missing, _) => if missing == {} { AdoptKeepsClient(s, t, c); }
    case _ =>
  }

  /** A snapshot starts out with everything still to be loaded. */
  lemma ResyncKeepsClient(s: Store, t: Task, c: Client)
    requires ClientInv(s, t, c) && c.phase.Resync?
    ensures ClientInv(s, t, ReceiveStep(s, c))
  {
    forall b ensures LoadFresh(s, t, c.user, ReceiveStep(s, c).phase, b) {
    }
  }

  /** The finished snapshot becomes the replica, with the cursor and version of the resync answer. */
  lemma AdoptKeepsClient(s: Store, t: Task, c: Client)
    requires ClientInv(s, t, c) && c.phase.Loading? && c.phase.missing == {}
    ensures ClientInv(s, t, ReceiveStep(s, c))
  {
    if InGoodStanding(s, t, ReceiveStep(s, c)) {
      forall b ensures FreshIn(s, t, c.user, c.phase.next, c.phase.loaded, b) {
        assert LoadFresh(s, t, c.user, c.phase, b);
      }
    }
  }

  lemma LoadKeepsClient(s: Store, t: Task, c: Client, b: BlockId)
    requires ClientInv(s, t, c)
    ensures ClientInv(s, t, LoadStep(s, c, b))
  {
    var c' := LoadStep(s, c, b);
    if c' != c && Certified(s, t, c.user, c.phase.newVersion) {
      forall x ensures LoadFresh(s, t, c.user, c'.phase, x) {
        assert LoadFresh(s, t, c.user, c.phase, x);
      }
    }
  }

  // ---- every run ----

  /** Every reachable world satisfies the invariant, whatever the interleaving. */
  lemma {:induction false} AlwaysInv(cfg: Config, run: seq<Action>)
    requires ValidConfig(cfg)
    ensures WorldInv(cfg, After(cfg, run))
  {
    if run == [] {
      InitialInv(cfg);
    } else {
      AlwaysInv(cfg, run[..|run| - 1]);
      NextKeepsInv(cfg, After(cfg, run[..|run| - 1]), run[|run| - 1]);
    }
  }

  lemma WorkKeepsHistory(cfg: Config, w: World)
    requires Inv(cfg, w.store, w.task) && HistoryInv(cfg, w)
    ensures HistoryInv(cfg, Next(cfg, w, Work))
  {
    var (s', t') := Step(cfg, w.store, w.task);
    if w.task.Logging? {
      LoggingKeepsHistory(cfg, w);
    } else {
      OthersKeepLog(cfg, w.store, w.task);
      assert Record(w.history, w.task) == w.history;
    }
  }

  lemma LoggingKeepsHistory(cfg: Config, w: World)
    requires Inv(cfg, w.store, w.task) && HistoryInv(cfg, w) && w.task.Logging?
    ensures HistoryInv(cfg, Next(cfg, w, Work))
  {
    var t := w.task;
    var events := EventsFor(t.start, t.op, t.blocks);
    ZAddAllAppends(w.store.log, t.start, t.op, t.blocks);
    TrimTwice(w.history, events, cfg.maxLen);
    assert |w.history + events| == w.store.counter;
  }

  /** Only the logging step changes the log or commits numbers. */
  lemma OthersKeepLog(cfg: Config, s: Store, t: Task)
    requires Inv(cfg, s, t) && !t.Logging?
    ensures var (s', t') := Step(cfg, s, t); s'.log == s.log && Committed(s', t') == Committed(s, t)
  {
    if t.Access? {
      SetAccessFrame(s, t.user, t.deny, t.chunks[0]);
    }
  }

  lemma BeginKeepsInv(cfg: Config, w: World, m: Message)
    requires WorldInv(cfg, w) && w.task == Idle && ValidMessage(m)
    ensures WorldInv(cfg, Next(cfg, w, Begin(m)))
  {
    var s, t' := w.store, Start(cfg, m);
    StartInv(cfg, s, m);
    StartAdvances(cfg, s, m);
    forall id | id in w.clients ensures ClientInv(s, t', w.clients[id]) {
      WriterKeepsClient(s, Idle, s, t', w.clients[id]);
    }
  }

  lemma WorkKeepsInv(cfg: Config, w: World)
    requires WorldInv(cfg, w)
    ensures WorldInv(cfg, Next(cfg, w, Work))
  {
    var (s', t') := Step(cfg, w.store, w.task);
    StepInv(cfg, w.store, w.task);
    StepAdvances(cfg, w.store, w.task);
    WorkKeepsHistory(cfg, w);
    forall id | id in w.clients ensures ClientInv(s', t', w.clients[id]) {
      WriterKeepsClient(w.store, w.task, s', t', w.clients[id]);
    }
  }

  lemma JoinKeepsClient(s: Store, t: Task, u: UserId, replica: Rows)
    ensures ClientInv(s, t, Newcomer(u, replica))
  {
  }

  lemma AskKeepsClient(s: Store, t: Task, c: Client, limit: int)
    requires ClientInv(s, t, c)
    ensures c.phase == Ready ==> ClientInv(s, t, c.(phase := AtVersion(limit)))
  {
  }

  lemma NextKeepsInv(cfg: Config, w: World, a: Action)
    requires WorldInv(cfg, w)
    ensures WorldInv(cfg, Next(cfg, w, a))
  {
    var s, t := w.store, w.task;
    match a
    case Begin(m) => if t == Idle && ValidMessage(m) { BeginKeepsInv(cfg, w, m); }
    case Work => WorkKeepsInv(cfg, w);
    case Join(_, u, replica) => JoinKeepsClient(s, t, u, replica);
    case Ask(id, limit) => if id in w.clients { AskKeepsClient(s, t, w.clients[id], limit); }
    case Read(id) => if id in w.clients { ReadKeepsClient(cfg, s, t, w.clients[id]); }
    case ReadMember(id, b) => if id in w.clients { MemberKeepsClient(s, t, w.clients[id], b); }
    case ReadRow(id, b) => if id in w.clients { RowKeepsClient(s, t, w.clients[id], b); }
    case Receive(id) => if id in w.clients { ReceiveKeepsClient(s, t, w.clients[id]); }
    case LoadRow(id, b) => if id in w.clients { LoadKeepsClient(s, t, w.clients[id], b); }
  }
}
