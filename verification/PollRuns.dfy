/** The polls of a run: what their commands have seen, when, and what their clients are told. */
module PollRuns {
  import opened SyncStore
  import opened WriterTasks
  import opened SyncReader
  import opened GetUpdatesV2
  import opened SyncWorld
  import opened Convergence
  import opened PollSteps
  import Draining

  /** Notes what the action saw with the command of client `id`'s poll that it carried out, if any. */
  ghost function Noted<T>(notes: Commands<T>, seen: T, p: Phase, a: Action, id: nat): Commands<T> {
    match a
    case Read(i) =>
      if i == id then NotedRead(notes, seen, p) else notes
    case ReadMember(i, b) =>
      if i == id && WantsMember(p, b) then notes.(member := x => if x == b then seen else notes.member(x)) else notes
    case ReadRow(i, b) =>
      if i == id && WantsRow(p, b) then notes.(row := x => if x == b then seen else notes.row(x)) else notes
    case _ => notes
  }

  /** Notes what the next single read of the poll saw. */
  ghost function NotedRead<T>(notes: Commands<T>, seen: T, p: Phase): Commands<T> {
    match p
    case AtVersion(_) => notes.(version := seen)
    case AtCard(_) => notes.(card := seen)
    case AtMin(_) => notes.(min := seen)
    case AtPage(_) => notes.(page := seen)
    case Answering(_, _, _, _, _) => if Answered(p) then notes.(count := seen) else notes
    case AtCounter(_) => notes.(counter := seen)
    case _ => notes
  }

  /** The states the commands of client `id`'s latest poll have seen. */
  ghost function Seen(cfg: Config, run: seq<Action>, id: nat): Moments
    requires ValidConfig(cfg)
  {
    if run == [] then Draining.Quiet(EMPTY_STORE)
    else
      var n := |run| - 1;
      var w := After(cfg, run[..n]);
      if id in w.clients then Noted(Seen(cfg, run[..n], id), w.store, w.clients[id].phase, run[n], id)
      else Seen(cfg, run[..n], id)
  }

  /** When they did, as the number of actions before the command. */
  ghost function Marks(cfg: Config, run: seq<Action>, id: nat): Commands<nat>
    requires ValidConfig(cfg)
  {
    if run == [] then Commands(0, 0, 0, 0, b => 0, b => 0, 0, 0)
    else
      var n := |run| - 1;
      var w := After(cfg, run[..n]);
      if id in w.clients then Noted(Marks(cfg, run[..n], id), n, w.clients[id].phase, run[n], id)
      else Marks(cfg, run[..n], id)
  }

  /** What an action makes of client `id`. */
  ghost function Moved(cfg: Config, s: Store, c: Client, a: Action, id: nat): Client {
    match a
    case Ask(i, limit) => if i == id && c.phase == Ready then c.(phase := AtVersion(limit)) else c
    case Read(i) => if i == id then ReadStep(cfg, s, c) else c
    case ReadMember(i, b) => if i == id then MemberStep(s, c, b) else c
    case ReadRow(i, b) => if i == id then RowStep(s, c, b) else c
    case Receive(i) => if i == id then ReceiveStep(s, c) else c
    case LoadRow(i, b) => if i == id then LoadStep(s, c, b) else c
    case _ => c
  }

  lemma NextMoves(cfg: Config, w: World, a: Action, id: nat)
    requires ValidConfig(cfg) && id in w.clients
    ensures id in Next(cfg, w, a).clients && Next(cfg, w, a).clients[id] == Moved(cfg, w.store, w.clients[id], a, id)
  {
  }

  /** The action opens a new poll of client `id`. */
  ghost predicate Opens(c: Client, a: Action, id: nat) {
    a.Ask? && a.id == id && c.phase == Ready
  }

  /** When client `id`'s latest poll was opened. */
  ghost function Opened(cfg: Config, run: seq<Action>, id: nat): nat
    requires ValidConfig(cfg)
  {
    if run == [] then 0
    else
      var n := |run| - 1;
      var w := After(cfg, run[..n]);
      if id in w.clients && Opens(w.clients[id], run[n], id) then n else Opened(cfg, run[..n], id)
  }

  ghost function LimitOf(run: seq<Action>, k: nat): int {
    if k < |run| && run[k].Ask? then run[k].limit else 0
  }

  // ---- the states are those of the run at the marks ----

  ghost predicate SeenAt(cfg: Config, run: seq<Action>, k: nat, s: Store)
    requires ValidConfig(cfg)
  {
    k <= |run| && After(cfg, run[..k]).store == s
  }

  /** Every state of `at` is the one the run was in at its mark. */
  ghost predicate SeenAtMarks(cfg: Config, run: seq<Action>, m: Commands<nat>, at: Moments)
    requires ValidConfig(cfg)
  {
    && SeenAt(cfg, run, m.version, at.version)
    && SeenAt(cfg, run, m.card, at.card)
    && SeenAt(cfg, run, m.min, at.min)
    && SeenAt(cfg, run, m.page, at.page)
    && (forall b :: SeenAt(cfg, run, m.member(b), at.member(b)))
    && (forall b :: SeenAt(cfg, run, m.row(b), at.row(b)))
    && SeenAt(cfg, run, m.count, at.count)
    && SeenAt(cfg, run, m.counter, at.counter)
  }

  lemma SeenAtKept(cfg: Config, run: seq<Action>, k: nat, s: Store)
    requires ValidConfig(cfg) && run != [] && SeenAt(cfg, run[..|run| - 1], k, s)
    ensures SeenAt(cfg, run, k, s)
  {
    assert run[..|run| - 1][..k] == run[..k];
  }

  lemma SeenAtMarksKept(cfg: Config, run: seq<Action>, m: Commands<nat>, at: Moments)
    requires ValidConfig(cfg) && run != [] && SeenAtMarks(cfg, run[..|run| - 1], m, at)
    ensures SeenAtMarks(cfg, run, m, at)
  {
    SeenAtKept(cfg, run, m.version, at.version);
    SeenAtKept(cfg, run, m.card, at.card);
    SeenAtKept(cfg, run, m.min, at.min);
    SeenAtKept(cfg, run, m.page, at.page);
    SeenAtKept(cfg, run, m.count, at.count);
    SeenAtKept(cfg, run, m.counter, at.counter);
    forall b ensures SeenAt(cfg, run, m.member(b), at.member(b)) {
      SeenAtKept(cfg, run, m.member(b), at.member(b));
    }
    forall b ensures SeenAt(cfg, run, m.row(b), at.row(b)) {
      SeenAtKept(cfg, run, m.row(b), at.row(b));
    }
  }

  lemma NotedAtMarks(cfg: Config, run: seq<Action>, m: Commands<nat>, at: Moments, k: nat, s: Store, p: Phase,
                     a: Action,
                     id: nat)
    requires ValidConfig(cfg) && SeenAtMarks(cfg, run, m, at) && SeenAt(cfg, run, k, s)
    ensures SeenAtMarks(cfg, run, Noted(m, k, p, a, id), Noted(at, s, p, a, id))
  {
  }

  lemma {:induction false} MarksTell(cfg: Config, run: seq<Action>, id: nat)
    requires ValidConfig(cfg)
    ensures SeenAtMarks(cfg, run, Marks(cfg, run, id), Seen(cfg, run, id))
  {
    if run != [] {
      var n := |run| - 1;
      var w := After(cfg, run[..n]);
      MarksTell(cfg, run[..n], id);
      SeenAtMarksKept(cfg, run, Marks(cfg, run[..n], id), Seen(cfg, run[..n], id));
      if id in w.clients {
        var m, at := Marks(cfg, run[..n], id), Seen(cfg, run[..n], id);
        NotedAtMarks(cfg, run, m, at, n, w.store, w.clients[id].phase, run[n], id);
      }
    } else {
      assert run[..0] == [];
    }
  }

  // ---- the poll is on its way to the answer ----

  predicate InPoll(p: Phase) {
    !p.Ready? && !p.Loading?
  }

  lemma {:induction false} PollsOnTrack(cfg: Config, run: seq<Action>, id: nat)
    requires ValidConfig(cfg) && id in After(cfg, run).clients
    ensures OnTrack(cfg, Seen(cfg, run, id), After(cfg, run).clients[id], LimitOf(run, Opened(cfg, run, id)))
  {
    if run != [] {
      var n := |run| - 1;
      var w := After(cfg, run[..n]);
      AlwaysInv(cfg, run[..n]);
      if id in w.clients {
        PollsOnTrack(cfg, run[..n], id);
        LimitKept(cfg, run, id);
        NextMoves(cfg, w, run[n], id);
        var at, limit := Seen(cfg, run[..n], id), LimitOf(run, Opened(cfg, run, id));
        MoveOnTrack(cfg, w.store, w.clients[id], run[n], id, at, limit);
      }
    }
  }

  ghost predicate OnTrack(cfg: Config, at: Moments, c: Client, limit: int) {
    InPoll(c.phase) ==> Tracks(cfg, at, c, limit)
  }

  /** A client in a poll has opened it. */
  lemma {:induction false} OpenedOnce(cfg: Config, run: seq<Action>, id: nat)
    requires ValidConfig(cfg) && id in After(cfg, run).clients
    ensures InPoll(After(cfg, run).clients[id].phase) ==>
      var k := Opened(cfg, run, id); k < |run| && run[k] == Ask(id, LimitOf(run, k))
  {
    if run != [] {
      var n := |run| - 1;
      var w := After(cfg, run[..n]);
      if id in w.clients {
        OpenedOnce(cfg, run[..n], id);
        NextMoves(cfg, w, run[n], id);
        MoveInPoll(cfg, w.store, w.clients[id], run[n], id);
      }
    }
  }

  /** Only a poll that is opened takes a client from being ready into a poll. */
  lemma MoveInPoll(cfg: Config, s: Store, c: Client, a: Action, id: nat)
    ensures InPoll(Moved(cfg, s, c, a, id).phase) ==> InPoll(c.phase) || Opens(c, a, id)
  {
  }

  lemma LimitKept(cfg: Config, run: seq<Action>, id: nat)
    requires ValidConfig(cfg) && run != [] && id in After(cfg, run[..|run| - 1]).clients
    ensures var n := |run| - 1;
      var c := After(cfg, run[..n]).clients[id];
      var limit := LimitOf(run, Opened(cfg, run, id));
      if Opens(c, run[n], id) then limit == run[n].limit
      else InPoll(c.phase) ==> limit == LimitOf(run[..n], Opened(cfg, run[..n], id))
  {
    OpenedOnce(cfg, run[..|run| - 1], id);
  }

  lemma MoveOnTrack(cfg: Config, s: Store, c: Client, a: Action, id: nat, at: Moments, limit: int)
    requires OnTrack(cfg, at, c, limit) && NamedBlocks(s.log) && (Opens(c, a, id) ==> limit == a.limit)
    ensures OnTrack(cfg, Noted(at, s, c.phase, a, id), Moved(cfg, s, c, a, id), limit)
  {
    match a
    case Read(i) => if i == id { ReadOnTrack(cfg, at, s, c, limit, id); }
    case ReadMember(i, b) => if i == id { MemberOnTrack(cfg, at, s, c, b, limit, id); }
    case ReadRow(i, b) => if i == id { RowOnTrack(cfg, at, s, c, b, limit, id); }
    case Receive(_) => MoveInPoll(cfg, s, c, a, id);
    case _ =>
  }

  lemma ReadOnTrack(cfg: Config, at: Moments, s: Store, c: Client, limit: int, id: nat)
    requires OnTrack(cfg, at, c, limit)
    requires NamedBlocks(s.log)
    ensures OnTrack(cfg, Noted(at, s, c.phase, Read(id), id), ReadStep(cfg, s, c), limit)
  {
    var at' := Noted(at, s, c.phase, Read(id), id);
    if InPoll(c.phase) && ReadStep(cfg, s, c) != c {
      assert Tracks(cfg, at', c, limit) && SeesNext(at', s, c);
      ReadTracks(cfg, at', s, c, limit);
    }
  }

  lemma MemberOnTrack(cfg: Config, at: Moments, s: Store, c: Client, b: BlockId, limit: int, id: nat)
    requires OnTrack(cfg, at, c, limit)
    ensures OnTrack(cfg, Noted(at, s, c.phase, ReadMember(id, b), id), MemberStep(s, c, b), limit)
  {
    var at' := Noted(at, s, c.phase, ReadMember(id, b), id);
    if WantsMember(c.phase, b) {
      assert Tracks(cfg, at', c, limit) && at'.member(b) == s;
      MemberTracks(cfg, at', s, c, b, limit);
    }
  }

  lemma RowOnTrack(cfg: Config, at: Moments, s: Store, c: Client, b: BlockId, limit: int, id: nat)
    requires OnTrack(cfg, at, c, limit)
    ensures OnTrack(cfg, Noted(at, s, c.phase, ReadRow(id, b), id), RowStep(s, c, b), limit)
  {
    var at' := Noted(at, s, c.phase, ReadRow(id, b), id);
    if WantsRow(c.phase, b) {
      assert Tracks(cfg, at', c, limit) && at'.row(b) == s;
      RowTracks(cfg, at', s, c, b, limit);
    }
  }

  // ---- the commands come in order ----

  /** The page of the poll. */
  ghost function PageOf(cfg: Config, at: Moments, c: Client, limit: int): seq<Event> {
    Page(at.page.log, c.cursor, SafeLimit(limit, cfg.maxLimit))
  }

  /** From the opening of the poll to `now`, the commands sent so far were sent one after the other. */
  ghost predicate InOrder(cfg: Config, start: nat, m: Commands<nat>, at: Moments, c: Client, limit: int, now: nat) {
    match c.phase
    case AtVersion(_) => start < now
    case AtCard(_) => start < m.version < now
    case AtMin(_) => start < m.version < m.card < now
    case AtPage(_) => start < m.version < m.card < m.min < now
    case Answering(_, asked, _, fetched, _) =>
      && start < m.version < m.card < m.min < m.page < now
      && (forall b :: b in asked ==> m.page < m.member(b) < now)
      && (forall b :: b in fetched ==> m.member(b) < m.row(b) < now)
    case AtCounter(_) =>
      && start < m.version < now
      && (PassedVersion(at, c) ==> m.version < m.card < now)
      && (PassedCard(at, c) ==> m.card < m.min < now)
    case Updated(_, _, _) =>
      && start < m.version < m.card < m.min < m.page < now
      && (forall e :: e in PageOf(cfg, at, c, limit) ==>
            PageInOrder(m, at, c, e.block, LastOp(PageOf(cfg, at, c, limit), e.block), now))
    case Resync(_, _) =>
      && start < m.version < m.counter < now
      && (PassedVersion(at, c) ==> m.version < m.card < m.counter)
      && (PassedCard(at, c) ==> m.card < m.min < m.counter)
    case _ => true
  }

  /** The membership of a block of the page, then its row if it is needed, then the count. */
  ghost predicate PageInOrder(m: Commands<nat>, at: Moments, c: Client, b: BlockId, op: Option<Op>, now: nat) {
    && m.page < m.member(b) < m.count < now
    && (op == Some(Upsert) && Has(at.member(b).subs, c.user, b) ==> m.member(b) < m.row(b) < m.count)
  }

  lemma InOrderLater(cfg: Config, start: nat, m: Commands<nat>, at: Moments, c: Client, limit: int, now: nat)
    requires InOrder(cfg, start, m, at, c, limit, now)
    ensures InOrder(cfg, start, m, at, c, limit, now + 1)
  {
  }

  lemma ReadInOrder(cfg: Config, start: nat, m: Commands<nat>, at: Moments, s: Store, c: Client, limit: int, now: nat)
    requires OnTrack(cfg, at, c, limit) && InOrder(cfg, start, m, at, c, limit, now)
    ensures var m', at' := NotedRead(m, now, c.phase), NotedRead(at, s, c.phase);
      InOrder(cfg, start, m', at', ReadStep(cfg, s, c), limit, now + 1)
  {
    match c.phase
    case AtVersion(_) => EarlyInOrder(cfg, start, m, at, s, c, limit, now);
    case AtCard(_) => EarlyInOrder(cfg, start, m, at, s, c, limit, now);
    case AtMin(_) => LateInOrder(cfg, start, m, at, s, c, limit, now);
    case AtPage(_) => LateInOrder(cfg, start, m, at, s, c, limit, now);
    case AtCounter(_) => LateInOrder(cfg, start, m, at, s, c, limit, now);
    case Answering(_, _, _, _, _) => if Answered(c.phase) { CountInOrder(cfg, start, m, at, s, c, limit, now); }
    case _ =>
  }

  lemma EarlyInOrder(cfg: Config, start: nat, m: Commands<nat>, at: Moments, s: Store, c: Client, limit: int, now: nat)
    requires OnTrack(cfg, at, c, limit) && InOrder(cfg, start, m, at, c, limit, now)
    requires c.phase.AtVersion? || c.phase.AtCard?
    ensures var m', at' := NotedRead(m, now, c.phase), NotedRead(at, s, c.phase);
      InOrder(cfg, start, m', at', ReadStep(cfg, s, c), limit, now + 1)
  {
  }

  lemma LateInOrder(cfg: Config, start: nat, m: Commands<nat>, at: Moments, s: Store, c: Client, limit: int, now: nat)
    requires OnTrack(cfg, at, c, limit) && InOrder(cfg, start, m, at, c, limit, now)
    requires c.phase.AtMin? || c.phase.AtPage? || c.phase.AtCounter?
    ensures var m', at' := NotedRead(m, now, c.phase), NotedRead(at, s, c.phase);
      InOrder(cfg, start, m', at', ReadStep(cfg, s, c), limit, now + 1)
  {
  }

  lemma CountInOrder(cfg: Config, start: nat, m: Commands<nat>, at: Moments, s: Store, c: Client, limit: int, now: nat)
    requires c.phase.Answering? && Answered(c.phase) && Gathered(cfg, at, c, limit)
    requires InOrder(cfg, start, m, at, c, limit, now)
    ensures forall e :: e in PageOf(cfg, at, c, limit) ==>
      PageInOrder(m.(count := now), at.(count := s), c, e.block, LastOp(PageOf(cfg, at, c, limit), e.block), now + 1)
  {
  }

  lemma MemberInOrder(cfg: Config, start: nat, m: Commands<nat>, at: Moments, s: Store, c: Client, b: BlockId,
                      limit: int,
                      now: nat, id: nat)
    requires InPoll(c.phase) && InOrder(cfg, start, m, at, c, limit, now) && WantsMember(c.phase, b)
    requires c.phase.fetched <= c.phase.asked
    ensures var a := ReadMember(id, b);
      var m', at' := Noted(m, now, c.phase, a, id), Noted(at, s, c.phase, a, id);
      InOrder(cfg, start, m', at', MemberStep(s, c, b), limit, now + 1)
  {
  }

  lemma RowInOrder(cfg: Config, start: nat, m: Commands<nat>, at: Moments, s: Store, c: Client, b: BlockId, limit: int,
                   now: nat, id: nat)
    requires InPoll(c.phase) && InOrder(cfg, start, m, at, c, limit, now) && WantsRow(c.phase, b)
    requires c.phase.members <= c.phase.asked
    ensures var a := ReadRow(id, b);
      var m', at' := Noted(m, now, c.phase, a, id), Noted(at, s, c.phase, a, id);
      InOrder(cfg, start, m', at', RowStep(s, c, b), limit, now + 1)
  {
  }

  ghost predicate Nested(p: Phase) {
    p.Answering? ==> p.fetched <= p.members <= p.asked
  }

  /** One action keeps the order of the poll. */
  lemma MoveInOrder(cfg: Config, s: Store, c: Client, a: Action, id: nat, start: nat, m: Commands<nat>, at: Moments,
                    limit: int, now: nat)
    requires OnTrack(cfg, at, c, limit) && Nested(c.phase) && (Opens(c, a, id) ==> start == now)
    requires InOrder(cfg, start, m, at, c, limit, now)
    ensures var m', at' := Noted(m, now, c.phase, a, id), Noted(at, s, c.phase, a, id);
      InOrder(cfg, start, m', at', Moved(cfg, s, c, a, id), limit, now + 1)
  {
    InOrderLater(cfg, start, m, at, c, limit, now);
    match a
    case Read(i) => if i == id { ReadInOrder(cfg, start, m, at, s, c, limit, now); }
    case ReadMember(i, b) =>
      if i == id && WantsMember(c.phase, b) { MemberInOrder(cfg, start, m, at, s, c, b, limit, now, id); }
    case ReadRow(i, b) =>
      if i == id && WantsRow(c.phase, b) { RowInOrder(cfg, start, m, at, s, c, b, limit, now, id); }
    case _ =>
  }

  lemma {:induction false} PollsInOrder(cfg: Config, run: seq<Action>, id: nat)
    requires ValidConfig(cfg) && id in After(cfg, run).clients
    ensures var k := Opened(cfg, run, id);
      InOrder(cfg, k, Marks(cfg, run, id), Seen(cfg, run, id), After(cfg, run).clients[id], LimitOf(run, k), |run|)
  {
    if run != [] {
      var n := |run| - 1;
      var w := After(cfg, run[..n]);
      if id in w.clients {
        PollsInOrder(cfg, run[..n], id);
        PollsOnTrack(cfg, run[..n], id);
        LimitKept(cfg, run, id);
        NestedReads(cfg, run[..n], id);
        NextMoves(cfg, w, run[n], id);
        var k := Opened(cfg, run, id);
        var m, at := Marks(cfg, run[..n], id), Seen(cfg, run[..n], id);
        MoveInOrder(cfg, w.store, w.clients[id], run[n], id, k, m, at, LimitOf(run, k), n);
      }
    }
  }

  lemma NestedReads(cfg: Config, run: seq<Action>, id: nat)
    requires ValidConfig(cfg) && id in After(cfg, run).clients
    ensures Nested(After(cfg, run).clients[id].phase)
  {
    AlwaysInv(cfg, run);
    assert ClientInv(After(cfg, run).store, After(cfg, run).task, After(cfg, run).clients[id]);
  }

  // ---- what clients are told ----

  /** The message the client is about to receive is this answer. */
  ghost predicate Carries(c: Client, r: Response) {
    match c.phase
    case Updated(updates, next, more) => r == Response(updates, next, more, c.version, None)
    case Resync(next, v) => r.resync.Some? && r == Response([], next, false, v, r.resync)
    case _ => false
  }

  /**
   * Whatever happens between the commands of a poll: the message a client receives is what the
   * handler answers for the limit the client asked with and the states the commands of that poll
   * have seen, and those commands were sent after the poll was opened and one after the other.
   */
  lemma MessagesAreAnswers(cfg: Config, run: seq<Action>, id: nat)
    requires ValidConfig(cfg) && id in After(cfg, run).clients
    requires var c := After(cfg, run).clients[id]; c.phase.Updated? || c.phase.Resync?
    ensures var c := After(cfg, run).clients[id];
      var at, m, k := Seen(cfg, run, id), Marks(cfg, run, id), Opened(cfg, run, id);
      && k < |run| && run[k] == Ask(id, LimitOf(run, k))
      && SeenAtMarks(cfg, run, m, at)
      && InOrder(cfg, k, m, at, c, LimitOf(run, k), |run|)
      && Carries(c, Reply(cfg, at, c, LimitOf(run, k)))
  {
    OpenedOnce(cfg, run, id);
    MarksTell(cfg, run, id);
    PollsInOrder(cfg, run, id);
    PollsOnTrack(cfg, run, id);
  }

  /**
   * A client is shown nothing about a block that its user was not found subscribed to during the
   * same poll, and no row but the one found after that.
   */
  lemma ShowsOnlySubscribed(cfg: Config, run: seq<Action>, id: nat, i: nat)
    requires ValidConfig(cfg) && id in After(cfg, run).clients
    requires var c := After(cfg, run).clients[id]; c.phase.Updated? && i < |c.phase.updates|
    ensures var c := After(cfg, run).clients[id];
      var update, at, m := c.phase.updates[i], Seen(cfg, run, id), Marks(cfg, run, id);
      && Has(at.member(update.block).subs, c.user, update.block)
      && (update.Current? ==> Lookup(at.row(update.block).rows, update.block) == Some(update.row))
      && Opened(cfg, run, id) < m.member(update.block) < |run|
      && (update.Current? ==> m.member(update.block) < m.row(update.block) < |run|)
  {
    var c := After(cfg, run).clients[id];
    var at, k := Seen(cfg, run, id), Opened(cfg, run, id);
    PollsInOrder(cfg, run, id);
    PollsOnTrack(cfg, run, id);
    SeenNamed(cfg, run, id);
    ShownInOrder(cfg, k, Marks(cfg, run, id), at, c, LimitOf(run, k), |run|, c.phase.updates[i]);
  }

  /** The log a page was read from has no empty block ids. */
  lemma SeenNamed(cfg: Config, run: seq<Action>, id: nat)
    requires ValidConfig(cfg)
    ensures NamedBlocks(Seen(cfg, run, id).page.log)
  {
    MarksTell(cfg, run, id);
    AlwaysInv(cfg, run[..Marks(cfg, run, id).page]);
  }

  lemma ShownInOrder(cfg: Config, start: nat, m: Commands<nat>, at: Moments, c: Client, limit: int, now: nat, u: Update)
    requires c.phase.Updated? && u in c.phase.updates
    requires Tracks(cfg, at, c, limit) && InOrder(cfg, start, m, at, c, limit, now) && NamedBlocks(at.page.log)
    ensures Has(at.member(u.block).subs, c.user, u.block)
    ensures u.Current? ==> Lookup(at.row(u.block).rows, u.block) == Some(u.row)
    ensures start < m.member(u.block) < now && (u.Current? ==> m.member(u.block) < m.row(u.block) < now)
  {
    ShownMembers(cfg, at, c, limit, u);
    var page := PageOf(cfg, at, c, limit);
    var e :| e in page && e.block == u.block;
    assert PageInOrder(m, at, c, e.block, LastOp(page, e.block), now);
  }

  lemma ShownMembers(cfg: Config, at: Moments, c: Client, limit: int, u: Update)
    requires c.phase.Updated? && u in c.phase.updates
    requires Tracks(cfg, at, c, limit) && NamedBlocks(at.page.log)
    ensures ShownFrom(at, c.user, PageOf(cfg, at, c, limit), u)
  {
    var page := PageOf(cfg, at, c, limit);
    PageReadable(cfg, at, c, limit);
    ShownOfReadable(at, c.user, c.cursor, c.version, limit, cfg.maxLimit, page, u);
  }

  /** The update is about a block of the page that was found subscribed, with the row found for it. */
  ghost predicate ShownFrom(at: Moments, user: UserId, page: seq<Event>, u: Update) {
    && (exists e :: e in page && e.block == u.block)
    && Has(at.member(u.block).subs, user, u.block)
    && (u.Current? ==> Lookup(at.row(u.block).rows, u.block) == Some(u.row) && LastOp(page, u.block) == Some(Upsert))
  }

  lemma ShownOfReadable(at: Moments, user: UserId, cursor: nat, version: nat, limit: int, maxLimit: int,
                        good: seq<Event>,
                        u: Update)
    requires good == Readable(Page(at.page.log, cursor, SafeLimit(limit, maxLimit)))
    requires u in Answer(at, user, cursor, version, limit, maxLimit).updates
    ensures ShownFrom(at, user, good, u)
  {
    AnswerUpdates(at, user, cursor, version, limit, maxLimit, good);
    UpdatesOfMembers(good, MembersSeen(at, user, good), RowsSeen(at, good), u);
  }

  lemma PageReadable(cfg: Config, at: Moments, c: Client, limit: int)
    requires NamedBlocks(at.page.log)
    ensures Readable(PageOf(cfg, at, c, limit)) == PageOf(cfg, at, c, limit)
  {
    AboveNamed(at.page.log, c.cursor);
    Draining.AllReadable(PageOf(cfg, at, c, limit));
  }

  /** An answer speaks of members only, and shows a row only for a block whose last operation is an upsert. */
  lemma UpdatesOfMembers(page: seq<Event>, members: set<BlockId>, seen: Rows, u: Update)
    requires u in Updates(page, members, seen)
    ensures u.block in members
    ensures exists e :: e in page && e.block == u.block
    ensures u.Current? ==> Lookup(seen, u.block) == Some(u.row) && LastOp(page, u.block) == Some(Upsert)
  {
    WinnersOnce(page);
    ListsOfMembers(Winners(page), members, seen, u);
    var e :| e in Winners(page) && e.block == u.block && (u.Current? ==> e.op == Upsert);
    WinnerOp(page, e);
  }

  lemma {:induction false} ListsOfMembers(events: seq<Event>, members: set<BlockId>, seen: Rows, u: Update)
    requires u in RowUpdates(events, members, seen) + DeleteUpdates(events, members)
    ensures u.block in members && (u.Current? ==> Lookup(seen, u.block) == Some(u.row))
    ensures exists e :: e in events && e.block == u.block && (u.Current? ==> e.op == Upsert)
  {
    if events != [] {
      var n := |events| - 1;
      assert events[n] in events;
      if u in RowUpdates(events[..n], members, seen) + DeleteUpdates(events[..n], members) {
        ListsOfMembers(events[..n], members, seen, u);
        var e :| e in events[..n] && e.block == u.block && (u.Current? ==> e.op == Upsert);
        assert e in events;
      }
    }
  }

  // ---- clients that were never synchronised ----

  /**
   * A poll at cursor zero and version zero escapes a resync exactly when the version it reads is zero,
   * the user then has a subscription, and after that nothing has been trimmed yet. The first two take
   * a grant whose version bump is due or came in between, so a poll between handlers always resyncs.
   */
  lemma NewcomerResyncs(cfg: Config, run: seq<Action>, more: seq<Action>, most: seq<Action>, at: Moments, u: UserId,
                        limit: int)
    requires ValidConfig(cfg)
    requires at.version == After(cfg, run).store
    requires at.card == After(cfg, run + more).store
    requires at.min == After(cfg, run + more + most).store
    ensures var w', w'' := After(cfg, run + more), After(cfg, run + more + most);
      var escapes := Answer(at, u, 0, 0, limit, cfg.maxLimit).resync.None?;
      && (escapes <==>
            Version(at.version, u) == 0 && (exists b :: Has(at.card.subs, u, b)) && !(0 < cfg.maxLen < |w''.history|))
      && (escapes ==> WillBump(w'.task, u) || Version(w'.store, u) > 0)
      && (at.version == at.card && w'.task == Idle ==> !escapes)
  {
    AlwaysInv(cfg, run + more);
    NonEmptyHas(at.card, u);
    StaleWhenOverrun(cfg, run + more + most, 0);
  }
}
