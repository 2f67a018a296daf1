/** The cursor protocol and the timestamp difference bring a client to the same rows. */
module V2RefinesV1 {
  import opened SyncStore
  import opened WriterTasks
  import opened SyncReader
  import opened SyncWorld
  import opened Convergence
  import opened TimestampDiff
  import GetUpdatesV2
  import Draining

  ghost predicate HoldsPast(past: map<BlockId, set<Row>>, rows: Rows) {
    forall b :: b in rows ==> Has(past, b, rows[b])
  }

  /** The write at hand gives every block a time above that of every row it has ever had. */
  ghost predicate RaisesTimes(w: World) {
    w.task.Writing? ==>
      var rows := SaveAll(w.store.rows, w.task.data);
      forall b, r :: b in KeysOf(w.task.data) && b in rows && Has(w.past, b, r) ==>
        Time(rows[b]).Some? && Time(rows[b]).value > StampOf(r)
  }

  /** Every write of the run raises the times, and clients join with past server rows only. */
  ghost predicate Honest(cfg: Config, run: seq<Action>)
    requires ValidConfig(cfg)
  {
    run == [] ||
    (var n := |run| - 1;
     var w := After(cfg, run[..n]);
     && Honest(cfg, run[..n])
     && (run[n].Work? ==> RaisesTimes(w))
     && (run[n].Join? ==> HoldsPast(w.past, run[n].replica)))
  }

  ghost predicate PastUpdates(past: map<BlockId, set<Row>>, updates: seq<Update>) {
    forall u :: u in updates && u.Current? ==> Has(past, u.block, u.row)
  }

  ghost predicate ClientPast(past: map<BlockId, set<Row>>, c: Client) {
    && HoldsPast(past, c.replica)
    && match c.phase
       case Answering(_, _, _, _, seen) => HoldsPast(past, seen)
       case Updated(updates, _, _) => PastUpdates(past, updates)
       case Loading(_, _, _, loaded) => HoldsPast(past, loaded)
       case _ => true
  }

  /** Any other row a block has had carries an earlier time than its row of today. */
  ghost predicate Clocked(w: World) {
    forall b, r :: b in w.store.rows && Has(w.past, b, r) ==> r == w.store.rows[b] || IsNewer(w.store, b, StampOf(r))
  }

  ghost predicate PastInv(w: World) {
    && HoldsPast(w.past, w.store.rows)
    && Clocked(w)
    && forall id :: id in w.clients ==> ClientPast(w.past, w.clients[id])
  }

  lemma {:induction false} HonestPast(cfg: Config, run: seq<Action>)
    requires ValidConfig(cfg) && Honest(cfg, run)
    ensures PastInv(After(cfg, run))
  {
    if run != [] {
      var n := |run| - 1;
      HonestPast(cfg, run[..n]);
      AlwaysInv(cfg, run[..n]);
      NextPast(cfg, After(cfg, run[..n]), run[n]);
    }
  }

  lemma NextPast(cfg: Config, w: World, a: Action)
    requires WorldInv(cfg, w) && PastInv(w)
    requires a.Work? ==> RaisesTimes(w)
    requires a.Join? ==> HoldsPast(w.past, a.replica)
    ensures PastInv(Next(cfg, w, a))
  {
    var s := w.store;
    match a
    case Work => WorkPast(cfg, w);
    case Read(id) => if id in w.clients { ReadPast(cfg, s, w.past, w.clients[id]); }
    case ReadMember(_, _) =>
    case ReadRow(id, b) => if id in w.clients { RowPast(s, w.past, w.clients[id], b); }
    case Receive(id) => if id in w.clients { ReceivePast(s, w.past, w.clients[id]); }
    case LoadRow(id, b) => if id in w.clients { LoadPast(s, w.past, w.clients[id], b); }
    case _ =>
  }

  lemma RowPast(s: Store, past: map<BlockId, set<Row>>, c: Client, b: BlockId)
    requires ClientPast(past, c) && HoldsPast(past, s.rows)
    ensures ClientPast(past, RowStep(s, c, b))
  {
  }

  lemma LoadPast(s: Store, past: map<BlockId, set<Row>>, c: Client, b: BlockId)
    requires ClientPast(past, c) && HoldsPast(past, s.rows)
    ensures ClientPast(past, LoadStep(s, c, b))
  {
  }

  lemma ReadPast(cfg: Config, s: Store, past: map<BlockId, set<Row>>, c: Client)
    requires ClientPast(past, c)
    ensures ClientPast(past, ReadStep(cfg, s, c))
  {
    if c.phase.Answering? {
      RowUpdatesPast(past, Winners(c.phase.page), c.phase.members, c.phase.seen);
    }
  }

  lemma {:induction false} RowUpdatesPast(past: map<BlockId, set<Row>>, events: seq<Event>, members: set<BlockId>,
                                          seen: Rows)
    requires HoldsPast(past, seen)
    ensures PastUpdates(past, RowUpdates(events, members, seen))
    ensures PastUpdates(past, DeleteUpdates(events, members))
  {
    if events != [] {
      RowUpdatesPast(past, events[..|events| - 1], members, seen);
    }
  }

  lemma ReceivePast(s: Store, past: map<BlockId, set<Row>>, c: Client)
    requires ClientPast(past, c)
    ensures ClientPast(past, ReceiveStep(s, c))
  {
    if c.phase.Updated? {
      ApplyPast(past, c.replica, c.phase.updates);
    }
  }

  lemma {:induction false} ApplyPast(past: map<BlockId, set<Row>>, replica: Rows, updates: seq<Update>)
    requires HoldsPast(past, replica) && PastUpdates(past, updates)
    ensures HoldsPast(past, Apply(replica, updates))
  {
    if updates != [] {
      var n := |updates| - 1;
      assert updates[n] in updates;
      ApplyPast(past, replica, updates[..n]);
    }
  }

  lemma WorkPast(cfg: Config, w: World)
    requires WorldInv(cfg, w) && PastInv(w) && RaisesTimes(w)
    ensures PastInv(Next(cfg, w, Work))
  {
    var w' := Next(cfg, w, Work);
    forall b, r ensures Has(w'.past, b, r) <==> Has(w.past, b, r) || Lookup(w'.store.rows, b) == Some(r) {
      RememberAt(w.past, w'.store.rows, b, r);
    }
    forall id | id in w.clients ensures ClientPast(w'.past, w.clients[id]) {
      assert ClientPast(w.past, w.clients[id]);
    }
    forall b, r | b in w'.store.rows && Has(w'.past, b, r)
      ensures r == w'.store.rows[b] || IsNewer(w'.store, b, StampOf(r))
    {
      if r != w'.store.rows[b] {
        ClockedAfter(cfg, w, b, r);
      }
    }
  }

  lemma RememberAt(past: map<BlockId, set<Row>>, rows: Rows, b: BlockId, r: Row)
    ensures Has(Remember(past, rows), b, r) <==> Has(past, b, r) || Lookup(rows, b) == Some(r)
  {
  }

  lemma ClockedAfter(cfg: Config, w: World, b: BlockId, r: Row)
    requires WorldInv(cfg, w) && Clocked(w) && RaisesTimes(w) && Has(w.past, b, r)
    ensures var s' := Step(cfg, w.store, w.task).0;
      b in s'.rows ==> r == s'.rows[b] || IsNewer(s', b, StampOf(r))
  {
    RowsKept(cfg, w.store, w.task, b);
    var s' := Step(cfg, w.store, w.task).0;
    if b in s'.rows && !(w.task.Writing? && b in KeysOf(w.task.data)) {
      assert r == w.store.rows[b] || IsNewer(w.store, b, StampOf(r));
    }
  }

  /** A row that is there after a step was written by it or was there before. */
  lemma RowsKept(cfg: Config, s: Store, t: Task, b: BlockId)
    requires Inv(cfg, s, t)
    ensures var s' := Step(cfg, s, t).0;
      b in s'.rows && !(t.Writing? && b in KeysOf(t.data)) ==> Lookup(s'.rows, b) == Lookup(s.rows, b)
  {
    if t.Writing? {
      SaveAllEffect(s.rows, t.data);
    }
    if t.Access? {
      SetAccessFrame(s, t.user, t.deny, t.chunks[0]);
    }
  }

  /**
   * v2 refines v1: after an honest run, with no handler at work, a client that drains the cursor
   * protocol and the same client reconciling by timestamps end with the same word on every
   * subscribed block that has a row.
   */
  lemma DrainedAgreesWithReconciled(cfg: Config, run: seq<Action>, id: nat, limit: int, claims: seq<Claim>)
    requires ValidConfig(cfg) && Honest(cfg, run) && Joined(cfg, run, id)
    requires var w := After(cfg, run); var c := w.clients[id];
      && w.task == Idle && c.phase == Ready && !c.raced
      && GetUpdatesV2.Answer(Draining.Quiet(w.store), c.user, c.cursor, c.version, limit, cfg.maxLimit).resync.None?
      && Describes(claims, c.replica)
      && DiffAnswer(AllAt(w.store), c.user, claims).resync.None?
    ensures var w := After(cfg, run); var c := w.clients[id];
      var drained := Draining.PollAll(w.store, c.user, c.replica, c.cursor, SafeLimit(limit, cfg.maxLimit)).0;
      var reconciled := Reconcile(c.replica, DiffAnswer(AllAt(w.store), c.user, claims));
      forall b :: Has(w.store.subs, c.user, b) && b in w.store.rows ==>
        Lookup(drained, b) == Lookup(reconciled, b) == Some(w.store.rows[b])
  {
    var w := After(cfg, run);
    var c := w.clients[id];
    HonestPast(cfg, run);
    Draining.QuietPollsConverge(cfg, run, id, limit);
    assert ClientPast(w.past, c);
    forall b | b in c.replica && b in w.store.rows
      ensures c.replica[b] == w.store.rows[b] || IsNewer(w.store, b, StampOf(c.replica[b]))
    {
      assert Has(w.past, b, c.replica[b]);
    }
    ReconcilesAll(w.store, c.user, claims, c.replica);
  }
}
