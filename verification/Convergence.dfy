/** What a client is guaranteed over every run of writers, polls and resyncs. */
module Convergence {
  import opened SyncStore
  import opened WriterTasks
  import opened SyncReader
  import opened Coverage
  import opened SyncWorld
  import HandlerRuns

  /** The client of a run, when it has joined. */
  ghost predicate Joined(cfg: Config, run: seq<Action>, id: nat)
    requires ValidConfig(cfg)
  {
    id in After(cfg, run).clients
  }

  lemma NothingAbove(log: seq<Event>, last: nat, k: nat)
    requires Contiguous(log, last) && !HasMore(log, k)
    ensures !Stale(log, k)
    ensures forall b :: !Logged(log, b, k)
  {
    AboveIsSuffix(log, last, k);
  }

  /** A poll has been answered with `has_more` false, the version is current and no page read came late. */
  ghost predicate EndsPoll(w: World, before: Client, c: Client) {
    && !before.phase.Updated? && c.phase.Updated? && !c.phase.more
    && !c.raced && Certified(w.store, w.task, c.user, c.version)
  }

  /** The replica holds the server's rows, except for blocks whose event above `k` is about to be logged. */
  ghost predicate Converged(w: World, u: UserId, replica: Rows, k: nat) {
    && (forall b :: Lookup(replica, b) == Target(w.store, u, b) || Due(w.task, b, k))
    && (w.task == Idle ==> replica == View(w.store, u))
  }

  /**
   * The read that ends a poll with `has_more` false: the answer brings the replica to the server's
   * rows for the client's subscriptions, except for blocks whose event a handler is about to log.
   */
  lemma LastPageConverges(cfg: Config, run: seq<Action>, id: nat)
    requires ValidConfig(cfg) && Joined(cfg, run, id)
    requires var w := After(cfg, run);
      EndsPoll(w, w.clients[id], ReadStep(cfg, w.store, w.clients[id]))
    ensures var w := After(cfg, run);
      var c := ReadStep(cfg, w.store, w.clients[id]);
      Converged(w, c.user, Apply(c.replica, c.phase.updates), c.phase.next)
  {
    var w := After(cfg, run);
    var s, t := w.store, w.task;
    var c := ReadStep(cfg, s, w.clients[id]);
    var replica := Apply(c.replica, c.phase.updates);
    AlwaysInv(cfg, run);
    ReadKeepsClient(cfg, s, t, w.clients[id]);
    assert InGoodStanding(s, t, c);
    FinalRead(cfg, s, w.clients[id]);
    NothingAbove(s.log, Committed(s, t), c.phase.next);
    forall b ensures Lookup(replica, b) == Target(s, c.user, b) || Due(t, b, c.phase.next) {
      assert FreshIn(s, t, c.user, c.phase.next, replica, b);
    }
    if t == Idle {
      ViewIsTarget(s, c.user, replica);
    }
  }

  lemma FinalRead(cfg: Config, s: Store, c: Client)
    requires !c.phase.Updated? && ReadStep(cfg, s, c).phase.Updated? && !ReadStep(cfg, s, c).phase.more
    ensures !HasMore(s.log, ReadStep(cfg, s, c).phase.next)
  {
  }

  lemma ViewIsTarget(s: Store, u: UserId, replica: Rows)
    requires forall b :: Lookup(replica, b) == Target(s, u, b)
    ensures replica == View(s, u)
  {
    var view := View(s, u);
    forall b ensures b in replica <==> b in view
      ensures b in replica ==> replica[b] == view[b]
    {
      assert Lookup(replica, b) == Target(s, u, b);
    }
  }

  /**
   * Between polls and between handlers: with a current version and no late page read, every block on
   * which the replica is wrong has a logged event above the cursor, or the cursor is already stale.
   */
  lemma DifferencesArePending(cfg: Config, run: seq<Action>, id: nat, b: BlockId)
    requires ValidConfig(cfg) && Joined(cfg, run, id)
    requires var w := After(cfg, run); var c := w.clients[id];
      w.task == Idle && c.phase == Ready && InGoodStanding(w.store, w.task, c)
    ensures var w := After(cfg, run); var c := w.clients[id];
      || Lookup(c.replica, b) == Target(w.store, c.user, b)
      || Logged(w.store.log, b, c.cursor)
      || Stale(w.store.log, c.cursor)
  {
    AlwaysInv(cfg, run);
    var w := After(cfg, run);
    var c := w.clients[id];
    assert FreshIn(w.store, w.task, c.user, c.cursor, c.replica, b);
  }

  /**
   * The snapshot a client loads after a resync answer misses nothing at or below the adopted cursor,
   * including numbers that were reserved but not yet logged when the answer was made: whatever it
   * got wrong is logged, or about to be logged, above the cursor.
   */
  lemma ResyncHandsOver(cfg: Config, run: seq<Action>, id: nat)
    requires ValidConfig(cfg) && Joined(cfg, run, id)
    requires var w := After(cfg, run); var c := w.clients[id];
      && c.phase.Loading? && c.phase.missing == {}
      && Certified(w.store, w.task, c.user, c.phase.newVersion)
    ensures var w := After(cfg, run); var c := w.clients[id];
      && (forall b ::
            Lookup(c.phase.loaded, b) == Target(w.store, c.user, b) || Covered(w.store, w.task, b, c.phase.next))
      && (w.task == Idle && !HasMore(w.store.log, c.phase.next) ==> c.phase.loaded == View(w.store, c.user))
  {
    AlwaysInv(cfg, run);
    var w := After(cfg, run);
    var c := w.clients[id];
    forall b
      ensures Lookup(c.phase.loaded, b) == Target(w.store, c.user, b) || Covered(w.store, w.task, b, c.phase.next)
    {
      assert LoadFresh(w.store, w.task, c.user, c.phase, b);
    }
    if w.task == Idle && !HasMore(w.store.log, c.phase.next) {
      NothingAbove(w.store.log, Committed(w.store, w.task), c.phase.next);
      ViewIsTarget(w.store, c.user, c.phase.loaded);
    }
  }

  // ---- whole handlers ----

  function Works(n: nat): seq<Action> {
    seq(n, _ => Work)
  }

  /** The moves of an undisturbed handler add up to its run, which is what its method computes. */
  lemma {:induction false} WorkRunsHandler(cfg: Config, run: seq<Action>) returns (n: nat)
    requires ValidConfig(cfg)
    ensures var w, w' := After(cfg, run), After(cfg, run + Works(n));
      w'.task == Idle && w'.store == HandlerRuns.Run(cfg, w.store, w.task) && w'.clients == w.clients
    decreases HandlerRuns.Cost(After(cfg, run).task)
  {
    if After(cfg, run).task == Idle {
      n := 0;
      assert run + Works(0) == run;
    } else {
      var next := run + [Work];
      assert next[..|next| - 1] == run;
      var k := WorkRunsHandler(cfg, next);
      n := k + 1;
      assert run + Works(n) == next + Works(k);
    }
  }

  // ---- the version certifies the subscription set ----

  /** A version never decreases; if it has not moved and no bump is due, neither has the subscription set. */
  lemma {:induction false} VersionCertifies(cfg: Config, run: seq<Action>, more: seq<Action>, u: UserId)
    requires ValidConfig(cfg)
    ensures var w, w' := After(cfg, run), After(cfg, run + more);
      && Version(w.store, u) <= Version(w'.store, u)
      && w.store.counter <= w'.store.counter
      && (Certified(w'.store, w'.task, u, Version(w.store, u)) ==>
            !WillBump(w.task, u) && Members(w'.store.subs, u) == Members(w.store.subs, u))
  {
    if more == [] {
      assert run + more == run;
    } else {
      var n := |more| - 1;
      var run' := run + more[..n];
      assert (run + more)[..|run + more| - 1] == run';
      VersionCertifies(cfg, run, more[..n], u);
      AlwaysInv(cfg, run');
      NextAdvances(cfg, After(cfg, run'), more[n], u);
    }
  }

  lemma NextAdvances(cfg: Config, w: World, a: Action, u: UserId)
    requires WorldInv(cfg, w)
    ensures var w' := Next(cfg, w, a);
      && Version(w.store, u) <= Version(w'.store, u)
      && w.store.counter <= w'.store.counter
      && (Certified(w'.store, w'.task, u, Version(w.store, u)) ==>
            !WillBump(w.task, u) && Members(w'.store.subs, u) == Members(w.store.subs, u))
  {
    var w' := Next(cfg, w, a);
    if a.Work? {
      StepAdvances(cfg, w.store, w.task);
    } else if a.Begin? && w' != w {
      StartAdvances(cfg, w.store, a.message);
    }
  }

  /** Between handlers, equal versions mean equal subscription sets. */
  lemma EqualVersionsEqualSubscriptions(cfg: Config, run: seq<Action>, more: seq<Action>, u: UserId)
    requires ValidConfig(cfg) && After(cfg, run + more).task == Idle
    requires Version(After(cfg, run).store, u) == Version(After(cfg, run + more).store, u)
    ensures Members(After(cfg, run).store.subs, u) == Members(After(cfg, run + more).store.subs, u)
  {
    VersionCertifies(cfg, run, more, u);
  }

  // ---- clients that were never synchronised ----

  /** A newcomer's poll gets past its version check in `s` and its subscription count check in `s'`. */
  ghost predicate PassesChecks(cfg: Config, s: Store, s': Store, u: UserId, replica: Rows, limit: int) {
    var read := ReadStep(cfg, s, Newcomer(u, replica).(phase := AtVersion(limit)));
    !read.phase.AtCounter? && !ReadStep(cfg, s', read).phase.AtCounter?
  }

  /**
   * A client at cursor zero and version zero gets past both checks exactly when the version is still
   * zero at the first and there is a subscription at the second. That takes a grant whose version
   * bump is yet to come, or came between the two checks.
   */
  lemma NewcomerPassesChecks(cfg: Config, run: seq<Action>, more: seq<Action>, u: UserId, replica: Rows, limit: int)
    requires ValidConfig(cfg)
    ensures var w, w' := After(cfg, run), After(cfg, run + more);
      var through := PassesChecks(cfg, w.store, w'.store, u, replica, limit);
      && (through <==> Version(w.store, u) == 0 && exists b :: Has(w'.store.subs, u, b))
      && (through ==> WillBump(w'.task, u) || Version(w'.store, u) > 0)
      && (w.store == w'.store && w'.task == Idle ==> !through)
  {
    AlwaysInv(cfg, run + more);
    NonEmptyHas(After(cfg, run + more).store, u);
  }

  /** A newcomer who got past the checks is told to resync by every poll that reads the version between handlers. */
  lemma PassesChecksOnce(cfg: Config, run: seq<Action>, more: seq<Action>, later: seq<Action>, u: UserId,
                       replica: Rows, limit: int)
    requires ValidConfig(cfg) && After(cfg, run + more + later).task == Idle
    requires PassesChecks(cfg, After(cfg, run).store, After(cfg, run + more).store, u, replica, limit)
    ensures var s := After(cfg, run + more + later).store;
      forall c: Client :: c.user == u && c.version == 0 && c.phase.AtVersion? ==> ReadStep(cfg, s, c).phase.AtCounter?
  {
    NewcomerPassesChecks(cfg, run, more, u, replica, limit);
    VersionCertifies(cfg, run + more, later, u);
  }

  // ---- the shape of the log, the index, staleness ----

  /** In every state the log is the newest part of everything logged, numbered up to the last commit. */
  lemma LogIsNewestHistory(cfg: Config, run: seq<Action>)
    requires ValidConfig(cfg)
    ensures var w := After(cfg, run);
      && |w.store.log| <= |w.history|
      && w.store.log == w.history[|w.history| - |w.store.log|..]
      && |w.store.log| == (if 0 < cfg.maxLen < |w.history| then cfg.maxLen else |w.history|)
      && (forall i :: 0 <= i < |w.history| ==> w.history[i].num == i + 1)
      && (!w.task.Logging? ==> |w.history| == w.store.counter)
  {
    AlwaysInv(cfg, run);
    var w := After(cfg, run);
    assert HistoryInv(cfg, w);
    TrimIsSuffix(w.history, cfg.maxLen);
  }

  lemma TrimIsSuffix(history: seq<Event>, max: int)
    ensures var log := Trim(history, max);
      && |log| == (if 0 < max < |history| then max else |history|)
      && log == history[|history| - |log|..]
  {
  }

  /** Between handlers a block's last retained event is an upsert exactly when its row exists. */
  lemma LastEventTellsRow(cfg: Config, run: seq<Action>, b: BlockId)
    requires ValidConfig(cfg) && After(cfg, run).task == Idle
    ensures var s := After(cfg, run).store;
      LastOp(s.log, b).Some? ==> (LastOp(s.log, b) == Some(Upsert) <==> b in s.rows)
  {
    AlwaysInv(cfg, run);
  }

  /** In every state, also between the chunks of a handler, the two indexes agree. */
  lemma IndexesAgree(cfg: Config, run: seq<Action>, u: UserId, b: BlockId)
    requires ValidConfig(cfg)
    ensures var s := After(cfg, run).store; u in Members(s.readers, b) <==> b in Members(s.subs, u)
  {
    AlwaysInv(cfg, run);
    assert Has(After(cfg, run).store.readers, b, u) <==> Has(After(cfg, run).store.subs, u, b);
  }

  /** The staleness test is exact: it fires when, and only when, an event above the cursor was trimmed. */
  lemma StaleMeansTrimmed(cfg: Config, run: seq<Action>, k: nat)
    requires ValidConfig(cfg)
    ensures var w := After(cfg, run);
      Stale(w.store.log, k) <==> exists e :: e in w.history && e.num > k && e !in w.store.log
  {
    AlwaysInv(cfg, run);
    var w := After(cfg, run);
    var log := w.store.log;
    var d := |w.history| - |log|;
    if Stale(log, k) {
      assert log[0] == w.history[d];
      var e := w.history[d - 1];
      assert e in w.history && e.num > k && e !in log;
    }
    if e :| e in w.history && e.num > k && e !in log {
      var i :| 0 <= i < |w.history| && w.history[i] == e;
      forall j | 0 <= j < |log| ensures log[j] != e {
      }
      assert forall j :: d <= j < |w.history| ==> w.history[j] == log[j - d];
      assert i < d;
    }
  }

  ghost predicate Delivers(page: seq<Event>, n: nat) {
    exists i :: 0 <= i < |page| && page[i].num == n
  }

  /** The answer moves the cursor past a number it does not deliver. */
  ghost predicate SkipsOver(page: seq<Event>, cursor: nat) {
    exists n :: cursor < n <= EndOf(page, cursor) && !Delivers(page, n)
  }

  /**
   * A page skips over an event exactly when it is read with a stale cursor, so the only unsafe
   * moment of a poll is a trim between the minimum check and the page read.
   */
  lemma PageSkipsExactlyWhenStale(cfg: Config, run: seq<Action>, cursor: nat, limit: nat)
    requires ValidConfig(cfg) && limit >= 1
    ensures var log := After(cfg, run).store.log;
      SkipsOver(Page(log, cursor, limit), cursor) <==> Stale(log, cursor)
  {
    AlwaysInv(cfg, run);
    var w := After(cfg, run);
    SkipsWhenStale(w.store.log, Committed(w.store, w.task), cursor, limit);
  }

  /** When a cursor is stale, in a caller's terms: more is logged above it than the log retains. */
  lemma StaleWhenOverrun(cfg: Config, run: seq<Action>, k: nat)
    requires ValidConfig(cfg)
    ensures var w := After(cfg, run);
      Stale(w.store.log, k) <==> 0 < cfg.maxLen < |w.history| - k
  {
    LogIsNewestHistory(cfg, run);
    var w := After(cfg, run);
    assert w.store.log != [] ==> w.store.log[0] == w.history[|w.history| - |w.store.log|];
  }

  lemma SkipsWhenStale(log: seq<Event>, last: nat, cursor: nat, limit: nat)
    requires Contiguous(log, last) && limit >= 1
    ensures SkipsOver(Page(log, cursor, limit), cursor) <==> Stale(log, cursor)
  {
    var page := Page(log, cursor, limit);
    if Stale(log, cursor) {
      AboveIsSuffix(log, last, cursor);
      assert page == Take(log, limit);
      assert !Delivers(page, cursor + 1);
      assert cursor + 1 <= EndOf(page, cursor);
    } else {
      PageNumbers(log, last, cursor, limit);
      forall n: nat | cursor < n <= EndOf(page, cursor) ensures Delivers(page, n) {
        assert page[n - cursor - 1].num == n;
      }
    }
  }
}
