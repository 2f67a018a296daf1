/** Why a client that is behind will still be told: every difference is covered by something. */
module Coverage {
  import opened SyncStore
  import opened WriterTasks
  import opened SyncReader

  /** `b` has an event above `k` in the log, or one is coming, or the cursor `k` has become stale. */
  ghost predicate Covered(s: Store, t: Task, b: BlockId, k: nat) {
    || Stale(s.log, k)
    || Logged(s.log, b, k)
    || Due(t, b, k)
  }

  ghost predicate Logged(log: seq<Event>, b: BlockId, k: nat) {
    exists i :: 0 <= i < |log| && log[i].num > k && log[i].block == b
  }

  /** Holding `val` for `b` is right, or the difference is covered. */
  ghost predicate Fresh(s: Store, t: Task, u: UserId, k: nat, b: BlockId, val: Option<Row>) {
    val == Target(s, u, b) || Covered(s, t, b, k)
  }

  /** The version `v` is current and no handler in flight is about to raise it. */
  ghost predicate Certified(s: Store, t: Task, u: UserId, v: nat) {
    v == Version(s, u) && !WillBump(t, u)
  }

  /** What clients may rely on across one move of the writer. */
  ghost predicate Advances(s: Store, t: Task, s': Store, t': Task) {
    && s.counter <= s'.counter
    && (forall u :: Version(s, u) <= Version(s', u))
    && (forall u ::
          Certified(s', t', u, Version(s, u)) ==> !WillBump(t, u) && Members(s'.subs, u) == Members(s.subs, u))
    && (forall b, k: nat :: k <= s.counter && Covered(s, t, b, k) ==> Covered(s', t', b, k))
    && (forall b, k: nat :: k <= s.counter && Lookup(s'.rows, b) != Lookup(s.rows, b) ==> Covered(s', t', b, k))
  }

  lemma StartAdvances(cfg: Config, s: Store, m: Message)
    requires Inv(cfg, s, Idle)
    ensures Advances(s, Idle, s, Start(cfg, m))
  {
  }

  lemma StepAdvances(cfg: Config, s: Store, t: Task)
    requires Inv(cfg, s, t)
    ensures var (s', t') := Step(cfg, s, t); Advances(s, t, s', t')
  {
    match t
    case Writing(_) => WritingAdvances(cfg, s, t);
    case Numbering(_, _, _, _) => NumberingAdvances(cfg, s, t);
    case Logging(_, _, _, _, _) => LoggingAdvances(cfg, s, t);
    case Access(_, _, _) => AccessAdvances(cfg, s, t);
    case Removing(_, _, _) => RemovingAdvances(cfg, s, t);
    case _ =>
  }

  lemma WritingAdvances(cfg: Config, s: Store, t: Task)
    requires Inv(cfg, s, t) && t.Writing?
    ensures var (s', t') := Step(cfg, s, t); Advances(s, t, s', t')
  {
    SaveAllEffect(s.rows, t.data);
  }

  lemma NumberingAdvances(cfg: Config, s: Store, t: Task)
    requires Inv(cfg, s, t) && t.Numbering?
    ensures var (s', t') := Step(cfg, s, t); Advances(s, t, s', t')
  {
    var (s', t') := Step(cfg, s, t);
    forall b, k: nat | k <= s.counter && Covered(s, t, b, k) ensures Covered(s', t', b, k) {
      if Due(t, b, k) {
        var i :| 0 <= i < |t.blocks| && t.blocks[i] == b;
        assert t'.start + i > k;
      }
    }
  }

  lemma AccessAdvances(cfg: Config, s: Store, t: Task)
    requires Inv(cfg, s, t) && t.Access?
    ensures var (s', t') := Step(cfg, s, t); Advances(s, t, s', t')
  {
    SetAccessFrame(s, t.user, t.deny, t.chunks[0]);
    forall v | v != t.user ensures Members(SetAccess(s, t.user, t.deny, t.chunks[0]).subs, v) == Members(s.subs, v) {
      SetAccessOthers(s, t.user, t.deny, t.chunks[0], v);
    }
  }

  lemma RemovingAdvances(cfg: Config, s: Store, t: Task)
    requires Inv(cfg, s, t) && t.Removing?
    ensures var (s', t') := Step(cfg, s, t); Advances(s, t, s', t')
  {
    RemoveChunkEffect(s, t.chunk);
  }

  lemma {:induction false} SetAccessOthers(s: Store, u: UserId, deny: bool, blocks: seq<BlockId>, v: UserId)
    requires v != u
    ensures Members(SetAccess(s, u, deny, blocks).subs, v) == Members(s.subs, v)
  {
    if blocks != [] {
      SetAccessOthers(s, u, deny, blocks[..|blocks| - 1], v);
    }
  }

  /** Logging delivers what was due; what the trim drops leaves the cursor stale. */
  lemma LoggingAdvances(cfg: Config, s: Store, t: Task)
    requires Inv(cfg, s, t) && t.Logging?
    ensures var (s', t') := Step(cfg, s, t); Advances(s, t, s', t')
  {
    var (s', t') := Step(cfg, s, t);
    ZAddAllAppends(s.log, t.start, t.op, t.blocks);
    forall b, k: nat | Covered(s, t, b, k) ensures Covered(s', t', b, k) {
      LoggingCovers(cfg, s, t, b, k);
    }
  }

  lemma LoggingCovers(cfg: Config, s: Store, t: Task, b: BlockId, k: nat)
    requires Inv(cfg, s, t) && t.Logging? && Covered(s, t, b, k)
    ensures var log' := Trim(s.log + EventsFor(t.start, t.op, t.blocks), cfg.maxLen);
      Stale(log', k) || Logged(log', b, k)
  {
    var full := s.log + EventsFor(t.start, t.op, t.blocks);
    assert Contiguous(full, s.counter);
    if Stale(s.log, k) {
      assert full[0] == s.log[0];
      StaleKept(full, s.counter, cfg.maxLen, k);
    } else if Logged(s.log, b, k) {
      var i :| 0 <= i < |s.log| && s.log[i].num > k && s.log[i].block == b;
      assert full[i] == s.log[i];
      KeptOrStale(full, s.counter, cfg.maxLen, i, k);
    } else {
      var i :| 0 <= i < |t.blocks| && t.blocks[i] == b && t.start + i > k;
      assert full[|s.log| + i] == Event(t.start + i, t.op, b);
      KeptOrStale(full, s.counter, cfg.maxLen, |s.log| + i, k);
    }
  }

  /** A stale cursor stays stale when more is trimmed. */
  lemma StaleKept(full: seq<Event>, last: nat, max: int, k: nat)
    requires Contiguous(full, last) && Stale(full, k)
    ensures Stale(Trim(full, max), k)
  {
    if 0 < max < |full| {
      assert Trim(full, max)[0] == full[|full| - max];
    }
  }

  lemma KeptOrStale(full: seq<Event>, last: nat, max: int, i: nat, k: nat)
    requires Contiguous(full, last) && i < |full| && full[i].num > k
    ensures Stale(Trim(full, max), k) || Logged(Trim(full, max), full[i].block, k)
  {
    if 0 < max < |full| {
      var d := |full| - max;
      assert Trim(full, max)[0] == full[d];
      if i >= d {
        assert Trim(full, max)[i - d] == full[i];
      }
    }
  }
}
