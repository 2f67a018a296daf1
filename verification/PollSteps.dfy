/** The reader's single steps, taken together, give the answer that its handler is proved to return. */
module PollSteps {
  import opened SyncStore
  import opened WriterTasks
  import opened SyncReader
  import opened GetUpdatesV2
  import opened SyncWorld
  import Draining

  /** The answer of a poll of client `c` with the given limit, when its commands see the states `at`. */
  function Reply(cfg: Config, at: Moments, c: Client, limit: int): Response {
    Answer(at, c.user, c.cursor, c.version, limit, cfg.maxLimit)
  }

  ghost predicate PassedVersion(at: Moments, c: Client) {
    c.version == Version(at.version, c.user)
  }

  ghost predicate PassedCard(at: Moments, c: Client) {
    PassedVersion(at, c) && Members(at.card.subs, c.user) != {}
  }

  ghost predicate PassedMin(at: Moments, c: Client) {
    PassedCard(at, c) && !Stale(at.min.log, c.cursor)
  }

  /** A half-answered page holds what its commands have seen so far. */
  ghost predicate Gathered(cfg: Config, at: Moments, c: Client, limit: int)
    requires c.phase.Answering?
  {
    && c.phase.page == Page(at.page.log, c.cursor, SafeLimit(limit, cfg.maxLimit)) != []
    && (forall i :: 0 <= i < |c.phase.page| ==> c.phase.page[i].block != "")
    && (forall b :: b in c.phase.asked ==> (b in c.phase.members <==> Has(at.member(b).subs, c.user, b)))
    && c.phase.members <= c.phase.asked
    && RowsGathered(at, c.phase.fetched, c.phase.seen)
  }

  ghost predicate RowsGathered(at: Moments, fetched: set<BlockId>, seen: Rows) {
    && seen.Keys <= fetched
    && (forall b :: b in fetched ==> Lookup(seen, b) == Lookup(at.row(b).rows, b))
  }

  /** How far the poll has come is in keeping with the answer. */
  ghost predicate Tracks(cfg: Config, at: Moments, c: Client, limit: int) {
    match c.phase
    case AtVersion(l) => l == limit
    case AtCard(l) => l == limit && PassedVersion(at, c)
    case AtMin(l) => l == limit && PassedCard(at, c)
    case AtPage(l) => l == limit && PassedMin(at, c)
    case Answering(_, _, _, _, _) => PassedMin(at, c) && Gathered(cfg, at, c, limit)
    case AtCounter(v) => v == Version(at.version, c.user) && Reply(cfg, at, c, limit).resync.Some?
    case Updated(updates, next, more) =>
      Reply(cfg, at, c, limit) == Response(updates, next, more, Version(at.version, c.user), None)
    case Resync(next, v) =>
      var r := Reply(cfg, at, c, limit);
      r.resync.Some? && r == Response([], next, false, v, r.resync)
    case _ => false
  }

  /** The store is the one that `at` says the next command sees. */
  ghost predicate SeesNext(at: Moments, s: Store, c: Client) {
    match c.phase
    case AtVersion(_) => s == at.version
    case AtCard(_) => s == at.card
    case AtMin(_) => s == at.min
    case AtPage(_) => s == at.page
    case Answering(_, _, _, _, _) => s == at.count
    case AtCounter(_) => s == at.counter
    case _ => true
  }

  ghost predicate NamedBlocks(log: seq<Event>) {
    forall i :: 0 <= i < |log| ==> log[i].block != ""
  }

  /**
   * Each command of a poll keeps the poll on the way to its answer, however the store moves between
   * the commands, so the message a client receives is the answer for the states its poll has seen.
   */
  lemma ReadTracks(cfg: Config, at: Moments, s: Store, c: Client, limit: int)
    requires Tracks(cfg, at, c, limit) && SeesNext(at, s, c) && NamedBlocks(s.log)
    ensures Tracks(cfg, at, ReadStep(cfg, s, c), limit)
  {
    match c.phase
    case AtPage(_) => PageTracks(cfg, at, s, c, limit);
    case Answering(_, _, _, _, _) => if Answered(c.phase) { CountTracks(cfg, at, s, c, limit); }
    case _ =>
  }

  lemma MemberTracks(cfg: Config, at: Moments, s: Store, c: Client, b: BlockId, limit: int)
    requires Tracks(cfg, at, c, limit) && s == at.member(b)
    ensures Tracks(cfg, at, MemberStep(s, c, b), limit)
  {
  }

  lemma RowTracks(cfg: Config, at: Moments, s: Store, c: Client, b: BlockId, limit: int)
    requires Tracks(cfg, at, c, limit) && s == at.row(b)
    ensures Tracks(cfg, at, RowStep(s, c, b), limit)
  {
    if c.phase.Answering? && b !in c.phase.fetched {
      OneMoreRow(at, c.phase.fetched, c.phase.seen, b);
    }
  }

  lemma OneMoreRow(at: Moments, fetched: set<BlockId>, seen: Rows, b: BlockId)
    requires RowsGathered(at, fetched, seen) && b !in fetched
    ensures var rows := at.row(b).rows;
      RowsGathered(at, fetched + {b}, if b in rows then seen[b := rows[b]] else seen)
  {
  }

  lemma PageTracks(cfg: Config, at: Moments, s: Store, c: Client, limit: int)
    requires Tracks(cfg, at, c, limit) && c.phase.AtPage? && s == at.page && NamedBlocks(s.log)
    ensures Tracks(cfg, at, ReadStep(cfg, s, c), limit)
  {
    var page := Page(s.log, c.cursor, SafeLimit(limit, cfg.maxLimit));
    AboveNamed(s.log, c.cursor);
    Draining.AllReadable(page);
  }

  lemma {:induction false} AboveNamed(log: seq<Event>, cursor: nat)
    requires NamedBlocks(log)
    ensures NamedBlocks(Above(log, cursor))
  {
    if log != [] {
      AboveNamed(log[1..], cursor);
    }
  }

  lemma CountTracks(cfg: Config, at: Moments, s: Store, c: Client, limit: int)
    requires Tracks(cfg, at, c, limit) && c.phase.Answering? && Answered(c.phase) && s == at.count
    ensures Tracks(cfg, at, ReadStep(cfg, s, c), limit)
  {
    var page := c.phase.page;
    Draining.AllReadable(page);
    AnsweredUpdates(cfg, at, c, limit);
    Draining.PageAnswer(at, c.user, c.cursor, limit, cfg.maxLimit, page);
  }

  lemma AnsweredUpdates(cfg: Config, at: Moments, c: Client, limit: int)
    requires c.phase.Answering? && Answered(c.phase) && Gathered(cfg, at, c, limit)
    ensures var page := c.phase.page;
      Updates(page, c.phase.members, c.phase.seen) == Updates(page, MembersSeen(at, c.user, page), RowsSeen(at, page))
  {
    var page := c.phase.page;
    WinnersOnce(page);
    forall e | e in Winners(page)
      ensures e.block in c.phase.members <==> e.block in MembersSeen(at, c.user, page)
      ensures e.op == Upsert && e.block in c.phase.members ==>
        Lookup(c.phase.seen, e.block) == Lookup(RowsSeen(at, page), e.block)
    {
      assert e in page && e.block in BlocksOf(page);
      WinnerOp(page, e);
    }
    SameNeeded(Winners(page), c.phase.members, c.phase.seen, MembersSeen(at, c.user, page), RowsSeen(at, page));
  }

  /** A winner carries its block's last operation. */
  lemma {:induction false} WinnerOp(page: seq<Event>, e: Event)
    requires e in Winners(page)
    ensures LastOp(page, e.block) == Some(e.op)
  {
    var head, rest := page[0], page[1..];
    assert page == [head] + rest;
    LastOpConcat([head], rest, e.block);
    assert [head][..0] == [];
    if e in Winners(rest) {
      WinnerOp(rest, e);
    }
  }
}
