/** Polling until nothing is left, while the writers are quiet. */
module Draining {
  import opened SyncStore
  import opened WriterTasks
  import opened SyncReader
  import opened GetUpdatesV2
  import opened Coverage
  import opened SyncWorld
  import opened Convergence

  /** A poll during which the store does not change. */
  function Quiet(s: Store): Moments {
    Commands(s, s, s, s, b => s, b => s, s, s)
  }

  /** The log of a store no handler is working on. */
  ghost predicate Settled(s: Store) {
    && Contiguous(s.log, s.counter)
    && (forall i :: 0 <= i < |s.log| ==> s.log[i].block != "")
    && (s.counter > 0 ==> s.log != [])
  }

  lemma {:induction false} AllReadable(page: seq<Event>)
    requires forall i :: 0 <= i < |page| ==> page[i].block != ""
    ensures Readable(page) == page
  {
    if page != [] {
      var n := |page| - 1;
      AllReadable(page[..n]);
      assert page == page[..n] + [page[n]];
    }
  }

  // ---- progress of a single answer ----

  /**
   * Whatever states the commands of a poll see: a resync answer hands out the counter, any other
   * answer moves the cursor to the last event it could read and never past the last commit.
   */
  lemma AnswerProgress(at: Moments, last: nat, user: UserId, cursor: nat, version: nat, limit: int, maxLimit: int)
    requires Contiguous(at.page.log, last)
    ensures var r := Answer(at, user, cursor, version, limit, maxLimit);
      var page := Page(at.page.log, cursor, SafeLimit(limit, maxLimit));
      && (r.resync.Some? ==> r.nextCursor == at.counter.counter && r.updates == [] && !r.hasMore)
      && (r.resync.None? ==>
            && cursor <= r.nextCursor <= (if cursor < last then last else cursor)
            && (r.nextCursor > cursor <==> exists e :: e in page && e.block != ""))
  {
    ReadableEnd(at.page.log, last, cursor, SafeLimit(limit, maxLimit));
  }

  /** Every answer carries the version that its first command read. */
  lemma AnswerCarriesVersion(at: Moments, user: UserId, cursor: nat, version: nat, limit: int, maxLimit: int)
    ensures Answer(at, user, cursor, version, limit, maxLimit).subscriptionVersion == Version(at.version, user)
  {
  }

  lemma ReadableEnd(log: seq<Event>, last: nat, cursor: nat, size: nat)
    requires Contiguous(log, last) && size >= 1
    ensures var good := Readable(Page(log, cursor, size));
      && (good != [] ==> cursor < EndOf(good, cursor) <= last)
      && (good != [] <==> exists e :: e in Page(log, cursor, size) && e.block != "")
  {
    var page := Page(log, cursor, size);
    PageBounds(log, last, cursor, size);
    ReadableExact(page);
    var good := Readable(page);
    if good != [] {
      var e := good[|good| - 1];
      assert e in good && e in page;
      var i :| 0 <= i < |page| && page[i] == e;
      assert page[i] in log;
      var j :| 0 <= j < |log| && log[j] == e;
    }
  }

  lemma {:induction false} ReadableExact(page: seq<Event>)
    ensures forall e :: e in Readable(page) <==> e in page && e.block != ""
    ensures Readable(page) != [] <==> exists e :: e in page && e.block != ""
  {
    if page != [] {
      var n := |page| - 1;
      ReadableExact(page[..n]);
      assert page == page[..n] + [page[n]];
    }
  }

  /** A poll at this version stays where it is, has nothing to tell and says that nothing is left. */
  ghost predicate Stalls(s: Store, user: UserId, cursor: nat, version: nat, limit: int, maxLimit: int) {
    Answer(Quiet(s), user, cursor, version, limit, maxLimit) == Response([], cursor, false, version, None)
  }

  /** With events pending, a poll that is served stalls exactly when its whole page has empty block ids. */
  lemma UnreadablePageStalls(s: Store, user: UserId, cursor: nat, limit: int, maxLimit: int)
    requires Contiguous(s.log, s.counter)
    requires Members(s.subs, user) != {} && !Stale(s.log, cursor) && HasMore(s.log, cursor)
    ensures Stalls(s, user, cursor, Version(s, user), limit, maxLimit) <==>
      forall e :: e in Page(s.log, cursor, SafeLimit(limit, maxLimit)) ==> e.block == ""
  {
    ReadableExact(Page(s.log, cursor, SafeLimit(limit, maxLimit)));
    AnswerProgress(Quiet(s), s.counter, user, cursor, Version(s, user), limit, maxLimit);
  }

  /**
   * When such a page is as long as the limit, whatever is logged after it does not help, trimming
   * included: the poll goes on stalling exactly as long as the version is current, the user has a
   * subscription and the cursor is not stale. After that it is told to resync.
   */
  lemma FullPageKeepsStalling(log: seq<Event>, last: nat, more: seq<Event>, max: int, s: Store,
                              user: UserId, cursor: nat, version: nat, limit: int, maxLimit: int)
    requires Contiguous(log, last) && Contiguous(log + more, last + |more|) && s.log == Trim(log + more, max)
    requires |Page(log, cursor, SafeLimit(limit, maxLimit))| == SafeLimit(limit, maxLimit)
    requires forall e :: e in Page(log, cursor, SafeLimit(limit, maxLimit)) ==> e.block == ""
    ensures var served := version == Version(s, user) && Members(s.subs, user) != {} && !Stale(s.log, cursor);
      && (Stalls(s, user, cursor, version, limit, maxLimit) <==> served)
      && (!served ==> Answer(Quiet(s), user, cursor, version, limit, maxLimit).resync.Some?)
  {
    if !Stale(s.log, cursor) {
      var size := SafeLimit(limit, maxLimit);
      AboveTrimmed(log + more, last + |more|, cursor, max);
      FullPageStays(log, more, cursor, size);
      assert Page(s.log, cursor, size) == Page(log, cursor, size);
      ReadableExact(Page(log, cursor, size));
    }
  }

  lemma FullPageStays(log: seq<Event>, more: seq<Event>, cursor: nat, size: nat)
    requires |Page(log, cursor, size)| == size
    ensures Page(log + more, cursor, size) == Page(log, cursor, size)
  {
    AboveConcat(log, more, cursor);
  }

  /** A trim that does not leave the cursor stale takes nothing that is above it. */
  lemma AboveTrimmed(log: seq<Event>, last: nat, cursor: nat, max: int)
    requires Contiguous(log, last) && !Stale(Trim(log, max), cursor)
    ensures Above(Trim(log, max), cursor) == Above(log, cursor)
  {
    var kept := Trim(log, max);
    var d := |log| - |kept|;
    assert kept == log[d..];
    assert Contiguous(kept, last) by {
      assert forall i {:trigger kept[i]} :: 0 <= i < |kept| ==> kept[i] == log[d + i];
    }
    AboveIsSuffix(log, last, cursor);
    AboveIsSuffix(kept, last, cursor);
    if kept != [] {
      assert kept[0] == log[d];
      assert Passed(log, last, cursor) == Passed(kept, last, cursor) + d;
    }
  }

  lemma {:induction false} AboveConcat(x: seq<Event>, y: seq<Event>, cursor: nat)
    ensures Above(x + y, cursor) == Above(x, cursor) + Above(y, cursor)
  {
    if x == [] {
      assert x + y == y;
    } else {
      assert (x + y)[1..] == x[1..] + y;
      AboveConcat(x[1..], y, cursor);
    }
  }

  // ---- one quiet page ----

  /** A client that is served pages rather than told to resync. */
  ghost predicate Served(s: Store, u: UserId, cursor: nat) {
    Members(s.subs, u) != {} && !Stale(s.log, cursor) && cursor <= s.counter
  }

  /** The updates of a quiet answer. */
  function Fetch(s: Store, u: UserId, cursor: nat, size: nat): seq<Update> {
    Updates(Page(s.log, cursor, size), Members(s.subs, u), s.rows)
  }

  function NextCursor(s: Store, cursor: nat, size: nat): nat {
    EndOf(Page(s.log, cursor, size), cursor)
  }

  /** Where the retained events above the cursor start, for a cursor that is served. */
  function Offset(s: Store, cursor: nat): int {
    cursor - (s.counter - |s.log|)
  }

  lemma AboveAt(s: Store, cursor: nat)
    requires Settled(s) && !Stale(s.log, cursor) && cursor <= s.counter
    ensures 0 <= Offset(s, cursor) <= |s.log|
    ensures Above(s.log, cursor) == s.log[Offset(s, cursor)..]
  {
    AboveIsSuffix(s.log, s.counter, cursor);
  }

  lemma PageLength(s: Store, cursor: nat, size: nat)
    requires Settled(s) && !Stale(s.log, cursor) && cursor <= s.counter && size >= 1
    ensures |Page(s.log, cursor, size)| == (if s.counter - cursor < size then s.counter - cursor else size)
    ensures Page(s.log, cursor, size) == Above(s.log, cursor)[..|Page(s.log, cursor, size)|]
  {
    AboveAt(s, cursor);
  }

  lemma PageNext(s: Store, cursor: nat, size: nat)
    requires Settled(s) && !Stale(s.log, cursor) && size >= 1
    ensures NextCursor(s, cursor, size) == cursor + |Page(s.log, cursor, size)|
  {
    PageNumbers(s.log, s.counter, cursor, size);
  }

  lemma PageSize(s: Store, cursor: nat, size: nat)
    requires Settled(s) && !Stale(s.log, cursor) && cursor <= s.counter && size >= 1
    ensures var page := Page(s.log, cursor, size);
      && |page| == (if s.counter - cursor < size then s.counter - cursor else size)
      && NextCursor(s, cursor, size) == cursor + |page|
      && !Stale(s.log, cursor + |page|)
      && Above(s.log, cursor) == page + Above(s.log, cursor + |page|)
      && (HasMore(s.log, cursor + |page|) <==> cursor + |page| < s.counter)
  {
    PageLength(s, cursor, size);
    PageNext(s, cursor, size);
    AboveSplits(s, cursor, |Page(s.log, cursor, size)|);
  }

  /** Moving the cursor by `n` takes the first `n` events off what is above it. */
  lemma AboveSplits(s: Store, cursor: nat, n: nat)
    requires Settled(s) && !Stale(s.log, cursor) && cursor + n <= s.counter
    ensures !Stale(s.log, cursor + n)
    ensures |Above(s.log, cursor)| >= n && Above(s.log, cursor) == Above(s.log, cursor)[..n] + Above(s.log, cursor + n)
    ensures HasMore(s.log, cursor + n) <==> cursor + n < s.counter
  {
    AboveAt(s, cursor);
    AboveAt(s, cursor + n);
    SplitSuffix(s.log, Offset(s, cursor), n);
    assert |Above(s.log, cursor + n)| == s.counter - (cursor + n);
  }

  lemma SplitSuffix(log: seq<Event>, i: nat, n: nat)
    requires i + n <= |log|
    ensures log[i..] == log[i..][..n] + log[i + n..]
  {
    assert log[i..][n..] == log[i + n..];
  }

  /** A poll of a quiet store answers the page above the cursor with the rows as they are. */
  lemma QuietAnswer(s: Store, u: UserId, cursor: nat, limit: int, maxLimit: int)
    requires Settled(s) && Served(s, u, cursor)
    ensures var size := SafeLimit(limit, maxLimit);
      Answer(Quiet(s), u, cursor, Version(s, u), limit, maxLimit) ==
      Response(Fetch(s, u, cursor, size), NextCursor(s, cursor, size), NextCursor(s, cursor, size) < s.counter,
               Version(s, u), None)
  {
    var size := SafeLimit(limit, maxLimit);
    var page := Page(s.log, cursor, size);
    PageMore(s, cursor, size);
    PageReadable(s, cursor, size);
    QuietUpdates(s, u, page);
    PageAnswer(Quiet(s), u, cursor, limit, maxLimit, page);
  }

  /** The answer once every check has passed. */
  lemma PageAnswer(at: Moments, u: UserId, cursor: nat, limit: int, maxLimit: int, page: seq<Event>)
    requires Members(at.card.subs, u) != {} && !Stale(at.min.log, cursor)
    requires page == Readable(Page(at.page.log, cursor, SafeLimit(limit, maxLimit)))
    ensures Answer(at, u, cursor, Version(at.version, u), limit, maxLimit) ==
      Response(Updates(page, MembersSeen(at, u, page), RowsSeen(at, page)), EndOf(page, cursor),
               page != [] && HasMore(at.count.log, EndOf(page, cursor)), Version(at.version, u), None)
  {
  }

  lemma QuietUpdates(s: Store, u: UserId, page: seq<Event>)
    ensures Updates(page, MembersSeen(Quiet(s), u, page), RowsSeen(Quiet(s), page)) ==
            Updates(page, Members(s.subs, u), s.rows)
  {
    forall e | e in page ensures e.block in BlocksOf(page) {
    }
    SameUpdates(page, MembersSeen(Quiet(s), u, page), RowsSeen(Quiet(s), page), Members(s.subs, u), s.rows);
  }

  lemma PageMore(s: Store, cursor: nat, size: nat)
    requires Settled(s) && !Stale(s.log, cursor) && cursor <= s.counter && size >= 1
    ensures NextCursor(s, cursor, size) < s.counter <==>
      Page(s.log, cursor, size) != [] && HasMore(s.log, NextCursor(s, cursor, size))
  {
    PageSize(s, cursor, size);
  }

  lemma PageReadable(s: Store, cursor: nat, size: nat)
    requires Settled(s) && size >= 1
    ensures Readable(Page(s.log, cursor, size)) == Page(s.log, cursor, size)
  {
    PageBounds(s.log, s.counter, cursor, size);
    var page := Page(s.log, cursor, size);
    forall i | 0 <= i < |page| ensures page[i].block != "" {
      assert page[i] in s.log;
    }
    AllReadable(page);
  }

  /** Only the memberships and rows of the page's own blocks matter. */
  lemma SameUpdates(page: seq<Event>, members: set<BlockId>, seen: Rows, members': set<BlockId>, seen': Rows)
    requires forall e :: e in page ==> (e.block in members <==> e.block in members')
    requires forall e :: e in page ==> Lookup(seen, e.block) == Lookup(seen', e.block)
    ensures Updates(page, members, seen) == Updates(page, members', seen')
  {
    WinnersOnce(page);
    SameNeeded(Winners(page), members, seen, members', seen');
  }

  lemma OutcomeConcat(x: seq<Event>, y: seq<Event>, members: set<BlockId>, seen: Rows, b: BlockId,
                      prior: Option<Row>)
    ensures Outcome(x + y, members, seen, b, prior) == Outcome(y, members, seen, b, Outcome(x, members, seen, b, prior))
  {
    LastOpConcat(x, y, b);
  }

  // ---- draining ----

  /** The replica and the cursor after polling with each of the limits in turn. */
  function Drain(s: Store, u: UserId, replica: Rows, cursor: nat, limits: seq<int>, maxLimit: int): (Rows, nat)
    decreases |limits|
  {
    if limits == [] then (replica, cursor)
    else
      var size := SafeLimit(limits[0], maxLimit);
      Drain(s, u, Apply(replica, Fetch(s, u, cursor, size)), NextCursor(s, cursor, size), limits[1..], maxLimit)
  }

  /** Delivering the log event by event. */
  function Replay(s: Store, u: UserId, replica: Rows, events: seq<Event>): Rows {
    if events == [] then replica
    else
      var n := |events| - 1;
      var before := Replay(s, u, replica, events[..n]);
      var b := events[n].block;
      if !Has(s.subs, u, b) then before
      else if events[n].op == Upsert && b in s.rows then before[b := s.rows[b]]
      else before - {b}
  }

  lemma {:induction false} ReplayDelivers(s: Store, u: UserId, replica: Rows, events: seq<Event>, b: BlockId)
    ensures Lookup(Replay(s, u, replica, events), b) ==
            Outcome(events, Members(s.subs, u), s.rows, b, Lookup(replica, b))
  {
    if events != [] {
      ReplayDelivers(s, u, replica, events[..|events| - 1], b);
    }
  }

  /** Answering a page and replaying the rest is replaying both. */
  lemma AnswerThenReplay(s: Store, u: UserId, replica: Rows, page: seq<Event>, rest: seq<Event>)
    ensures Replay(s, u, Apply(replica, Updates(page, Members(s.subs, u), s.rows)), rest) ==
            Replay(s, u, replica, page + rest)
  {
    var replica' := Apply(replica, Updates(page, Members(s.subs, u), s.rows));
    var x := Replay(s, u, replica', rest);
    var y := Replay(s, u, replica, page + rest);
    forall b ensures Lookup(x, b) == Lookup(y, b) {
      AppliedOutcome(replica, page, Members(s.subs, u), s.rows, b);
      ReplayDelivers(s, u, replica', rest, b);
      ReplayDelivers(s, u, replica, page + rest, b);
      OutcomeConcat(page, rest, Members(s.subs, u), s.rows, b, Lookup(replica, b));
    }
    SameLookups(x, y);
  }

  lemma FetchThenReplay(s: Store, u: UserId, replica: Rows, cursor: nat, size: nat)
    requires Settled(s) && Served(s, u, cursor) && size >= 1
    ensures Replay(s, u, Apply(replica, Fetch(s, u, cursor, size)), Above(s.log, NextCursor(s, cursor, size)))
         == Replay(s, u, replica, Above(s.log, cursor))
  {
    PageThenRest(s, cursor, size);
    AnswerThenReplay(s, u, replica, Page(s.log, cursor, size), Above(s.log, NextCursor(s, cursor, size)));
  }

  /** What is above the cursor is the next page followed by what is above the next cursor. */
  lemma PageThenRest(s: Store, cursor: nat, size: nat)
    requires Settled(s) && !Stale(s.log, cursor) && cursor <= s.counter && size >= 1
    ensures Above(s.log, cursor) == Page(s.log, cursor, size) + Above(s.log, NextCursor(s, cursor, size))
  {
    PageSize(s, cursor, size);
  }

  lemma SameLookups(x: Rows, y: Rows)
    requires forall b :: Lookup(x, b) == Lookup(y, b)
    ensures x == y
  {
    forall b ensures b in x <==> b in y
      ensures b in x ==> x[b] == y[b]
    {
      assert Lookup(x, b) == Lookup(y, b);
    }
  }

  /** What a list of limits can fetch in all. */
  function SumOfLimits(limits: seq<int>, maxLimit: int): nat {
    if limits == [] then 0 else SafeLimit(limits[0], maxLimit) + SumOfLimits(limits[1..], maxLimit)
  }

  /** Polling with each of the limits moves the cursor by their sum, or to the counter if that comes first. */
  lemma {:induction false} DrainReaches(s: Store, u: UserId, replica: Rows, cursor: nat, limits: seq<int>,
                                        maxLimit: int)
    requires Settled(s) && Served(s, u, cursor)
    ensures var sum := SumOfLimits(limits, maxLimit);
      Drain(s, u, replica, cursor, limits, maxLimit).1 == if s.counter - cursor < sum then s.counter else cursor + sum
    decreases |limits|
  {
    if limits != [] {
      var size := SafeLimit(limits[0], maxLimit);
      NextPage(s, cursor, size);
      DrainReaches(s, u, Apply(replica, Fetch(s, u, cursor, size)), NextCursor(s, cursor, size), limits[1..], maxLimit);
    }
  }

  /**
   * Page sizes do not matter: any sequence of limits that adds up to the backlog leaves the replica that
   * replaying the log event by event gives, so any two of them leave the same one.
   */
  lemma {:induction false} PageSizeIndependence(s: Store, u: UserId, replica: Rows, cursor: nat,
                                                limits: seq<int>, maxLimit: int)
    requires Settled(s) && Served(s, u, cursor)
    requires s.counter - cursor <= SumOfLimits(limits, maxLimit)
    ensures Drain(s, u, replica, cursor, limits, maxLimit).0 == Replay(s, u, replica, Above(s.log, cursor))
    decreases |limits|
  {
    if limits == [] {
      NothingLeft(s);
    } else {
      var size := SafeLimit(limits[0], maxLimit);
      NextPage(s, cursor, size);
      FetchThenReplay(s, u, replica, cursor, size);
      var replica' := Apply(replica, Fetch(s, u, cursor, size));
      PageSizeIndependence(s, u, replica', NextCursor(s, cursor, size), limits[1..], maxLimit);
    }
  }

  lemma NothingLeft(s: Store)
    requires Settled(s)
    ensures Above(s.log, s.counter) == []
  {
    AboveIsSuffix(s.log, s.counter, s.counter);
  }

  // ---- the has_more loop ----

  /** Polling until an answer says that nothing is left; the third result counts the polls. */
  function PollAll(s: Store, u: UserId, replica: Rows, cursor: nat, size: nat): (Rows, nat, nat)
    decreases s.counter - cursor
  {
    var next := NextCursor(s, cursor, size);
    var replica' := Apply(replica, Fetch(s, u, cursor, size));
    if cursor < next < s.counter then
      var (final, k, n) := PollAll(s, u, replica', next, size);
      (final, k, n + 1)
    else (replica', next, 1)
  }

  /** Pages taken by a backlog; an empty one still takes a poll. */
  function Pages(pending: nat, size: nat): nat
    requires size >= 1
  {
    if pending <= size then 1 else 1 + Pages(pending - size, size)
  }

  /** That number is the quotient rounded up: one page fewer would not be enough. */
  lemma {:induction false} PagesRoundUp(pending: nat, size: nat)
    requires size >= 1
    ensures pending <= Pages(pending, size) * size
    ensures pending > 0 ==> (Pages(pending, size) - 1) * size < pending
  {
    if pending > size {
      PagesRoundUp(pending - size, size);
      var n := Pages(pending - size, size);
      assert Pages(pending, size) == n + 1;
      assert (n + 1) * size == n * size + size && (n - 1) * size + size == n * size;
    }
  }

  /** The loop ends at the counter, after one poll per page of pending events, with everything replayed. */
  lemma {:induction false} PollAllEnds(s: Store, u: UserId, replica: Rows, cursor: nat, size: nat)
    requires Settled(s) && Served(s, u, cursor) && size >= 1
    ensures PollAll(s, u, replica, cursor, size) ==
      (Replay(s, u, replica, Above(s.log, cursor)), s.counter, Pages(s.counter - cursor, size))
    decreases s.counter - cursor
  {
    NextPage(s, cursor, size);
    FetchThenReplay(s, u, replica, cursor, size);
    var next := NextCursor(s, cursor, size);
    var replica' := Apply(replica, Fetch(s, u, cursor, size));
    if next < s.counter {
      PollAllEnds(s, u, replica', next, size);
      PollAgain(s, u, replica, cursor, size);
      assert s.counter - cursor - size == s.counter - next;
    } else {
      NothingLeft(s);
      assert Replay(s, u, replica', []) == replica';
    }
  }

  lemma PollAgain(s: Store, u: UserId, replica: Rows, cursor: nat, size: nat)
    requires size >= 1 && cursor + size == NextCursor(s, cursor, size) < s.counter
    ensures var (final, k, n) := PollAll(s, u, Apply(replica, Fetch(s, u, cursor, size)), cursor + size, size);
      PollAll(s, u, replica, cursor, size) == (final, k, n + 1)
  {
  }

  /** A page moves the cursor by its size, or to the counter when less than that is pending. */
  lemma NextPage(s: Store, cursor: nat, size: nat)
    requires Settled(s) && !Stale(s.log, cursor) && cursor <= s.counter && size >= 1
    ensures NextCursor(s, cursor, size) == (if s.counter - cursor < size then s.counter else cursor + size)
    ensures !Stale(s.log, NextCursor(s, cursor, size))
  {
    PageSize(s, cursor, size);
  }

  // ---- liveness: once the writers are quiet, every client gets there ----

  lemma ReachableSettled(cfg: Config, run: seq<Action>)
    requires ValidConfig(cfg) && After(cfg, run).task == Idle
    ensures Settled(After(cfg, run).store)
  {
    AlwaysInv(cfg, run);
  }

  /**
   * After any run, once no handler is at work: a client in good standing that is not told to resync
   * holds exactly its rows when the has_more loop ends, and the loop does end.
   */
  lemma QuietPollsConverge(cfg: Config, run: seq<Action>, id: nat, limit: int)
    requires ValidConfig(cfg) && Joined(cfg, run, id)
    requires var w := After(cfg, run); var c := w.clients[id];
      && w.task == Idle && c.phase == Ready && !c.raced
      && Answer(Quiet(w.store), c.user, c.cursor, c.version, limit, cfg.maxLimit).resync.None?
    ensures var w := After(cfg, run); var c := w.clients[id];
      PollAll(w.store, c.user, c.replica, c.cursor, SafeLimit(limit, cfg.maxLimit)).0 == View(w.store, c.user)
  {
    AlwaysInv(cfg, run);
    ReachableSettled(cfg, run);
    var w := After(cfg, run);
    var s, c := w.store, w.clients[id];
    var u := c.user;
    NonEmptyHas(s, u);
    PollAllEnds(s, u, c.replica, c.cursor, SafeLimit(limit, cfg.maxLimit));
    var events := Above(s.log, c.cursor);
    var final := Replay(s, u, c.replica, events);
    forall b ensures Lookup(final, b) == Target(s, u, b) {
      ReplayDelivers(s, u, c.replica, events, b);
      assert FreshIn(s, w.task, u, c.cursor, c.replica, b);
      PendingDecides(cfg, s, u, c.cursor, b);
    }
    ViewIsTarget(s, u, final);
  }

  /**
   * Why a poll between two steps of the system asks for a resync: the version moved, the user has no
   * subscription, or an event above the cursor is gone from the log, tested in this order.
   */
  lemma ResyncReasons(cfg: Config, run: seq<Action>, u: UserId, cursor: nat, version: nat, limit: int)
    requires ValidConfig(cfg)
    ensures var w := After(cfg, run);
      var reason := Answer(Quiet(w.store), u, cursor, version, limit, cfg.maxLimit).resync;
      var current := version == Version(w.store, u);
      var subscribed := exists b :: Has(w.store.subs, u, b);
      var trimmed := exists e :: e in w.history && e.num > cursor && e !in w.store.log;
      && (reason == Some(VersionMismatch) <==> !current)
      && (reason == Some(NoSubscriptions) <==> current && !subscribed)
      && (reason == Some(StaleCursor) <==> current && subscribed && trimmed)
  {
    NonEmptyHas(After(cfg, run).store, u);
    StaleMeansTrimmed(cfg, run, cursor);
  }

  /** A client that has just reloaded while the writers were quiet stays as it is when it polls. */
  lemma ReloadedIsStable(cfg: Config, run: seq<Action>, u: UserId, limit: int)
    requires ValidConfig(cfg) && After(cfg, run).task == Idle
    ensures var s := After(cfg, run).store;
      var r := Answer(Quiet(s), u, s.counter, Version(s, u), limit, cfg.maxLimit);
      && r.updates == [] && !r.hasMore && r.nextCursor == s.counter
      && (r.resync == None || (r.resync == Some(NoSubscriptions) && View(s, u) == map[]))
  {
    ReachableSettled(cfg, run);
    var s := After(cfg, run).store;
    if Members(s.subs, u) != {} {
      QuietAnswer(s, u, s.counter, limit, cfg.maxLimit);
      NothingLeft(s);
      assert Winners([]) == [];
    }
  }

  /** The last pending operation on a block tells whether its row exists now. */
  lemma PendingDecides(cfg: Config, s: Store, u: UserId, cursor: nat, b: BlockId)
    requires Inv(cfg, s, Idle) && !Stale(s.log, cursor)
    ensures var events := Above(s.log, cursor);
      && (LastOp(events, b) == None ==> !Covered(s, Idle, b, cursor))
      && (LastOp(events, b).Some? ==> (LastOp(events, b) == Some(Upsert) <==> b in s.rows))
  {
    AboveIsSuffix(s.log, s.counter, cursor);
    PendingInSuffix(s.log, s.counter, cursor, b);
    assert OpFits(LastOp(s.log, b), b in s.rows);
  }

  lemma PendingInSuffix(log: seq<Event>, last: nat, cursor: nat, b: BlockId)
    requires Contiguous(log, last)
    ensures var events := log[Passed(log, last, cursor)..];
      && (LastOp(events, b) == None ==> !Logged(log, b, cursor))
      && (LastOp(events, b).Some? ==> LastOp(events, b) == LastOp(log, b))
  {
    var skip := Passed(log, last, cursor);
    LastOpOfSuffix(log, skip, b);
    if Logged(log, b, cursor) {
      var i :| 0 <= i < |log| && log[i].num > cursor && log[i].block == b;
      LastOpNone(log[skip..], b);
      assert log[skip..][i - skip] == log[i];
    }
  }

  lemma LastOpOfSuffix(log: seq<Event>, skip: nat, b: BlockId)
    requires skip <= |log|
    ensures LastOp(log[skip..], b).Some? ==> LastOp(log[skip..], b) == LastOp(log, b)
  {
    assert log == log[..skip] + log[skip..];
    LastOpConcat(log[..skip], log[skip..], b);
  }
}
