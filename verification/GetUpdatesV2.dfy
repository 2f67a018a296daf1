/** The loops of the cursor-based reader, against what its answer is meant to be. */
module GetUpdatesV2 {
  import opened SyncStore
  import opened SyncReader
  import opened ChangelogCodec

  /** Something for each Redis command of one poll, in the order the commands are sent. */
  datatype Commands<T> = Commands(
    version: T,
    card: T,
    min: T,
    page: T,
    member: BlockId -> T,
    row: BlockId -> T,
    count: T,
    counter: T)

  /** The state each command happens to see. */
  type Moments = Commands<Store>

  /** The events of a page whose member text decodes. */
  function Readable(page: seq<Event>): seq<Event> {
    if page == [] then []
    else
      var n := |page| - 1;
      Readable(page[..n]) + if page[n].block != "" then [page[n]] else []
  }

  function BlocksOf(page: seq<Event>): set<BlockId> {
    set e | e in page :: e.block
  }

  function MembersSeen(at: Moments, user: UserId, page: seq<Event>): set<BlockId> {
    set b | b in BlocksOf(page) && Has(at.member(b).subs, user, b)
  }

  function RowsSeen(at: Moments, page: seq<Event>): Rows {
    map b | b in BlocksOf(page) && b in at.row(b).rows :: at.row(b).rows[b]
  }

  /** What a poll answers. */
  function Answer(at: Moments, user: UserId, cursor: nat, version: nat, limit: int, maxLimit: int): Response {
    var current := Version(at.version, user);
    if version != current then Response([], at.counter.counter, false, current, Some(VersionMismatch))
    else if Members(at.card.subs, user) == {} then
      Response([], at.counter.counter, false, current, Some(NoSubscriptions))
    else if Stale(at.min.log, cursor) then Response([], at.counter.counter, false, current, Some(StaleCursor))
    else
      var page := Readable(Page(at.page.log, cursor, SafeLimit(limit, maxLimit)));
      if page == [] then Response([], cursor, false, current, None)
      else
        var next := EndOf(page, cursor);
        Response(Updates(page, MembersSeen(at, user, page), RowsSeen(at, page)),
                 next, HasMore(at.count.log, next), current, None)
  }

  /** The page's numbers go up, as sorted-set scores do. */
  ghost predicate Rising(page: seq<Event>) {
    forall i, j :: 0 <= i < j < |page| ==> page[i].num < page[j].num
  }

  function Max(x: nat, y: nat): nat { if x < y then y else x }

  function LastEvent(page: seq<Event>, b: BlockId): Option<Event> {
    if page == [] then None
    else
      var n := |page| - 1;
      if page[n].block == b then Some(page[n]) else LastEvent(page[..n], b)
  }

  /** The events of the subscribed blocks. */
  function Relevant(events: seq<Event>, members: set<BlockId>): seq<Event> {
    if events == [] then []
    else
      var n := |events| - 1;
      Relevant(events[..n], members) + if events[n].block in members then [events[n]] else []
  }

  // ---- facts about these lists ----

  lemma {:induction false} ReadableSome(page: seq<Event>)
    ensures forall e :: e in Readable(page) ==> e in page
    ensures Rising(page) ==> Rising(Readable(page))
  {
    if page != [] {
      var n := |page| - 1;
      ReadableSome(page[..n]);
      if Rising(page) {
        RisingOneMore(page, Readable(page[..n]));
      }
    }
  }

  /** The last event of a rising list can follow any rising choice of the others. */
  lemma RisingOneMore(page: seq<Event>, some: seq<Event>)
    requires Rising(page) && page != [] && Rising(some)
    requires forall e :: e in some ==> e in page[..|page| - 1]
    ensures Rising(some + [page[|page| - 1]])
  {
    var n := |page| - 1;
    forall i | 0 <= i < |some| ensures some[i].num < page[n].num {
      assert some[i] in some && some[i] in page[..n];
      var j :| 0 <= j < n && page[..n][j] == some[i];
      assert page[j] == some[i];
    }
  }

  lemma {:induction false} RelevantExact(events: seq<Event>, members: set<BlockId>)
    ensures forall e :: e in Relevant(events, members) <==> e in events && e.block in members
    ensures Rising(events) ==> Rising(Relevant(events, members))
  {
    if events != [] {
      var n := |events| - 1;
      RelevantExact(events[..n], members);
      assert events == events[..n] + [events[n]];
      if Rising(events) {
        RisingOneMore(events, Relevant(events[..n], members));
      }
    }
  }

  lemma {:induction false} RelevantUpdates(events: seq<Event>, members: set<BlockId>, seen: Rows)
    ensures RowUpdates(Relevant(events, members), members, seen) == RowUpdates(events, members, seen)
    ensures DeleteUpdates(Relevant(events, members), members) == DeleteUpdates(events, members)
  {
    if events != [] {
      var n := |events| - 1;
      RelevantUpdates(events[..n], members, seen);
      if events[n].block in members {
        var r := Relevant(events[..n], members);
        assert (r + [events[n]])[..|r|] == r;
      } else {
        assert Relevant(events, members) == Relevant(events[..n], members);
      }
    }
  }

  lemma {:induction false} LastEventIn(page: seq<Event>, b: BlockId)
    ensures LastEvent(page, b).Some? <==> b in BlocksOf(page)
    ensures LastEvent(page, b).Some? ==> LastEvent(page, b).value in page && LastEvent(page, b).value.block == b
  {
    if page != [] {
      var n := |page| - 1;
      LastEventIn(page[..n], b);
      assert page == page[..n] + [page[n]];
      assert page[n] in page;
    }
  }

  lemma {:induction false} LastEventCons(head: Event, page: seq<Event>, b: BlockId)
    ensures LastEvent([head] + page, b) ==
      if LastEvent(page, b).Some? then LastEvent(page, b) else if head.block == b then Some(head) else None
  {
    if page == [] {
      assert [head] + page == [head];
      assert [head][..0] == [];
    } else {
      var n := |page| - 1;
      assert ([head] + page)[..n + 1] == [head] + page[..n];
      LastEventCons(head, page[..n], b);
    }
  }

  lemma {:induction false} LastEventOp(page: seq<Event>, b: BlockId)
    ensures LastEvent(page, b).Some? <==> LastOp(page, b).Some?
  {
    if page != [] {
      LastEventOp(page[..|page| - 1], b);
    }
  }

  /** The winners of a page are the last events of its blocks, in rising order. */
  lemma {:induction false} WinnersAreLast(page: seq<Event>)
    requires Rising(page)
    ensures Rising(Winners(page))
    ensures forall e :: e in Winners(page) <==> LastEvent(page, e.block) == Some(e)
  {
    if page != [] {
      var rest := page[1..];
      WinnersAreLast(rest);
      WinnersRising(page);
      assert page == [page[0]] + rest;
      forall e ensures e in Winners(page) <==> LastEvent(page, e.block) == Some(e) {
        WinnerCons(page[0], rest, e);
      }
    }
  }

  lemma WinnerCons(head: Event, rest: seq<Event>, e: Event)
    requires e in Winners(rest) <==> LastEvent(rest, e.block) == Some(e)
    ensures e in Winners([head] + rest) <==> LastEvent([head] + rest, e.block) == Some(e)
  {
    assert ([head] + rest)[1..] == rest;
    LastEventCons(head, rest, e.block);
    LastEventOp(rest, e.block);
    WinnersOnce(rest);
  }

  lemma {:induction false} WinnersRising(page: seq<Event>)
    requires Rising(page)
    ensures Rising(Winners(page))
  {
    if page != [] {
      var rest := page[1..];
      WinnersRising(rest);
      WinnersOnce(rest);
      if Winners(rest) != [] {
        assert Winners(rest)[0] in rest;
        var j :| 0 <= j < |rest| && rest[j] == Winners(rest)[0];
        assert page[j + 1] == rest[j];
      }
      RisingConcat([page[0]], Winners(rest));
    }
  }

  // ---- the order of the answer ----

  /** The updates come from events of the page with this operation, each the last of its block, in page order. */
  ghost predicate InPageOrder(page: seq<Event>, events: seq<Event>, updates: seq<Update>, op: Op) {
    && (forall i :: 0 <= i < |updates| ==>
          LastEvent(page, updates[i].block).Some? && LastEvent(page, updates[i].block).value in events)
    && (forall i :: 0 <= i < |updates| ==> LastEvent(page, updates[i].block).value.op == op)
    && (forall i, j :: 0 <= i < j < |updates| ==>
          LastEvent(page, updates[i].block).value.num < LastEvent(page, updates[j].block).value.num)
  }

  lemma {:induction false} RowsInOrder(page: seq<Event>, events: seq<Event>, members: set<BlockId>, seen: Rows)
    requires Rising(events) && forall e :: e in events ==> LastEvent(page, e.block) == Some(e)
    ensures InPageOrder(page, events, RowUpdates(events, members, seen), Upsert)
  {
    if events != [] {
      var n := |events| - 1;
      RowsInOrder(page, events[..n], members, seen);
      assert events[n] in events;
      if events[n].op == Upsert && events[n].block in members {
        OneMoreInOrder(page, events, RowUpdates(events[..n], members, seen), RowUpdate(events[n].block, seen), Upsert);
      }
    }
  }

  lemma {:induction false} DeletesInOrder(page: seq<Event>, events: seq<Event>, members: set<BlockId>)
    requires Rising(events) && forall e :: e in events ==> LastEvent(page, e.block) == Some(e)
    ensures InPageOrder(page, events, DeleteUpdates(events, members), Delete)
  {
    if events != [] {
      var n := |events| - 1;
      DeletesInOrder(page, events[..n], members);
      assert events[n] in events;
      if events[n].op == Delete && events[n].block in members {
        OneMoreInOrder(page, events, DeleteUpdates(events[..n], members), Deleted(events[n].block), Delete);
      }
    }
  }

  lemma OneMoreInOrder(page: seq<Event>, events: seq<Event>, updates: seq<Update>, u: Update, op: Op)
    requires events != [] && Rising(events) && InPageOrder(page, events[..|events| - 1], updates, op)
    requires LastEvent(page, u.block) == Some(events[|events| - 1]) && events[|events| - 1].op == op
    ensures InPageOrder(page, events, updates + [u], op)
  {
    var n := |events| - 1;
    forall i | 0 <= i < |updates|
      ensures LastEvent(page, updates[i].block).value in events
      ensures LastEvent(page, updates[i].block).value.num < events[n].num
    {
      var e := LastEvent(page, updates[i].block).value;
      var p :| 0 <= p < n && events[..n][p] == e;
      assert events[p] == e;
    }
  }

  /** Position `p` of the page is the last mention of block `b`. */
  ghost predicate LastAt(page: seq<Event>, p: int, b: BlockId) {
    0 <= p < |page| && page[p].block == b && forall q :: p < q < |page| ==> page[q].block != b
  }

  lemma {:induction false} LastEventAt(page: seq<Event>, b: BlockId) returns (p: nat)
    requires LastEvent(page, b).Some?
    ensures LastAt(page, p, b) && page[p] == LastEvent(page, b).value
  {
    var n := |page| - 1;
    if page[n].block == b {
      p := n;
    } else {
      p := LastEventAt(page[..n], b);
      assert page[..n][p] == page[p];
      forall q | p < q < |page| ensures page[q].block != b {
        assert q < n ==> page[..n][q].block != b;
      }
    }
  }

  /**
   * The last mention of `x` is answered before the last mention of `y`: the operation is the same and
   * it comes first on the page, or the one is an upsert and the other a deletion.
   */
  ghost predicate AnsweredBefore(page: seq<Event>, x: BlockId, y: BlockId) {
    exists p, q :: LastAt(page, p, x) && LastAt(page, q, y) &&
      ((page[p].op == page[q].op && p < q) || (page[p].op == Upsert && page[q].op == Delete))
  }

  /** The updates for a page: first the upserted blocks, then the deleted ones, each in page order. */
  lemma UpdatesInOrder(page: seq<Event>, members: set<BlockId>, seen: Rows, i: nat, j: nat)
    requires Rising(page) && i < j < |Updates(page, members, seen)|
    ensures AnsweredBefore(page, Updates(page, members, seen)[i].block, Updates(page, members, seen)[j].block)
  {
    var events := Winners(page);
    WinnersAreLast(page);
    RowsInOrder(page, events, members, seen);
    DeletesInOrder(page, events, members);
    var rows, deletes := RowUpdates(events, members, seen), DeleteUpdates(events, members);
    var updates := Updates(page, members, seen);
    assert updates[i] == if i < |rows| then rows[i] else deletes[i - |rows|];
    assert updates[j] == if j < |rows| then rows[j] else deletes[j - |rows|];
    var p := LastEventAt(page, updates[i].block);
    var q := LastEventAt(page, updates[j].block);
    assert p < q || page[p].num >= page[q].num;
  }

  /** The readable page of a poll. */
  function GoodPage(at: Moments, cursor: nat, limit: int, maxLimit: int): seq<Event> {
    Readable(Page(at.page.log, cursor, SafeLimit(limit, maxLimit)))
  }

  /** The updates of a non-resync answer are those of its readable page. */
  lemma AnswerUpdates(at: Moments, user: UserId, cursor: nat, version: nat, limit: int, maxLimit: int, page: seq<Event>)
    requires page == GoodPage(at, cursor, limit, maxLimit)
    requires Answer(at, user, cursor, version, limit, maxLimit).resync.None?
    ensures Answer(at, user, cursor, version, limit, maxLimit).updates ==
      Updates(page, MembersSeen(at, user, page), RowsSeen(at, page))
  {
    if page == [] {
      assert Updates(page, MembersSeen(at, user, page), RowsSeen(at, page)) == [];
    }
  }

  /**
   * What a non-resync answer says of a block, and that it says something exactly of the subscribed
   * blocks of its page: the row, if the last operation is an upsert and there is one, else a deletion.
   */
  lemma AnswerTells(at: Moments, user: UserId, cursor: nat, version: nat, limit: int, maxLimit: int, b: BlockId)
    requires Answer(at, user, cursor, version, limit, maxLimit).resync.None?
    ensures var page := GoodPage(at, cursor, limit, maxLimit);
      LastUpdate(Answer(at, user, cursor, version, limit, maxLimit).updates, b) ==
        if (forall i :: 0 <= i < |page| ==> page[i].block != b) || !Has(at.member(b).subs, user, b) then None
        else if LastOp(page, b) == Some(Upsert) && b in at.row(b).rows then Some(Current(b, at.row(b).rows[b]))
        else Some(Deleted(b))
  {
    var page := GoodPage(at, cursor, limit, maxLimit);
    AnswerUpdates(at, user, cursor, version, limit, maxLimit, page);
    PageTells(at, user, page, b);
  }

  lemma PageTells(at: Moments, user: UserId, page: seq<Event>, b: BlockId)
    ensures LastUpdate(Updates(page, MembersSeen(at, user, page), RowsSeen(at, page)), b) ==
      if (forall i :: 0 <= i < |page| ==> page[i].block != b) || !Has(at.member(b).subs, user, b) then None
      else if LastOp(page, b) == Some(Upsert) && b in at.row(b).rows then Some(Current(b, at.row(b).rows[b]))
      else Some(Deleted(b))
  {
    UpdatesTell(page, MembersSeen(at, user, page), RowsSeen(at, page), b);
    LastOpNone(page, b);
    if Mentions(page, b) {
      var i :| 0 <= i < |page| && page[i].block == b;
      assert page[i] in page && b in BlocksOf(page);
    }
  }

  /** The order of the updates of an answer. */
  lemma AnswerInOrder(at: Moments, user: UserId, cursor: nat, version: nat, limit: int, maxLimit: int, i: nat, j: nat)
    requires Rising(at.page.log)
    requires i < j < |Answer(at, user, cursor, version, limit, maxLimit).updates|
    ensures var updates := Answer(at, user, cursor, version, limit, maxLimit).updates;
      AnsweredBefore(GoodPage(at, cursor, limit, maxLimit), updates[i].block, updates[j].block)
  {
    var page := GoodPage(at, cursor, limit, maxLimit);
    GoodRising(at, cursor, limit, maxLimit);
    AnswerUpdates(at, user, cursor, version, limit, maxLimit, page);
    UpdatesInOrder(page, MembersSeen(at, user, page), RowsSeen(at, page), i, j);
  }

  lemma GoodRising(at: Moments, cursor: nat, limit: int, maxLimit: int)
    requires Rising(at.page.log)
    ensures Rising(GoodPage(at, cursor, limit, maxLimit))
  {
    PageRising(at.page.log, cursor, SafeLimit(limit, maxLimit));
    ReadableSome(Page(at.page.log, cursor, SafeLimit(limit, maxLimit)));
  }

  lemma {:induction false} RisingUnique(x: seq<Event>, y: seq<Event>)
    requires Rising(x) && Rising(y) && forall e :: e in x <==> e in y
    ensures x == y
  {
    assert y != [] ==> y[0] in y;
    if x != [] {
      assert x[0] in y && y != [];
      var m, n := |x| - 1, |y| - 1;
      assert x[m] in y && y[n] in x;
      assert x[m] == y[n];
      assert x == x[..m] + [x[m]] && y == y[..n] + [y[n]];
      forall e ensures e in x[..m] <==> e in y[..n] {
        assert e in x <==> e in x[..m] || e == x[m];
        assert e in y <==> e in y[..n] || e == y[n];
        assert x[m] !in x[..m] && y[n] !in y[..n];
      }
      RisingUnique(x[..m], y[..n]);
    }
  }

  lemma PageRising(log: seq<Event>, cursor: nat, limit: nat)
    requires Rising(log)
    ensures Rising(Page(log, cursor, limit))
    ensures forall e :: e in Page(log, cursor, limit) ==> e.num > cursor
  {
    AboveRising(log, cursor);
  }

  lemma {:induction false} AboveRising(log: seq<Event>, cursor: nat)
    requires Rising(log)
    ensures Rising(Above(log, cursor))
    ensures forall e :: e in Above(log, cursor) ==> e in log && e.num > cursor
  {
    if log != [] {
      AboveRising(log[1..], cursor);
    }
  }

  // ---- the loops ----

  ghost predicate Holds(latest: map<BlockId, (nat, Op)>, page: seq<Event>) {
    forall b :: Recorded(latest, page, b)
  }

  ghost predicate Recorded(latest: map<BlockId, (nat, Op)>, page: seq<Event>, b: BlockId) {
    match LastEvent(page, b)
    case None => b !in latest
    case Some(e) => b in latest && latest[b] == (e.num, e.op)
  }

  /** Overwriting a block's entry with a newer event keeps the dictionary right. */
  lemma RecordNewer(latest: map<BlockId, (nat, Op)>, page: seq<Event>, e: Event)
    requires Holds(latest, page)
    ensures Holds(latest[e.block := (e.num, e.op)], page + [e])
  {
    var latest', page' := latest[e.block := (e.num, e.op)], page + [e];
    assert page'[..|page|] == page;
    forall b ensures Recorded(latest', page', b) {
      assert Recorded(latest, page, b);
    }
  }

  lemma OlderRecorded(latest: map<BlockId, (nat, Op)>, page: seq<Event>, b: BlockId, k: nat)
    requires Holds(latest, page) && forall e :: e in page ==> e.num < k
    ensures b in latest ==> latest[b].0 < k
  {
    assert Recorded(latest, page, b);
    LastEventIn(page, b);
  }

  /** The dictionary of the last event per block, and the highest number decoded. */
  method LatestByBlock(entries: seq<Event>, cursor: nat)
    returns (latest: map<BlockId, (nat, Op)>, order: seq<BlockId>, maxSeq: nat)
    requires Rising(entries) && forall e :: e in entries ==> e.num > cursor
    ensures maxSeq == EndOf(Readable(entries), cursor)
    ensures Holds(latest, Readable(entries))
    ensures forall b :: b in order <==> b in latest
    ensures forall i, j :: 0 <= i < j < |order| ==> order[i] != order[j]
  {
    latest, order, maxSeq := map[], [], cursor;
    for i := 0 to |entries|
      invariant maxSeq == EndOf(Readable(entries[..i]), cursor)
      invariant Holds(latest, Readable(entries[..i]))
      invariant forall b :: b in order <==> b in latest
      invariant forall i, j :: 0 <= i < j < |order| ==> order[i] != order[j]
    {
      var e := entries[i];
      RoundTrip(e);
      ghost var good := Readable(entries[..i]);
      assert entries[..i + 1][..i] == entries[..i];
      assert e in entries;
      EarlierSmaller(entries, i, cursor);
      assert good + [] == good;
      var parsed := Decode(Encode(e));
      if parsed.Some? {
        var (op, block) := parsed.value;
        maxSeq := Max(maxSeq, e.num);
        OlderRecorded(latest, good, block, e.num);
        RecordNewer(latest, good, e);
        if block !in latest {
          order := order + [block];
        }
        if block !in latest || e.num > latest[block].0 {
          latest := latest[block := (e.num, op)];
        }
      }
    }
    assert entries[..|entries|] == entries;
  }

  lemma EarlierSmaller(entries: seq<Event>, i: nat, cursor: nat)
    requires Rising(entries) && i < |entries| && entries[i].num > cursor
    ensures forall e :: e in Readable(entries[..i]) ==> e.num < entries[i].num
    ensures EndOf(Readable(entries[..i]), cursor) < entries[i].num
  {
    ReadableSome(entries[..i]);
    var good := Readable(entries[..i]);
    forall e | e in good ensures e.num < entries[i].num {
      var j :| 0 <= j < i && entries[..i][j] == e;
      assert entries[j] == e;
    }
    assert good != [] ==> good[|good| - 1] in good;
  }

  lemma EmptyDictionary(latest: map<BlockId, (nat, Op)>, page: seq<Event>)
    requires Holds(latest, page)
    ensures latest == map[] <==> page == []
  {
    if page != [] {
      assert Recorded(latest, page, page[|page| - 1].block);
    } else {
      forall b ensures b !in latest {
        assert Recorded(latest, page, b);
      }
    }
  }

  /** The subscribed events of the dictionary, sorted by number. */
  method RelevantEvents(at: Moments, user: UserId, latest: map<BlockId, (nat, Op)>, order: seq<BlockId>,
                        ghost page: seq<Event>)
    returns (relevant: seq<Event>)
    requires Rising(page) && Holds(latest, page)
    requires forall b :: b in order <==> b in latest
    requires forall i, j :: 0 <= i < j < |order| ==> order[i] != order[j]
    ensures relevant == Relevant(Winners(page), MembersSeen(at, user, page))
  {
    relevant := [];
    ghost var members := MembersSeen(at, user, page);
    for i := 0 to |order|
      invariant forall e :: e in relevant <==>
        e.block in order[..i] && e.block in members && LastEvent(page, e.block) == Some(e)
      invariant forall e :: e in relevant ==> e in page
      invariant Rising(relevant)
    {
      var b := order[i];
      assert b in order;
      LastEventIn(page, b);
      if Has(at.member(b).subs, user, b) {
        assert Recorded(latest, page, b);
        OtherNumbers(page, relevant, LastEvent(page, b).value);
        relevant := InsertBySeq(relevant, Event(latest[b].0, latest[b].1, b));
      }
      assert order[..i + 1] == order[..i] + [b];
    }
    assert order[..|order|] == order;
    WinnersAreLast(page);
    RelevantExact(Winners(page), members);
    forall e: Event | LastEvent(page, e.block) == Some(e) ensures e.block in order {
      assert Recorded(latest, page, e.block);
    }
    RisingUnique(relevant, Relevant(Winners(page), members));
  }

  lemma OtherNumbers(page: seq<Event>, events: seq<Event>, e: Event)
    requires Rising(page) && e in page && e !in events
    requires forall x :: x in events ==> x in page
    ensures forall x :: x in events ==> x.num != e.num
  {
  }

  /** Sorted insertion; the numbers differ, so the order is the only one `sort` can give. */
  method InsertBySeq(events: seq<Event>, e: Event) returns (r: seq<Event>)
    requires Rising(events) && forall x :: x in events ==> x.num != e.num
    ensures Rising(r)
    ensures forall x :: x in r <==> x in events || x == e
  {
    var i := |events|;
    while i > 0 && events[i - 1].num > e.num
      invariant 0 <= i <= |events|
      invariant i < |events| ==> events[i].num > e.num
    {
      i := i - 1;
    }
    if i > 0 {
      assert events[i - 1] in events;
    }
    InsertRising(events, i, e);
    r := events[..i] + [e] + events[i..];
  }

  lemma InsertRising(events: seq<Event>, i: nat, e: Event)
    requires Rising(events) && i <= |events|
    requires i > 0 ==> events[i - 1].num < e.num
    requires i < |events| ==> e.num < events[i].num
    ensures Rising(events[..i] + [e] + events[i..])
    ensures forall x :: x in events[..i] + [e] + events[i..] <==> x in events || x == e
  {
    var x, y := events[..i], events[i..];
    RisingConcat(x, [e]);
    RisingConcat(x + [e], y);
    assert events == x + y;
  }

  lemma RisingConcat(x: seq<Event>, y: seq<Event>)
    requires Rising(x) && Rising(y)
    requires x != [] && y != [] ==> x[|x| - 1].num < y[0].num
    ensures Rising(x + y)
  {
    forall i, j | 0 <= i < j < |x + y| ensures (x + y)[i].num < (x + y)[j].num {
      if i < |x| <= j {
        assert x[i].num <= x[|x| - 1].num && y[0].num <= y[j - |x|].num;
      }
    }
  }

  /** First the rows of the upserted blocks, then the deletions. */
  method BuildUpdates(at: Moments, relevant: seq<Event>, ghost page: seq<Event>,
                      ghost members: set<BlockId>) returns (updates: seq<Update>)
    requires forall e :: e in relevant ==> e in page && e.block in members
    ensures updates == RowUpdates(relevant, members, RowsSeen(at, page)) + DeleteUpdates(relevant, members)
  {
    updates := [];
    ghost var seen := RowsSeen(at, page);
    for i := 0 to |relevant|
      invariant updates == RowUpdates(relevant[..i], members, seen)
    {
      var e := relevant[i];
      assert e in relevant && e.block in BlocksOf(page);
      assert relevant[..i + 1][..i] == relevant[..i];
      if e.op == Upsert {
        var rows := at.row(e.block).rows;
        updates := updates + [if e.block in rows then Current(e.block, rows[e.block]) else Deleted(e.block)];
      }
    }
    assert relevant[..|relevant|] == relevant;
    for i := 0 to |relevant|
      invariant updates == RowUpdates(relevant, members, seen) + DeleteUpdates(relevant[..i], members)
    {
      assert relevant[i] in relevant;
      assert relevant[..i + 1][..i] == relevant[..i];
      if relevant[i].op == Delete {
        updates := updates + [Deleted(relevant[i].block)];
      }
    }
  }

  /** `handle_get_updates_v2` up to sending the response. */
  method HandleGetUpdatesV2(at: Moments, user: UserId, cursor: nat, version: nat, limit: int, maxLimit: int)
    returns (r: Response)
    requires Rising(at.page.log)
    ensures r == Answer(at, user, cursor, version, limit, maxLimit)
  {
    var safeLimit := SafeLimit(limit, maxLimit);
    var current := Version(at.version, user);
    if version != current {
      return Response([], at.counter.counter, false, current, Some(VersionMismatch));
    }
    if Members(at.card.subs, user) == {} {
      return Response([], at.counter.counter, false, current, Some(NoSubscriptions));
    }
    if Stale(at.min.log, cursor) {
      return Response([], at.counter.counter, false, current, Some(StaleCursor));
    }
    var entries := Page(at.page.log, cursor, safeLimit);
    if entries == [] {
      return Response([], cursor, false, current, None);
    }
    PageRising(at.page.log, cursor, safeLimit);
    var latest, order, maxSeq := LatestByBlock(entries, cursor);
    EmptyDictionary(latest, Readable(entries));
    if latest == map[] {
      return Response([], maxSeq, false, current, None);
    }
    ghost var page := Readable(entries);
    ghost var members := MembersSeen(at, user, page);
    ReadableSome(entries);
    var relevant := RelevantEvents(at, user, latest, order, page);
    WinnersOnce(page);
    RelevantExact(Winners(page), members);
    RelevantUpdates(Winners(page), members, RowsSeen(at, page));
    var updates := BuildUpdates(at, relevant, page, members);
    r := Response(updates, maxSeq, HasMore(at.count.log, maxSeq), current, None);
  }
}
