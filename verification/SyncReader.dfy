/** The cursor-based reader: which log page it takes, what it answers, what a client does with it. */
module SyncReader {
  import opened SyncStore

  /** An entry of `updates`: the current row of a block, or a deletion marker. */
  datatype Update = Current(block: BlockId, row: Row) | Deleted(block: BlockId)

  datatype Reason = VersionMismatch | NoSubscriptions | StaleCursor

  datatype Response = Response(
    updates: seq<Update>,
    nextCursor: nat,
    hasMore: bool,
    subscriptionVersion: nat,
    resync: Option<Reason>)

  // ---- ZRANGEBYSCORE (cursor +inf LIMIT 0 limit ----

  function Above(log: seq<Event>, cursor: nat): seq<Event> {
    if log == [] then []
    else (if log[0].num > cursor then [log[0]] else []) + Above(log[1..], cursor)
  }

  function Take<T>(xs: seq<T>, n: nat): seq<T> {
    if |xs| <= n then xs else xs[..n]
  }

  function Page(log: seq<Event>, cursor: nat, limit: nat): seq<Event> {
    Take(Above(log, cursor), limit)
  }

  function SafeLimit(limit: int, maxLimit: int): (r: nat)
    ensures 1 <= limit <= maxLimit ==> r == limit
    ensures 1 <= maxLimit < limit ==> r == maxLimit
    ensures limit < 1 || maxLimit < 1 ==> r == 1
  {
    var capped := if limit < maxLimit then limit else maxLimit;
    if capped > 1 then capped else 1
  }

  /** `cursor < min_seq - 1` for the lowest retained number. */
  predicate Stale(log: seq<Event>, cursor: nat) {
    log != [] && cursor < log[0].num - 1
  }

  function EndOf(page: seq<Event>, cursor: nat): nat {
    if page == [] then cursor else page[|page| - 1].num
  }

  predicate HasMore(log: seq<Event>, cursor: nat) {
    Above(log, cursor) != []
  }

  // ---- the answer to a page ----

  /** The events of the page that are the last one of their block, in page order. */
  function Winners(page: seq<Event>): seq<Event> {
    if page == [] then []
    else (if LastOp(page[1..], page[0].block).Some? then [] else [page[0]]) + Winners(page[1..])
  }

  function RowUpdate(b: BlockId, seen: Rows): Update {
    if b in seen then Current(b, seen[b]) else Deleted(b)
  }

  /** Upserts of subscribed blocks: the row found now, or a deletion when there is none. */
  function RowUpdates(events: seq<Event>, members: set<BlockId>, seen: Rows): seq<Update> {
    if events == [] then []
    else
      var n := |events| - 1;
      RowUpdates(events[..n], members, seen) +
      if events[n].op == Upsert && events[n].block in members then [RowUpdate(events[n].block, seen)] else []
  }

  function DeleteUpdates(events: seq<Event>, members: set<BlockId>): seq<Update> {
    if events == [] then []
    else
      var n := |events| - 1;
      DeleteUpdates(events[..n], members) +
      if events[n].op == Delete && events[n].block in members then [Deleted(events[n].block)] else []
  }

  function Updates(page: seq<Event>, members: set<BlockId>, seen: Rows): seq<Update> {
    RowUpdates(Winners(page), members, seen) + DeleteUpdates(Winners(page), members)
  }

  /** Only the memberships of the blocks and the rows of the subscribed upserted ones matter. */
  lemma {:induction false} SameNeeded(events: seq<Event>, members: set<BlockId>, seen: Rows, members': set<BlockId>,
                                      seen': Rows)
    requires forall e :: e in events ==> (e.block in members <==> e.block in members')
    requires forall e :: e in events && e.op == Upsert && e.block in members ==>
      Lookup(seen, e.block) == Lookup(seen', e.block)
    ensures RowUpdates(events, members, seen) == RowUpdates(events, members', seen')
    ensures DeleteUpdates(events, members) == DeleteUpdates(events, members')
  {
    if events != [] {
      var n := |events| - 1;
      assert events[n] in events;
      SameNeeded(events[..n], members, seen, members', seen');
    }
  }

  // ---- the client side ----

  function ApplyOne(replica: Rows, u: Update): Rows {
    match u
    case Current(b, row) => replica[b := row]
    case Deleted(b) => replica - {b}
  }

  /** The client applies the entries of an answer in order. */
  function Apply(replica: Rows, updates: seq<Update>): Rows {
    if updates == [] then replica
    else
      var n := |updates| - 1;
      ApplyOne(Apply(replica, updates[..n]), updates[n])
  }

  /** What an answer makes of block `b`: its last word on it, if it says anything. */
  function LastUpdate(updates: seq<Update>, b: BlockId): Option<Update> {
    if updates == [] then None
    else
      var n := |updates| - 1;
      if updates[n].block == b then Some(updates[n]) else LastUpdate(updates[..n], b)
  }

  function Effect(u: Update): Option<Row> {
    match u case Current(_, row) => Some(row) case Deleted(_) => None
  }

  lemma {:induction false} ApplyAt(replica: Rows, updates: seq<Update>, b: BlockId)
    ensures Lookup(Apply(replica, updates), b) ==
      match LastUpdate(updates, b) case Some(u) => Effect(u) case None => Lookup(replica, b)
  {
    if updates != [] {
      ApplyAt(replica, updates[..|updates| - 1], b);
    }
  }

  lemma {:induction false} LastUpdateConcat(x: seq<Update>, y: seq<Update>, b: BlockId)
    ensures LastUpdate(x + y, b) == if LastUpdate(y, b).Some? then LastUpdate(y, b) else LastUpdate(x, b)
  {
    if y == [] {
      assert x + y == x;
    } else {
      var n := |y| - 1;
      assert (x + y)[..|x + y| - 1] == x + y[..n];
      LastUpdateConcat(x, y[..n], b);
    }
  }

  /** No block occurs twice. */
  ghost predicate OncePerBlock(events: seq<Event>) {
    forall i, j :: 0 <= i < j < |events| ==> events[i].block != events[j].block
  }

  lemma {:induction false} WinnersOnce(page: seq<Event>)
    ensures OncePerBlock(Winners(page))
    ensures forall b :: LastOp(Winners(page), b) == LastOp(page, b)
    ensures forall e :: e in Winners(page) ==> e in page
  {
    if page != [] {
      var rest := Winners(page[1..]);
      WinnersOnce(page[1..]);
      var head := if LastOp(page[1..], page[0].block).Some? then [] else [page[0]];
      forall b ensures LastOp(head + rest, b) == LastOp(page, b) {
        assert page == [page[0]] + page[1..];
        LastOpConcat([page[0]], page[1..], b);
        LastOpConcat(head, rest, b);
        assert [page[0]][..0] == [];
      }
      if head != [] {
        LastOpNone(rest, page[0].block);
      }
    }
  }

  lemma {:induction false} UpdatesOfOnce(events: seq<Event>, members: set<BlockId>, seen: Rows, b: BlockId)
    requires OncePerBlock(events)
    ensures LastUpdate(RowUpdates(events, members, seen), b) ==
      if LastOp(events, b) == Some(Upsert) && b in members then Some(RowUpdate(b, seen)) else None
    ensures LastUpdate(DeleteUpdates(events, members), b) ==
      if LastOp(events, b) == Some(Delete) && b in members then Some(Deleted(b)) else None
  {
    if events != [] {
      var n := |events| - 1;
      UpdatesOfOnce(events[..n], members, seen, b);
      LastOpNone(events[..n], events[n].block);
      var r := if events[n].op == Upsert && events[n].block in members then [RowUpdate(events[n].block, seen)] else [];
      var d := if events[n].op == Delete && events[n].block in members then [Deleted(events[n].block)] else [];
      LastUpdateConcat(RowUpdates(events[..n], members, seen), r, b);
      LastUpdateConcat(DeleteUpdates(events[..n], members), d, b);
    }
  }

  /** What an answered page means for one block: the last operation on it decides. */
  function Outcome(page: seq<Event>, members: set<BlockId>, seen: Rows, b: BlockId, prior: Option<Row>): Option<Row> {
    match LastOp(page, b)
    case None => prior
    case Some(op) =>
      if b !in members then prior
      else if op == Upsert then Lookup(seen, b)
      else None
  }

  /** What an answered page says of a block. */
  lemma UpdatesTell(page: seq<Event>, members: set<BlockId>, seen: Rows, b: BlockId)
    ensures LastUpdate(Updates(page, members, seen), b) ==
      if LastOp(page, b).None? || b !in members then None
      else if LastOp(page, b) == Some(Upsert) && b in seen then Some(Current(b, seen[b]))
      else Some(Deleted(b))
  {
    WinnersOnce(page);
    ListsTell(Winners(page), members, seen, b);
  }

  lemma ListsTell(events: seq<Event>, members: set<BlockId>, seen: Rows, b: BlockId)
    requires OncePerBlock(events)
    ensures LastUpdate(RowUpdates(events, members, seen) + DeleteUpdates(events, members), b) ==
      if LastOp(events, b).None? || b !in members then None
      else if LastOp(events, b) == Some(Upsert) && b in seen then Some(Current(b, seen[b]))
      else Some(Deleted(b))
  {
    UpdatesOfOnce(events, members, seen, b);
    LastUpdateConcat(RowUpdates(events, members, seen), DeleteUpdates(events, members), b);
    if b in members {
      match LastOp(events, b)
      case None =>
      case Some(op) => assert op == Upsert || op == Delete;
    }
  }

  /** Applying the answer, upserts before deletions, gives every block its last outcome. */
  lemma AppliedOutcome(replica: Rows, page: seq<Event>, members: set<BlockId>, seen: Rows, b: BlockId)
    ensures Lookup(Apply(replica, Updates(page, members, seen)), b) ==
      Outcome(page, members, seen, b, Lookup(replica, b))
  {
    UpdatesTell(page, members, seen, b);
    ApplyAt(replica, Updates(page, members, seen), b);
  }

  // ---- pages of a contiguous log ----

  /** How many retained events are at or below the cursor. */
  function Passed(log: seq<Event>, last: nat, cursor: nat): nat
    requires |log| <= last
  {
    if cursor <= last - |log| then 0 else if cursor >= last then |log| else cursor - (last - |log|)
  }

  /** In a run of consecutive numbers the events above the cursor are a suffix. */
  lemma {:induction false} AboveIsSuffix(log: seq<Event>, last: nat, cursor: nat)
    requires Contiguous(log, last)
    ensures Above(log, cursor) == log[Passed(log, last, cursor)..]
  {
    if log != [] {
      var rest := log[1..];
      assert Contiguous(rest, last) by {
        assert forall i {:trigger rest[i]} :: 0 <= i < |rest| ==> rest[i] == log[i + 1];
      }
      AboveIsSuffix(rest, last, cursor);
      var k := Passed(rest, last, cursor);
      if log[0].num > cursor {
        assert k == 0 && [log[0]] + rest == log;
      } else {
        assert Passed(log, last, cursor) == k + 1 && rest[k..] == log[k + 1..];
      }
    }
  }

  /** A page is a slice of the log: what is above the cursor and not in it comes after it. */
  lemma PageSlice(log: seq<Event>, last: nat, cursor: nat, limit: nat) returns (skip: nat, end: nat)
    requires Contiguous(log, last)
    ensures skip <= end <= |log|
    ensures Page(log, cursor, limit) == log[skip..end]
    ensures forall i :: 0 <= i < skip ==> log[i].num <= cursor
    ensures forall i :: end <= i < |log| ==> log[i].num > EndOf(Page(log, cursor, limit), cursor)
  {
    AboveIsSuffix(log, last, cursor);
    skip := Passed(log, last, cursor);
    end := if |log| - skip <= limit then |log| else skip + limit;
    if skip < end {
      assert log[skip..end][end - skip - 1] == log[end - 1];
    }
  }

  /** Every event of a page is a retained one above the cursor, stale or not. */
  lemma PageBounds(log: seq<Event>, last: nat, cursor: nat, limit: nat)
    requires Contiguous(log, last) && limit >= 1
    ensures var page := Page(log, cursor, limit);
      && (forall i {:trigger page[i]} :: 0 <= i < |page| ==> page[i] in log && page[i].num > cursor)
      && cursor <= EndOf(page, cursor)
      && (page != [] ==> cursor < EndOf(page, cursor) <= last)
      && (page == [] <==> Above(log, cursor) == [])
  {
    AboveIsSuffix(log, last, cursor);
  }

  /** A page read with a cursor that is not stale holds exactly the next numbers after it. */
  lemma PageNumbers(log: seq<Event>, last: nat, cursor: nat, limit: nat)
    requires Contiguous(log, last) && !Stale(log, cursor) && limit >= 1
    ensures var page := Page(log, cursor, limit);
      && (forall i {:trigger page[i]} :: 0 <= i < |page| ==> page[i].num == cursor + 1 + i)
      && (forall i {:trigger page[i]} :: 0 <= i < |page| ==> page[i] in log)
      && EndOf(page, cursor) == cursor + |page|
      && (page == [] <==> log == [] || cursor >= last)
      && (forall e :: e in log && e.num > cursor && e !in page ==> e.num > EndOf(page, cursor))
  {
    AboveIsSuffix(log, last, cursor);
  }
}
