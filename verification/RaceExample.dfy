/** Two concrete runs: the one unsafe moment of a poll, and a newcomer who is not told to resync. */
module RaceExample {
  import opened SyncStore
  import opened WriterTasks
  import opened SyncReader
  import opened SyncWorld

  /** A retention bound of one event. */
  const TINY := Config(10, 1, 10)
  const A: BlockId := "a"
  const B: BlockId := "b"
  const U: UserId := "u"
  const DATA: Row := map["title" := "x"]

  const GRANTED := Store(map[], map[A := {U}, B := {U}], map[U := {A, B}], 0, [], map[])
  const SUBSCRIBED := GRANTED.(versions := map[U := 1])
  const STORED := SUBSCRIBED.(rows := map[A := DATA, B := DATA])
  const TRIMMED := STORED.(counter := 2, log := [LAST])
  const LAST := Event(2, Upsert, B)

  // ---- single moves of a world with one client ----

  /** The run has led to this store, this task and this one client. */
  ghost predicate At(run: seq<Action>, s: Store, t: Task, c: Client) {
    var w := After(TINY, run);
    w.store == s && w.task == t && w.clients == map[0 := c]
  }

  lemma Extend(run: seq<Action>, a: Action) returns (run': seq<Action>)
    ensures run' == run + [a] && After(TINY, run') == Next(TINY, After(TINY, run), a)
  {
    run' := run + [a];
    assert run'[..|run'| - 1] == run;
  }

  lemma Asks(run: seq<Action>, s: Store, t: Task, c: Client, limit: int) returns (run': seq<Action>)
    requires At(run, s, t, c) && c.phase == Ready
    ensures At(run', s, t, c.(phase := AtVersion(limit)))
  {
    run' := Extend(run, Ask(0, limit));
  }

  lemma Reads(run: seq<Action>, s: Store, t: Task, c: Client) returns (run': seq<Action>)
    requires At(run, s, t, c)
    ensures At(run', s, t, ReadStep(TINY, s, c))
  {
    run' := Extend(run, Read(0));
  }

  lemma ReadsMember(run: seq<Action>, s: Store, t: Task, c: Client, b: BlockId) returns (run': seq<Action>)
    requires At(run, s, t, c)
    ensures At(run', s, t, MemberStep(s, c, b))
  {
    run' := Extend(run, ReadMember(0, b));
  }

  lemma ReadsRow(run: seq<Action>, s: Store, t: Task, c: Client, b: BlockId) returns (run': seq<Action>)
    requires At(run, s, t, c)
    ensures At(run', s, t, RowStep(s, c, b))
  {
    run' := Extend(run, ReadRow(0, b));
  }

  lemma Receives(run: seq<Action>, s: Store, t: Task, c: Client) returns (run': seq<Action>)
    requires At(run, s, t, c)
    ensures At(run', s, t, ReceiveStep(s, c))
  {
    run' := Extend(run, Receive(0));
  }

  lemma Loads(run: seq<Action>, s: Store, t: Task, c: Client, b: BlockId) returns (run': seq<Action>)
    requires At(run, s, t, c)
    ensures At(run', s, t, LoadStep(s, c, b))
  {
    run' := Extend(run, LoadRow(0, b));
  }

  lemma Begins(run: seq<Action>, s: Store, c: Client, m: Message) returns (run': seq<Action>)
    requires At(run, s, Idle, c) && ValidMessage(m)
    ensures At(run', s, Start(TINY, m), c)
  {
    run' := Extend(run, Begin(m));
  }

  lemma Works(run: seq<Action>, s: Store, t: Task, c: Client) returns (run': seq<Action>)
    requires At(run, s, t, c)
    ensures At(run', Step(TINY, s, t).0, Step(TINY, s, t).1, c)
  {
    run' := Extend(run, Work);
  }

  // ---- a grant whose version bump is still to come ----

  lemma GrantOne(s: Store, u: UserId, blocks: seq<BlockId>, b: BlockId)
    ensures var t := GrantAll(s, u, blocks);
      GrantAll(s, u, blocks + [b]) == t.(readers := SAdd(t.readers, b, u), subs := SAdd(t.subs, u, b))
  {
    assert (blocks + [b])[..|blocks|] == blocks;
  }

  lemma GrantBoth()
    ensures SetAccess(EMPTY_STORE, U, false, [A, B]) == GRANTED
  {
    GrantOne(EMPTY_STORE, U, [], A);
    GrantOne(EMPTY_STORE, U, [A], B);
    assert [] + [A] == [A] && [A] + [B] == [A, B];
    var one := GrantAll(EMPTY_STORE, U, [A]);
    assert Members(EMPTY_STORE.readers, A) + {U} == {U};
    assert Members(EMPTY_STORE.subs, U) + {A} == {A};
    assert one.readers == map[A := {U}] && one.subs == map[U := {A}];
    assert Members(one.readers, B) + {U} == {U};
    assert Members(one.subs, U) + {B} == {A, B};
  }

  /** A client joins; then a user is granted two blocks that have no rows yet. */
  lemma Granting(replica: Rows) returns (run: seq<Action>)
    ensures At(run, GRANTED, Bumping({U}, []), Newcomer(U, replica))
  {
    run := Extend([], Join(0, U, replica));
    run := Begins(run, EMPTY_STORE, Newcomer(U, replica), Subscribe(U, [A, B]));
    assert Chunks([A, B], 10) == [[A, B]];
    assert [[A, B]][1..] == [];
    GrantBoth();
    run := Works(run, EMPTY_STORE, Access(U, false, [[A, B]]), Newcomer(U, replica));
  }

  /**
   * A newcomer who polls at this moment is told that nothing is left and not that it must resync,
   * although it holds a row that the server does not have.
   */
  lemma NewcomerLetThrough() returns (run: seq<Action>)
    ensures At(run, GRANTED, Bumping({U}, []), Client(U, map[B := DATA], 0, 0, false, Updated([], 0, false)))
    ensures Apply(map[B := DATA], []) != View(GRANTED, U)
  {
    var c := Newcomer(U, map[B := DATA]);
    run := Granting(map[B := DATA]);
    run := Asks(run, GRANTED, Bumping({U}, []), c, 5);
    run := Reads(run, GRANTED, Bumping({U}, []), c.(phase := AtVersion(5)));
    assert A in Members(GRANTED.subs, U);
    run := Reads(run, GRANTED, Bumping({U}, []), c.(phase := AtCard(5)));
    run := Reads(run, GRANTED, Bumping({U}, []), c.(phase := AtMin(5)));
    run := Reads(run, GRANTED, Bumping({U}, []), c.(phase := AtPage(5)));
    assert B !in View(GRANTED, U);
  }

  // ---- a log trimmed between the minimum check and the page read ----

  /** The version goes up, the client polls and is told to resync. */
  lemma Refusing() returns (run: seq<Action>)
    ensures At(run, SUBSCRIBED, Idle, Newcomer(U, map[]).(phase := Resync(0, 1)))
  {
    var c := Newcomer(U, map[]);
    run := Granting(map[]);
    assert Bump(map[], {U}) == map[U := 1];
    run := Works(run, GRANTED, Bumping({U}, []), c);
    run := Asks(run, SUBSCRIBED, Idle, c, 5);
    run := Reads(run, SUBSCRIBED, Idle, c.(phase := AtVersion(5)));
    run := Reads(run, SUBSCRIBED, Idle, c.(phase := AtCounter(1)));
  }

  /** It loads its snapshot, which has no rows, and adopts it. */
  lemma Reloading() returns (run: seq<Action>)
    ensures At(run, SUBSCRIBED, Idle, Client(U, map[], 0, 1, false, Ready))
  {
    var c := Newcomer(U, map[]);
    run := Refusing();
    run := Receives(run, SUBSCRIBED, Idle, c.(phase := Resync(0, 1)));
    run := Loads(run, SUBSCRIBED, Idle, c.(phase := Loading(0, 1, {A, B}, map[])), A);
    assert {A, B} - {A} == {B} && {B} - {B} == {};
    run := Loads(run, SUBSCRIBED, Idle, c.(phase := Loading(0, 1, {B}, map[])), B);
    run := Receives(run, SUBSCRIBED, Idle, c.(phase := Loading(0, 1, {}, map[])));
  }

  /** It polls, up to and including the minimum check. */
  lemma Polling() returns (run: seq<Action>)
    ensures At(run, SUBSCRIBED, Idle, Client(U, map[], 0, 1, false, AtPage(5)))
  {
    var c := Client(U, map[], 0, 1, false, Ready);
    run := Reloading();
    run := Asks(run, SUBSCRIBED, Idle, c, 5);
    run := Reads(run, SUBSCRIBED, Idle, c.(phase := AtVersion(5)));
    assert A in Members(SUBSCRIBED.subs, U);
    run := Reads(run, SUBSCRIBED, Idle, c.(phase := AtCard(5)));
    run := Reads(run, SUBSCRIBED, Idle, c.(phase := AtMin(5)));
  }

  lemma SaveOne(rows: Rows, data: seq<(BlockId, Row)>, b: BlockId, row: Row)
    ensures SaveAll(rows, data + [(b, row)]) == HSet(SaveAll(rows, data), b, row)
  {
    assert (data + [(b, row)])[..|data|] == data;
  }

  lemma SaveBoth(a: BlockId, b: BlockId, row: Row)
    requires a != b
    ensures SaveAll(map[], [(a, row), (b, row)]) == map[a := row, b := row]
  {
    SaveOne(map[], [], a, row);
    SaveOne(map[], [(a, row)], b, row);
    assert [] + [(a, row)] == [(a, row)] && [(a, row)] + [(b, row)] == [(a, row), (b, row)];
    assert map[] + row == row;
    assert SaveAll(map[], [(a, row)]) == map[a := row];
  }

  lemma LogBoth(a: BlockId, b: BlockId)
    ensures Trim(ZAddAll([], 1, Upsert, [a, b]), 1) == [Event(2, Upsert, b)]
  {
    ZAddAllAppends([], 1, Upsert, [a, b]);
    assert EventsFor(1, Upsert, [a, b]) == [Event(1, Upsert, a), Event(2, Upsert, b)];
  }

  /** After the check, a handler writes the rows of both blocks. */
  lemma RowsWritten() returns (run: seq<Action>)
    ensures At(run, STORED, Numbering(Upsert, [A, B], {}, []), Client(U, map[], 0, 1, false, AtPage(5)))
  {
    var c := Client(U, map[], 0, 1, false, AtPage(5));
    var data := [(A, DATA), (B, DATA)];
    run := Polling();
    assert KeysOf(data) == [A, B];
    assert "title" in DATA;
    run := Begins(run, SUBSCRIBED, c, UpdateBlocks(data));
    SaveBoth(A, B, DATA);
    run := Works(run, SUBSCRIBED, Writing(data), c);
  }

  /** Logging the two events trims the first of them. */
  lemma Trimming() returns (run: seq<Action>)
    ensures At(run, TRIMMED, Idle, Client(U, map[], 0, 1, false, AtPage(5)))
  {
    var c := Client(U, map[], 0, 1, false, AtPage(5));
    run := RowsWritten();
    run := Works(run, STORED, Numbering(Upsert, [A, B], {}, []), c);
    LogBoth(A, B);
    run := Works(run, STORED.(counter := 2), Logging(1, Upsert, [A, B], {}, []), c);
  }

  /** A page of one upsert answers one row. */
  lemma PageOfOne(e: Event, row: Row)
    requires e.num > 0 && e.op == Upsert
    ensures Page([e], 0, 5) == [e]
    ensures Updates([e], {e.block}, map[e.block := row]) == [Current(e.block, row)]
    ensures LastOp([e], e.block) == Some(Upsert)
    ensures !HasMore([e], e.num)
  {
    var page, seen := [e], map[e.block := row];
    assert page[1..] == [] && page[..0] == [];
    assert Above(page, 0) == [e] + Above([], 0);
    assert Winners(page) == [e] + Winners([]);
    assert Above(page, e.num) == [] + Above([], e.num);
    assert RowUpdates(page, {e.block}, seen) == RowUpdates([], {e.block}, seen) + [RowUpdate(e.block, seen)];
    assert DeleteUpdates(page, {e.block}) == DeleteUpdates([], {e.block}) + [];
  }

  /** The client whose page was read too late, with what its poll has read so far. */
  function Late(asked: set<BlockId>, fetched: set<BlockId>, seen: Rows): Client {
    Client(U, map[], 0, 1, true, Answering([LAST], asked, asked, fetched, seen))
  }

  /** The poll reads its page: the one event that is left. */
  lemma ReadingLate() returns (run: seq<Action>)
    ensures At(run, TRIMMED, Idle, Late({}, {}, map[]))
  {
    run := Trimming();
    PageOfOne(LAST, DATA);
    run := Reads(run, TRIMMED, Idle, Client(U, map[], 0, 1, false, AtPage(5)));
  }

  /** It reads the membership of that event's block. */
  lemma AskingMember() returns (run: seq<Action>)
    ensures At(run, TRIMMED, Idle, Late({B}, {}, map[]))
  {
    run := ReadingLate();
    PageOfOne(LAST, DATA);
    assert {} + {B} == {B};
    run := ReadsMember(run, TRIMMED, Idle, Late({}, {}, map[]), B);
  }

  /** It reads the row of that block. */
  lemma Gathering() returns (run: seq<Action>)
    ensures At(run, TRIMMED, Idle, Late({B}, {B}, map[B := DATA]))
  {
    run := AskingMember();
    PageOfOne(LAST, DATA);
    assert {} + {B} == {B};
    run := ReadsRow(run, TRIMMED, Idle, Late({B}, {}, map[]), B);
  }

  /**
   * The poll then delivers the retained event only, says that nothing is left, and leaves the client
   * without block `A` although its version is current and no handler is at work.
   */
  lemma LatePageLosesAnUpdate() returns (run: seq<Action>)
    ensures At(run, TRIMMED, Idle, Client(U, map[], 0, 1, true, Updated([Current(B, DATA)], 2, false)))
    ensures Version(TRIMMED, U) == 1
    ensures Apply(map[], [Current(B, DATA)]) != View(TRIMMED, U)
  {
    run := Gathering();
    PageOfOne(LAST, DATA);
    run := Reads(run, TRIMMED, Idle, Late({B}, {B}, map[B := DATA]));
    MissingA();
  }

  lemma MissingA()
    ensures Apply(map[], [Current(B, DATA)]) != View(TRIMMED, U)
  {
    assert [Current(B, DATA)][..0] == [];
    assert Apply(map[], [Current(B, DATA)]) == map[B := DATA];
    assert A in View(TRIMMED, U);
  }
}
