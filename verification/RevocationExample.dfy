/** A concrete run in which a client is shown a row written after its access was revoked. */
module RevocationExample {
  import opened SyncStore
  import opened WriterTasks
  import opened SyncReader
  import opened SyncWorld
  import opened RaceExample

  const NEWS: Row := map["title" := "y"]
  const FIRST := Event(1, Upsert, A)
  const SHARED := SUBSCRIBED.(rows := map[A := DATA], counter := 1, log := [FIRST])
  const REVOKED := SHARED.(readers := map[A := {}, B := {U}], subs := map[U := {B}], versions := map[U := 2])
  const REWRITTEN := REVOKED.(rows := map[A := NEWS], counter := 2, log := [Event(2, Upsert, A)])

  lemma SaveJust(rows: Rows, b: BlockId, row: Row)
    ensures SaveAll(rows, [(b, row)]) == HSet(rows, b, row) && KeysOf([(b, row)]) == [b]
  {
    SaveOne(rows, [], b, row);
    assert [] + [(b, row)] == [(b, row)];
  }

  lemma LogJust(log: seq<Event>, last: nat, b: BlockId)
    requires Contiguous(log, last)
    ensures ZAddAll(log, last + 1, Upsert, [b]) == log + [Event(last + 1, Upsert, b)]
  {
    ZAddAllAppends(log, last + 1, Upsert, [b]);
    assert EventsFor(last + 1, Upsert, [b]) == [Event(last + 1, Upsert, b)];
  }

  /** A handler writes one row. */
  lemma Stores(run: seq<Action>, s: Store, c: Client, b: BlockId, row: Row) returns (run': seq<Action>)
    requires At(run, s, Idle, c) && b != "" && row != map[]
    ensures At(run', s.(rows := HSet(s.rows, b, row)), Numbering(Upsert, [b], {}, []), c)
  {
    run' := Begins(run, s, c, UpdateBlock(b, row));
    SaveJust(s.rows, b, row);
    run' := Works(run', s, Writing([(b, row)]), c);
  }

  lemma LogStep(s: Store, b: BlockId)
    requires Contiguous(s.log, s.counter)
    ensures var log := Trim(s.log + [Event(s.counter + 1, Upsert, b)], 1);
      Step(TINY, s.(counter := s.counter + 1), Logging(s.counter + 1, Upsert, [b], {}, [])) ==
      (s.(counter := s.counter + 1, log := log), Idle)
  {
    LogJust(s.log, s.counter, b);
  }

  /** It logs the event for it. */
  lemma Logs(run: seq<Action>, s: Store, c: Client, b: BlockId) returns (run': seq<Action>)
    requires At(run, s, Numbering(Upsert, [b], {}, []), c) && Contiguous(s.log, s.counter)
    ensures At(run', s.(counter := s.counter + 1, log := Trim(s.log + [Event(s.counter + 1, Upsert, b)], 1)), Idle, c)
  {
    run' := Works(run, s, Numbering(Upsert, [b], {}, []), c);
    LogStep(s, b);
    run' := Works(run', s.(counter := s.counter + 1), Logging(s.counter + 1, Upsert, [b], {}, []), c);
  }

  /** A handler writes one block from start to end. */
  lemma Writes(run: seq<Action>, s: Store, c: Client, b: BlockId, row: Row) returns (run': seq<Action>)
    requires At(run, s, Idle, c) && b != "" && row != map[] && Contiguous(s.log, s.counter)
    ensures var log := Trim(s.log + [Event(s.counter + 1, Upsert, b)], 1);
      At(run', s.(rows := HSet(s.rows, b, row), counter := s.counter + 1, log := log), Idle, c)
  {
    run' := Stores(run, s, c, b, row);
    run' := Logs(run', s.(rows := HSet(s.rows, b, row)), c, b);
  }

  /** The client's poll, with what it has read of its page. */
  function Reading(members: set<BlockId>, fetched: set<BlockId>, seen: Rows): Client {
    Client(U, map[], 0, 1, false, Answering([FIRST], members, members, fetched, seen))
  }

  /** A subscribed client is told nothing yet when block `A` is written. */
  lemma Sharing() returns (run: seq<Action>)
    ensures At(run, SHARED, Idle, Client(U, map[], 0, 1, false, Ready))
  {
    run := Reloading();
    assert "title" in DATA && map[] + DATA == DATA;
    run := Writes(run, SUBSCRIBED, Client(U, map[], 0, 1, false, Ready), A, DATA);
    assert [] + [FIRST] == [FIRST];
  }

  /** It polls, up to its page and the membership of the block on it. */
  lemma FindingSubscribed() returns (run: seq<Action>)
    ensures At(run, SHARED, Idle, Reading({A}, {}, map[]))
  {
    var c := Client(U, map[], 0, 1, false, Ready);
    run := Sharing();
    run := Asks(run, SHARED, Idle, c, 5);
    run := Reads(run, SHARED, Idle, c.(phase := AtVersion(5)));
    assert A in Members(SHARED.subs, U);
    run := Reads(run, SHARED, Idle, c.(phase := AtCard(5)));
    run := Reads(run, SHARED, Idle, c.(phase := AtMin(5)));
    PageOfOne(FIRST, DATA);
    run := Reads(run, SHARED, Idle, c.(phase := AtPage(5)));
    assert {} + {A} == {A};
    run := ReadsMember(run, SHARED, Idle, Reading({}, {}, map[]), A);
  }

  lemma RevokeJust(s: Store, u: UserId, b: BlockId)
    ensures RevokeAll(s, u, [b]) == s.(readers := SRem(s.readers, b, {u}), subs := SRem(s.subs, u, {b}))
  {
    assert [b][..0] == [];
  }

  lemma RevokeA()
    ensures SetAccess(SHARED, U, true, [A]) == REVOKED.(versions := SHARED.versions)
  {
    RevokeJust(SHARED, U, A);
    var t := RevokeAll(SHARED, U, [A]);
    assert "a"[0] != "b"[0];
    assert Members(SHARED.readers, A) - {U} == {} && Members(SHARED.subs, U) - {A} == {B};
    assert t.readers == map[A := {}, B := {U}] && t.subs == map[U := {B}];
  }

  /** Now the access is revoked and the version goes up. */
  lemma Revoking() returns (run: seq<Action>)
    ensures At(run, REVOKED, Idle, Reading({A}, {}, map[]))
  {
    var c := Reading({A}, {}, map[]);
    run := FindingSubscribed();
    run := Begins(run, SHARED, c, UpdateAccess(U, true, [A], []));
    assert [A] + [] == [A] && Chunks([A], 10) == [[A]] && [[A]][1..] == [];
    RevokeA();
    run := Works(run, SHARED, Access(U, true, [[A]]), c);
    run := Works(run, REVOKED.(versions := SHARED.versions), Bumping({U}, []), c);
    assert Bump(SHARED.versions, {U}) == map[U := 2];
  }

  /** After that the block is written again. */
  lemma Rewriting() returns (run: seq<Action>)
    ensures At(run, REWRITTEN, Idle, Reading({A}, {}, map[]))
  {
    run := Revoking();
    assert "title" in NEWS && DATA + NEWS == NEWS;
    run := Writes(run, REVOKED, Reading({A}, {}, map[]), A, NEWS);
    assert HSet(REVOKED.rows, A, NEWS) == map[A := NEWS];
    assert Trim([FIRST] + [Event(2, Upsert, A)], 1) == [Event(2, Upsert, A)];
  }

  /**
   * The poll goes on to read the row as it is now and delivers it, although the user lost access to
   * the block before it was written. The version it carries is out of date, so the next poll resyncs.
   */
  lemma RevokedRowIsShown() returns (run: seq<Action>)
    ensures At(run, REWRITTEN, Idle, Client(U, map[], 0, 1, false, Updated([Current(A, NEWS)], 1, true)))
    ensures !Has(REVOKED.subs, U, A) && !Has(REWRITTEN.subs, U, A) && REVOKED.rows[A] != NEWS
    ensures Version(REWRITTEN, U) == 2
  {
    run := Rewriting();
    PageOfOne(FIRST, NEWS);
    assert {} + {A} == {A};
    run := ReadsRow(run, REWRITTEN, Idle, Reading({A}, {}, map[]), A);
    LaterEvent();
    run := Reads(run, REWRITTEN, Idle, Reading({A}, {A}, map[A := NEWS]));
    RevokedFacts();
  }

  lemma LaterEvent()
    ensures HasMore(REWRITTEN.log, 1)
  {
    AboveIsSuffix(REWRITTEN.log, 2, 1);
  }

  lemma RevokedFacts()
    ensures !Has(REVOKED.subs, U, A) && !Has(REWRITTEN.subs, U, A) && REVOKED.rows[A] != NEWS
  {
    assert "a"[0] != "b"[0] && "x"[0] != "y"[0];
    assert DATA["title"] != NEWS["title"];
  }
}
