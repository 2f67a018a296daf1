/** A page of empty block ids, as the handlers can log it, and what a poll makes of it. */
module StallExample {
  import opened SyncStore
  import opened WriterTasks
  import opened SyncReader
  import opened GetUpdatesV2
  import HandlerRuns
  import Draining

  /** Nothing is trimmed. */
  const CFG := Config(10, 0, 10)
  const B: BlockId := "b"
  const U: UserId := "u"
  const DATA: Row := map["title" := "x"]

  /** The store after the messages have been handled one by one. */
  function Handled(messages: seq<Message>): Store {
    if messages == [] then EMPTY_STORE
    else
      var n := |messages| - 1;
      HandlerRuns.Run(CFG, Handled(messages[..n]), Start(CFG, messages[n]))
  }

  const SUBSCRIBED := EMPTY_STORE.(readers := map[B := {U}], subs := map[U := {B}], versions := map[U := 1])
  const UNNAMED := SUBSCRIBED.(rows := map["" := DATA], counter := 1, log := [Event(1, Upsert, "")])
  const STALLED :=
    UNNAMED.(rows := map["" := DATA, B := DATA], counter := 2, log := UNNAMED.log + [Event(2, Upsert, B)])

  lemma Subscribing()
    ensures HandlerRuns.Run(CFG, EMPTY_STORE, Start(CFG, Subscribe(U, [B]))) == SUBSCRIBED
  {
    var chunks := Chunks([B], 10);
    assert chunks == [[B]];
    HandlerRuns.RunAccess(CFG, EMPTY_STORE, U, false, chunks);
    ChunksFlatten([B], 10);
    assert [B][..0] == [];
    assert GrantAll(EMPTY_STORE, U, [B]) == EMPTY_STORE.(readers := map[B := {U}], subs := map[U := {B}]) by {
      assert Members(EMPTY_STORE.readers, B) + {U} == {U};
      assert Members(EMPTY_STORE.subs, U) + {B} == {B};
    }
    assert Bump(map[], {U}) == map[U := 1];
  }

  /** Updating one block on a log that ends at the counter. */
  lemma Updating(s: Store, b: BlockId)
    requires Contiguous(s.log, s.counter) && b !in s.rows
    ensures HandlerRuns.Run(CFG, s, Start(CFG, UpdateBlock(b, DATA))) ==
      s.(rows := s.rows[b := DATA], counter := s.counter + 1, log := s.log + [Event(s.counter + 1, Upsert, b)])
  {
    var pair := [(b, DATA)];
    assert "title" in DATA;
    HandlerRuns.RunWrite(CFG, s, pair);
    assert KeysOf(pair) == [b];
    Saving(s.rows, b);
    HandlerRuns.AppendedLog(CFG, s.(rows := s.rows[b := DATA]), Upsert, [b]);
    assert EventsFor(s.counter + 1, Upsert, [b]) == [Event(s.counter + 1, Upsert, b)];
  }

  lemma Saving(rows: Rows, b: BlockId)
    requires b !in rows
    ensures SaveAll(rows, [(b, DATA)]) == rows[b := DATA]
  {
    assert [(b, DATA)][..0] == [];
    assert map[] + DATA == DATA;
  }

  lemma HandledStore()
    ensures Handled([Subscribe(U, [B]), UpdateBlock("", DATA), UpdateBlock(B, DATA)]) == STALLED
  {
    var m1: seq<Message> := [Subscribe(U, [B])];
    var m2: seq<Message> := m1 + [UpdateBlock("", DATA)];
    var m3: seq<Message> := m2 + [UpdateBlock(B, DATA)];
    assert m1[..0] == [] && m2[..1] == m1 && m3[..2] == m2;
    Subscribing();
    assert Handled(m1) == SUBSCRIBED;
    Updating(SUBSCRIBED, "");
    assert Handled(m2) == UNNAMED;
    Updating(UNNAMED, B);
    assert m3 == [Subscribe(U, [B]), UpdateBlock("", DATA), UpdateBlock(B, DATA)];
  }

  lemma Pending()
    ensures Above(STALLED.log, 0) == STALLED.log
  {
    AboveIsSuffix(STALLED.log, 2, 0);
  }

  lemma FullPage()
    ensures Page(STALLED.log, 0, 1) == [Event(1, Upsert, "")]
  {
    Pending();
  }

  /**
   * After three messages, one of them with an empty block id, a client with limit one is told that
   * nothing is left, although the row of its only block is logged above its cursor.
   */
  lemma PollStalls()
    ensures Handled([Subscribe(U, [B]), UpdateBlock("", DATA), UpdateBlock(B, DATA)]) == STALLED
    ensures Draining.Stalls(STALLED, U, 0, 1, 1, 10)
    ensures View(STALLED, U) == map[B := DATA] && HasMore(STALLED.log, 0)
  {
    HandledStore();
    Pending();
    FullPage();
    Draining.UnreadablePageStalls(STALLED, U, 0, 1, 10);
  }

  /** And so it goes on, whatever is logged and trimmed, until the client is told to resync. */
  lemma PollKeepsStalling(s: Store, more: seq<Event>, max: int)
    requires Contiguous(STALLED.log + more, 2 + |more|) && s.log == Trim(STALLED.log + more, max)
    ensures Draining.Stalls(s, U, 0, 1, 1, 10) || Answer(Draining.Quiet(s), U, 0, 1, 1, 10).resync.Some?
    ensures Draining.Stalls(s, U, 0, 1, 1, 10) <==>
      Version(s, U) == 1 && Members(s.subs, U) != {} && !Stale(s.log, 0)
  {
    FullPage();
    Draining.FullPageKeepsStalling(STALLED.log, 2, more, max, s, U, 0, 1, 1, 10);
  }

  /** With limit two the later event falls into the page and the cursor moves past both. */
  lemma LargerPageMovesOn()
    ensures Answer(Draining.Quiet(STALLED), U, 0, 1, 2, 10).nextCursor == 2
  {
    Pending();
    var page := Page(STALLED.log, 0, 2);
    assert page == STALLED.log;
    assert page[..1][..0] == [] && page[..2] == page;
    assert Readable(page[..1]) == [];
    assert Readable(page) == [Event(2, Upsert, B)];
  }
}
