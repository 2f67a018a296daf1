/** What a handler does from start to end, and that the chunk size does not matter to it. */
module HandlerRuns {
  import opened SyncStore
  import opened WriterTasks

  /** Round trips still to come, at most. */
  function Cost(t: Task): nat {
    match t
    case Idle => 0
    case Writing(_) => 4
    case Numbering(_, _, _, rest) => 3 + 6 * |rest|
    case Logging(_, _, _, _, rest) => 2 + 6 * |rest|
    case Bumping(_, rest) => 1 + 6 * |rest|
    case Access(_, _, chunks) => 2 + |chunks|
    case Collecting(chunks) => if chunks == [] then 1 else 6 * |chunks| - 1
    case Removing(_, _, rest) => 4 + 6 * |rest|
  }

  /** The store after the handler has made all its remaining round trips undisturbed. */
  function Run(cfg: Config, s: Store, t: Task): Store
    decreases Cost(t)
  {
    if t == Idle then s else var (s', t') := Step(cfg, s, t); Run(cfg, s', t')
  }

  /** Logging a batch of events: reserve the numbers, add the entries, trim. */
  function Append(cfg: Config, s: Store, op: Op, blocks: seq<BlockId>): Store {
    if blocks == [] then s
    else s.(counter := s.counter + |blocks|,
            log := Trim(ZAddAll(s.log, s.counter + 1, op, blocks), cfg.maxLen))
  }

  function BumpAll(s: Store, users: set<UserId>): Store {
    if users == {} then s else s.(versions := Bump(s.versions, users))
  }

  lemma RunAppend(cfg: Config, s: Store, op: Op, blocks: seq<BlockId>, users: set<UserId>, rest: seq<seq<BlockId>>)
    requires blocks != []
    ensures Run(cfg, s, Numbering(op, blocks, users, rest)) ==
            Run(cfg, BumpAll(Append(cfg, s, op, blocks), users), Resume({}, rest))
  {
    var (s1, t1) := Step(cfg, s, Numbering(op, blocks, users, rest));
    var (s2, t2) := Step(cfg, s1, t1);
    assert s2 == Append(cfg, s, op, blocks);
    assert Run(cfg, s, Numbering(op, blocks, users, rest)) == Run(cfg, s1, t1) == Run(cfg, s2, t2);
  }

  lemma AppendedLog(cfg: Config, s: Store, op: Op, blocks: seq<BlockId>)
    requires Contiguous(s.log, s.counter) && blocks != []
    ensures var s' := Append(cfg, s, op, blocks);
      && s'.log == Trim(s.log + EventsFor(s.counter + 1, op, blocks), cfg.maxLen)
      && Contiguous(s'.log, s.counter + |blocks|)
  {
    ZAddAllAppends(s.log, s.counter + 1, op, blocks);
    assert Contiguous(s.log + EventsFor(s.counter + 1, op, blocks), s.counter + |blocks|);
  }

  // ---- writes ----

  lemma RunWrite(cfg: Config, s: Store, data: seq<(BlockId, Row)>)
    ensures Run(cfg, s, Writing(data)) ==
            Append(cfg, s.(rows := SaveAll(s.rows, data)), Upsert, KeysOf(data))
  {
    var (s1, t1) := Step(cfg, s, Writing(data));
    assert Run(cfg, s, Writing(data)) == Run(cfg, s1, t1);
    if data != [] {
      RunAppend(cfg, s1, Upsert, KeysOf(data), {}, []);
    }
  }

  /** The row of the entry's block is its old fields overlaid with the new ones. */
  ghost predicate Merged(before: Rows, after: Rows, entry: (BlockId, Row)) {
    Lookup(after, entry.0) == Some((if entry.0 in before then before[entry.0] else map[]) + entry.1)
  }

  /** Every entry is merged and no other row changes. */
  ghost predicate MergesAll(before: Rows, after: Rows, entries: seq<(BlockId, Row)>) {
    && (forall e :: e in entries ==> Merged(before, after, e))
    && (forall b :: b !in KeysOf(entries) ==> Lookup(after, b) == Lookup(before, b))
  }

  lemma {:induction false} SaveAllAt(rows: Rows, data: seq<(BlockId, Row)>, i: nat)
    requires i < |data| && forall j, k :: 0 <= j < k < |data| ==> data[j].0 != data[k].0
    ensures Merged(rows, SaveAll(rows, data), data[i])
  {
    var n := |data| - 1;
    if i < n {
      SaveAllAt(rows, data[..n], i);
    } else {
      SaveAllEffect(rows, data[..n]);
      assert data[n].0 !in KeysOf(data[..n]);
    }
  }

  /**
   * A batch of writes is all or nothing: one empty row refuses all of it, otherwise every entry is
   * merged into its row, gets one upsert event in order, and nothing else changes.
   */
  lemma WriteResult(cfg: Config, s: Store, entries: seq<(BlockId, Row)>)
    requires Inv(cfg, s, Idle) && ValidMessage(UpdateBlocks(entries))
    ensures var s' := Run(cfg, s, Start(cfg, UpdateBlocks(entries)));
      if exists e :: e in entries && e.1 == map[] then s' == s
      else
        && s' == s.(rows := s'.rows, counter := s.counter + |entries|, log := s'.log)
        && MergesAll(s.rows, s'.rows, entries)
        && s'.log == Trim(s.log + EventsFor(s.counter + 1, Upsert, KeysOf(entries)), cfg.maxLen)
  {
    if !exists e :: e in entries && e.1 == map[] {
      RunWrite(cfg, s, entries);
      SaveAllMerges(s.rows, entries);
      WriteLogged(cfg, s, SaveAll(s.rows, entries), KeysOf(entries));
    }
  }

  /** An update of one block: refused when it is empty, otherwise merged and logged once. */
  lemma SingleResult(cfg: Config, s: Store, b: BlockId, data: Row)
    requires Inv(cfg, s, Idle) && b != ""
    ensures var s' := Run(cfg, s, Start(cfg, UpdateBlock(b, data)));
      if data == map[] then s' == s
      else
        && s' == s.(rows := s'.rows, counter := s.counter + 1, log := s'.log)
        && MergesAll(s.rows, s'.rows, [(b, data)])
        && s'.log == Trim(s.log + [Event(s.counter + 1, Upsert, b)], cfg.maxLen)
  {
    var pair := [(b, data)];
    assert (b, data) in pair && KeysOf(pair) == [b];
    assert Start(cfg, UpdateBlock(b, data)) == Start(cfg, UpdateBlocks(pair));
    WriteResult(cfg, s, pair);
    assert EventsFor(s.counter + 1, Upsert, [b]) == [Event(s.counter + 1, Upsert, b)];
  }

  lemma SaveAllMerges(rows: Rows, entries: seq<(BlockId, Row)>)
    requires forall j, k :: 0 <= j < k < |entries| ==> entries[j].0 != entries[k].0
    ensures MergesAll(rows, SaveAll(rows, entries), entries)
  {
    SaveAllEffect(rows, entries);
    forall e | e in entries ensures Merged(rows, SaveAll(rows, entries), e) {
      var i :| 0 <= i < |entries| && entries[i] == e;
      SaveAllAt(rows, entries, i);
    }
  }

  lemma WriteLogged(cfg: Config, s: Store, rows: Rows, blocks: seq<BlockId>)
    requires Inv(cfg, s, Idle)
    ensures var s' := Append(cfg, s.(rows := rows), Upsert, blocks);
      && s' == s.(rows := rows, counter := s.counter + |blocks|, log := s'.log)
      && s'.log == Trim(s.log + EventsFor(s.counter + 1, Upsert, blocks), cfg.maxLen)
  {
    if blocks == [] {
      assert s.log + EventsFor(s.counter + 1, Upsert, blocks) == s.log;
    } else {
      AppendedLog(cfg, s.(rows := rows), Upsert, blocks);
    }
  }

  // ---- every handler ----

  /** Whatever the message, a handler that has run to its end leaves a sound store. */
  lemma HandlersKeepInv(cfg: Config, s: Store, m: Message)
    requires Inv(cfg, s, Idle) && ValidMessage(m)
    ensures Inv(cfg, Run(cfg, s, Start(cfg, m)), Idle)
  {
    StartInv(cfg, s, m);
    RunKeepsInv(cfg, s, Start(cfg, m));
  }

  lemma {:induction false} RunKeepsInv(cfg: Config, s: Store, t: Task)
    requires Inv(cfg, s, t)
    ensures Inv(cfg, Run(cfg, s, t), Idle)
    decreases Cost(t)
  {
    if t != Idle {
      StepInv(cfg, s, t);
      var (s', t') := Step(cfg, s, t);
      RunKeepsInv(cfg, s', t');
    }
  }

  // ---- access changes ----

  lemma RunBump(cfg: Config, s: Store, users: set<UserId>)
    requires users != {}
    ensures Run(cfg, s, Bumping(users, [])) == BumpAll(s, users)
  {
    var (s1, t1) := Step(cfg, s, Bumping(users, []));
    assert Run(cfg, s, Bumping(users, [])) == Run(cfg, s1, t1) == s1;
  }

  lemma {:induction false} SetAccessConcat(s: Store, u: UserId, deny: bool, x: seq<BlockId>, y: seq<BlockId>)
    ensures SetAccess(s, u, deny, x + y) == SetAccess(SetAccess(s, u, deny, x), u, deny, y)
  {
    if y == [] {
      assert x + y == x;
    } else {
      var n := |y| - 1;
      assert (x + y)[..|x + y| - 1] == x + y[..n];
      SetAccessConcat(s, u, deny, x, y[..n]);
    }
  }

  /** A chunked grant or revocation is the unchunked one followed by one version bump. */
  lemma {:induction false} RunAccess(cfg: Config, s: Store, u: UserId, deny: bool, chunks: seq<seq<BlockId>>)
    ensures Run(cfg, s, StartAccess(u, deny, chunks)) ==
            BumpAll(SetAccess(s, u, deny, Flatten(chunks)), {u})
    decreases |chunks|
  {
    var t := StartAccess(u, deny, chunks);
    if chunks == [] {
      RunBump(cfg, s, {u});
    } else {
      var s1 := SetAccess(s, u, deny, chunks[0]);
      assert Step(cfg, s, t) == (s1, StartAccess(u, deny, chunks[1..]));
      RunAccess(cfg, s1, u, deny, chunks[1..]);
      SetAccessConcat(s, u, deny, chunks[0], Flatten(chunks[1..]));
    }
  }

  lemma RunAccessInChunks(cfg: Config, s: Store, u: UserId, deny: bool, blocks: seq<BlockId>)
    requires ValidConfig(cfg)
    ensures Run(cfg, s, StartAccess(u, deny, Chunks(blocks, cfg.portion))) ==
            BumpAll(SetAccess(s, u, deny, blocks), {u})
  {
    RunAccess(cfg, s, u, deny, Chunks(blocks, cfg.portion));
    ChunksFlatten(blocks, cfg.portion);
  }

  /**
   * Afterwards the user is in exactly the sets asked for, all other memberships are untouched, and
   * only this user's version has gone up, by one.
   */
  ghost predicate SetsAccess(s: Store, s': Store, u: UserId, deny: bool, blocks: seq<BlockId>) {
    && s' == s.(readers := s'.readers, subs := s'.subs, versions := s'.versions)
    && (forall v, b :: Has(s'.readers, b, v) <==> if v == u && b in blocks then !deny else Has(s.readers, b, v))
    && (forall v, b :: Has(s'.subs, v, b) <==> if v == u && b in blocks then !deny else Has(s.subs, v, b))
    && (forall v :: Version(s', v) == Version(s, v) + if v == u then 1 else 0)
  }

  /** A change of access covers both block lists; anything but a denial grants. */
  lemma UpdateAccessResult(cfg: Config, s: Store, u: UserId, deny: bool, blocks: seq<BlockId>,
                           startBlocks: seq<BlockId>)
    requires ValidConfig(cfg)
    ensures var s' := Run(cfg, s, Start(cfg, UpdateAccess(u, deny, blocks, startBlocks)));
      SetsAccess(s, s', u, deny, blocks + startBlocks)
  {
    AccessResult(cfg, s, u, deny, blocks + startBlocks);
  }

  lemma SubscribeResult(cfg: Config, s: Store, u: UserId, blocks: seq<BlockId>)
    requires ValidConfig(cfg)
    ensures SetsAccess(s, Run(cfg, s, Start(cfg, Subscribe(u, blocks))), u, false, blocks)
  {
    AccessResult(cfg, s, u, false, blocks);
  }

  lemma AccessResult(cfg: Config, s: Store, u: UserId, deny: bool, blocks: seq<BlockId>)
    requires ValidConfig(cfg)
    ensures SetsAccess(s, Run(cfg, s, StartAccess(u, deny, Chunks(blocks, cfg.portion))), u, deny, blocks)
  {
    RunAccessInChunks(cfg, s, u, deny, blocks);
    SetAccessEffect(s, u, deny, blocks);
    var s1 := SetAccess(s, u, deny, blocks);
    forall v ensures Version(BumpAll(s1, {u}), v) == Version(s, v) + if v == u then 1 else 0 {
      BumpedVersion(s1.versions, {u}, v);
    }
  }

  // ---- deletions ----

  /** One pass of the deletion loop. */
  function DeleteChunk(cfg: Config, s: Store, chunk: seq<BlockId>): Store {
    BumpAll(Append(cfg, RemoveChunk(s, chunk, Holders(s, chunk)), Delete, chunk), Holders(s, chunk).Keys)
  }

  lemma RunDeleteChunk(cfg: Config, s: Store, chunks: seq<seq<BlockId>>)
    requires chunks != [] && chunks[0] != []
    ensures Run(cfg, s, Resume({}, chunks)) == Run(cfg, DeleteChunk(cfg, s, chunks[0]), Resume({}, chunks[1..]))
  {
    var t := Resume({}, chunks);
    var (s1, t1) := Step(cfg, s, t);
    var (s2, t2) := Step(cfg, s1, t1);
    assert Run(cfg, s, t) == Run(cfg, s1, t1) == Run(cfg, s2, t2);
    RunAppend(cfg, s2, Delete, chunks[0], Holders(s, chunks[0]).Keys, chunks[1..]);
  }

  /** The blocks are in no set and have no row; everything else is as before. */
  ghost predicate DeletesIndex(s: Store, s': Store, blocks: seq<BlockId>) {
    && TwoWay(s')
    && (forall u, b :: Has(s'.subs, u, b) <==> Has(s.subs, u, b) && b !in blocks)
    && (forall b :: Lookup(s'.rows, b) == if b in blocks then None else Lookup(s.rows, b))
  }

  /** One deletion event per listed block, in order, under the retention bound. */
  ghost predicate DeletesLog(cfg: Config, s: Store, s': Store, blocks: seq<BlockId>) {
    && s'.counter == s.counter + |blocks|
    && Contiguous(s'.log, s'.counter)
    && s'.log == Trim(s.log + EventsFor(s.counter + 1, Delete, blocks), cfg.maxLen)
  }

  /** Exactly the users who read one of the blocks are made to resync. */
  ghost predicate DeletesVersions(s: Store, s': Store, blocks: seq<BlockId>) {
    && (forall u :: Version(s', u) >= Version(s, u))
    && (forall u :: Version(s', u) > Version(s, u) <==> exists b :: b in blocks && Has(s.readers, b, u))
  }

  ghost predicate Deletes(cfg: Config, s: Store, s': Store, blocks: seq<BlockId>) {
    DeletesIndex(s, s', blocks) && DeletesLog(cfg, s, s', blocks) && DeletesVersions(s, s', blocks)
  }

  lemma ChunkIndex(cfg: Config, s: Store, chunk: seq<BlockId>)
    requires TwoWay(s)
    ensures DeletesIndex(s, DeleteChunk(cfg, s, chunk), chunk)
  {
    RemoveChunkEffect(s, chunk);
    var s1 := RemoveChunk(s, chunk, Holders(s, chunk));
    var s' := DeleteChunk(cfg, s, chunk);
    assert s'.subs == s1.subs && s'.readers == s1.readers && s'.rows == s1.rows;
  }

  lemma ChunkLog(cfg: Config, s: Store, chunk: seq<BlockId>)
    requires Contiguous(s.log, s.counter) && chunk != []
    ensures DeletesLog(cfg, s, DeleteChunk(cfg, s, chunk), chunk)
  {
    var s1 := RemoveChunk(s, chunk, Holders(s, chunk));
    AppendedLog(cfg, s1, Delete, chunk);
    assert DeleteChunk(cfg, s, chunk).log == Append(cfg, s1, Delete, chunk).log;
  }

  lemma ChunkVersions(cfg: Config, s: Store, chunk: seq<BlockId>)
    ensures DeletesVersions(s, DeleteChunk(cfg, s, chunk), chunk)
  {
    var s' := DeleteChunk(cfg, s, chunk);
    var users := Holders(s, chunk).Keys;
    forall u ensures Version(s', u) == Version(s, u) + if u in users then 1 else 0 {
      BumpedVersion(s.versions, users, u);
    }
    forall u ensures u in users <==> exists b :: b in chunk && Has(s.readers, b, u) {
      HoldersExact(s, chunk, u);
    }
  }

  lemma HoldersExact(s: Store, chunk: seq<BlockId>, u: UserId)
    ensures u in Holders(s, chunk) <==> exists b :: b in chunk && Has(s.readers, b, u)
  {
  }

  lemma BumpedVersion(versions: map<UserId, nat>, users: set<UserId>, u: UserId)
    ensures (if u in Bump(versions, users) then Bump(versions, users)[u] else 0)
         == (if u in versions then versions[u] else 0) + if u in users then 1 else 0
  {
  }

  lemma DeletesCompose(cfg: Config, s: Store, s1: Store, s2: Store, x: seq<BlockId>, y: seq<BlockId>)
    requires TwoWay(s) && Deletes(cfg, s, s1, x) && Deletes(cfg, s1, s2, y)
    ensures Deletes(cfg, s, s2, x + y)
  {
    assert DeletesIndex(s, s2, x + y);
    LogsCompose(cfg, s, s1, s2, x, y);
    VersionsCompose(s, s1, s2, x, y);
  }

  lemma LogsCompose(cfg: Config, s: Store, s1: Store, s2: Store, x: seq<BlockId>, y: seq<BlockId>)
    requires DeletesLog(cfg, s, s1, x) && DeletesLog(cfg, s1, s2, y)
    ensures DeletesLog(cfg, s, s2, x + y)
  {
    var ex, ey := EventsFor(s.counter + 1, Delete, x), EventsFor(s1.counter + 1, Delete, y);
    EventsConcat(s.counter + 1, Delete, x, y);
    TrimTwice(s.log + ex, ey, cfg.maxLen);
    assert s.log + ex + ey == s.log + (ex + ey);
  }

  lemma EventsConcat(start: nat, op: Op, x: seq<BlockId>, y: seq<BlockId>)
    ensures EventsFor(start, op, x + y) == EventsFor(start, op, x) + EventsFor(start + |x|, op, y)
  {
  }

  lemma VersionsCompose(s: Store, s1: Store, s2: Store, x: seq<BlockId>, y: seq<BlockId>)
    requires TwoWay(s) && DeletesIndex(s, s1, x) && DeletesVersions(s, s1, x) && DeletesVersions(s1, s2, y)
    ensures DeletesVersions(s, s2, x + y)
  {
    forall u ensures Version(s2, u) > Version(s, u) <==> exists b :: b in x + y && Has(s.readers, b, u) {
      if Version(s1, u) == Version(s, u) {
        assert forall b :: b in x ==> !Has(s.readers, b, u);
        forall b | b in y ensures Has(s1.readers, b, u) <==> Has(s.readers, b, u) {
          assert Has(s1.readers, b, u) <==> Has(s1.subs, u, b);
          assert Has(s.readers, b, u) <==> Has(s.subs, u, b);
        }
      }
    }
  }

  /** Chunked deletion meets the unchunked promise, for every chunk size. */
  lemma {:induction false} RunDelete(cfg: Config, s: Store, chunks: seq<seq<BlockId>>)
    requires TwoWay(s) && Contiguous(s.log, s.counter) && (0 < cfg.maxLen ==> |s.log| <= cfg.maxLen)
    requires forall c :: c in chunks ==> c != []
    ensures Deletes(cfg, s, Run(cfg, s, Resume({}, chunks)), Flatten(chunks))
    decreases |chunks|
  {
    if chunks == [] {
      assert EventsFor(s.counter + 1, Delete, []) == [];
      assert s.log + [] == s.log;
    } else {
      assert chunks[0] in chunks && forall c :: c in chunks[1..] ==> c in chunks;
      RunDeleteChunk(cfg, s, chunks);
      var s1 := DeleteChunk(cfg, s, chunks[0]);
      ChunkIndex(cfg, s, chunks[0]);
      ChunkLog(cfg, s, chunks[0]);
      ChunkVersions(cfg, s, chunks[0]);
      RunDelete(cfg, s1, chunks[1..]);
      DeletesCompose(cfg, s, s1, Run(cfg, s1, Resume({}, chunks[1..])), chunks[0], Flatten(chunks[1..]));
    }
  }

  lemma DeleteResult(cfg: Config, s: Store, blocks: seq<BlockId>)
    requires Inv(cfg, s, Idle)
    ensures Deletes(cfg, s, Run(cfg, s, Start(cfg, Unsubscribe(blocks))), blocks)
  {
    ChunksFlatten(blocks, cfg.portion);
    assert Start(cfg, Unsubscribe(blocks)) == Resume({}, Chunks(blocks, cfg.portion));
    RunDelete(cfg, s, Chunks(blocks, cfg.portion));
  }

  // ---- how often a version goes up ----

  /** Chunk `i` holds a block that the user reads and that no earlier chunk has removed. */
  ghost predicate Hits(readers: map<BlockId, set<UserId>>, chunks: seq<seq<BlockId>>, i: nat, u: UserId)
    requires i < |chunks|
  {
    exists b :: b in chunks[i] && Has(readers, b, u) && forall j :: 0 <= j < i ==> b !in chunks[j]
  }

  ghost function CountHits(readers: map<BlockId, set<UserId>>, chunks: seq<seq<BlockId>>, n: nat, u: UserId): nat
    requires n <= |chunks|
  {
    if n == 0 then 0
    else CountHits(readers, chunks, n - 1, u) + if Hits(readers, chunks, n - 1, u) then 1 else 0
  }

  /** A deletion raises a user's version once for every chunk that takes a block from the user. */
  lemma DeleteVersions(cfg: Config, s: Store, blocks: seq<BlockId>, u: UserId)
    requires ValidConfig(cfg)
    ensures var chunks := Chunks(blocks, cfg.portion);
      Version(Run(cfg, s, Start(cfg, Unsubscribe(blocks))), u) ==
      Version(s, u) + CountHits(s.readers, chunks, |chunks|, u)
  {
    ChunksFlatten(blocks, cfg.portion);
    RunDeleteVersions(cfg, s, Chunks(blocks, cfg.portion), u);
  }

  lemma {:induction false} RunDeleteVersions(cfg: Config, s: Store, chunks: seq<seq<BlockId>>, u: UserId)
    requires forall c :: c in chunks ==> c != []
    ensures Version(Run(cfg, s, Resume({}, chunks)), u) == Version(s, u) + CountHits(s.readers, chunks, |chunks|, u)
    decreases |chunks|
  {
    if chunks != [] {
      assert chunks[0] in chunks && forall c :: c in chunks[1..] ==> c in chunks;
      var s1 := DeleteChunk(cfg, s, chunks[0]);
      RunDeleteChunk(cfg, s, chunks);
      RunDeleteVersions(cfg, s1, chunks[1..], u);
      HitsAfterFirst(s.readers, chunks, |chunks| - 1, u);
      ChunkRaises(cfg, s, chunks, u);
    }
  }

  lemma ChunkRaises(cfg: Config, s: Store, chunks: seq<seq<BlockId>>, u: UserId)
    requires chunks != []
    ensures var s1 := DeleteChunk(cfg, s, chunks[0]);
      && Version(s1, u) == Version(s, u) + (if Hits(s.readers, chunks, 0, u) then 1 else 0)
      && s1.readers == s.readers - (set b | b in chunks[0])
  {
    var users := Holders(s, chunks[0]).Keys;
    BumpedVersion(s.versions, users, u);
    HoldersExact(s, chunks[0], u);
  }

  /** Hits after the first chunk are hits of the remaining chunks on what it has left. */
  lemma {:induction false} HitsAfterFirst(readers: map<BlockId, set<UserId>>, chunks: seq<seq<BlockId>>, n: nat,
                                          u: UserId)
    requires n < |chunks|
    ensures CountHits(readers, chunks, n + 1, u) ==
      (if Hits(readers, chunks, 0, u) then 1 else 0) +
      CountHits(readers - (set b | b in chunks[0]), chunks[1..], n, u)
  {
    if n > 0 {
      HitsAfterFirst(readers, chunks, n - 1, u);
      HitAfterFirst(readers, chunks, n, u);
    }
  }

  lemma HitAfterFirst(readers: map<BlockId, set<UserId>>, chunks: seq<seq<BlockId>>, i: nat, u: UserId)
    requires 0 < i < |chunks|
    ensures Hits(readers, chunks, i, u) <==> Hits(readers - (set b | b in chunks[0]), chunks[1..], i - 1, u)
  {
    var left := readers - (set b | b in chunks[0]);
    if b :| b in chunks[i] && Has(readers, b, u) && forall j :: 0 <= j < i ==> b !in chunks[j] {
      assert b in chunks[1..][i - 1] && Has(left, b, u);
      assert forall j :: 0 <= j < i - 1 ==> chunks[1..][j] == chunks[j + 1];
    }
    if b :| b in chunks[1..][i - 1] && Has(left, b, u) && forall j :: 0 <= j < i - 1 ==> b !in chunks[1..][j] {
      assert b in chunks[i] && Has(readers, b, u);
      forall j | 0 <= j < i ensures b !in chunks[j] {
        assert j > 0 ==> chunks[j] == chunks[1..][j - 1];
      }
    }
  }
}
