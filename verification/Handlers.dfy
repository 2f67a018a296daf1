/** The queue message handlers, working in place on the Redis state. */
module Handlers {
  import opened SyncStore
  import opened WriterTasks
  import opened HandlerRuns

  /** ZREMRANGEBYRANK: ranks below zero count from the end, and the range is inclusive. */
  function RemRangeByRank(log: seq<Event>, start: int, stop: int): seq<Event> {
    var lo := if start < 0 then (if start + |log| < 0 then 0 else start + |log|) else start;
    var hi := if stop < 0 then stop + |log| else if stop >= |log| then |log| - 1 else stop;
    if lo > hi || lo >= |log| then log else log[..lo] + log[hi + 1..]
  }

  /** The rank arithmetic of the appender keeps exactly the newest `max` entries. */
  lemma RankTrim(log: seq<Event>, max: int)
    requires max > 0
    ensures RemRangeByRank(log, 0, -(max + 1)) == Trim(log, max)
  {
  }

  // ---- commands queued in a pipeline before it is executed ----

  method QueueZAdds(log: seq<Event>, start: nat, op: Op, blocks: seq<BlockId>) returns (pipe: seq<Event>)
    ensures pipe == ZAddAll(log, start, op, blocks)
  {
    pipe := log;
    for i := 0 to |blocks|
      invariant pipe == ZAddAll(log, start, op, blocks[..i])
    {
      pipe := ZAdd(pipe, Event(start + i, op, blocks[i]));
      assert blocks[..i + 1][..i] == blocks[..i];
    }
    assert blocks[..|blocks|] == blocks;
  }

  method QueueTrim(log: seq<Event>, max: int) returns (pipe: seq<Event>)
    ensures pipe == Trim(log, max)
  {
    pipe := log;
    if max > 0 {
      RankTrim(pipe, max);
      pipe := RemRangeByRank(pipe, 0, -(max + 1));
    }
  }

  /** The transaction of the appender: the ZADDs, then the trim. */
  method QueueAppend(log: seq<Event>, start: nat, op: Op, blocks: seq<BlockId>, max: int) returns (pipe: seq<Event>)
    ensures pipe == Trim(ZAddAll(log, start, op, blocks), max)
  {
    pipe := QueueZAdds(log, start, op, blocks);
    pipe := QueueTrim(pipe, max);
  }

  method QueueIncrs(versions: map<UserId, nat>, users: set<UserId>) returns (pipe: map<UserId, nat>)
    ensures pipe == Bump(versions, users)
  {
    pipe := versions;
    var done := {};
    assert Bump(versions, {}) == versions;
    while users - done != {}
      invariant done <= users && pipe == Bump(versions, done)
      decreases users - done
    {
      var u :| u in users - done;
      BumpOneMore(versions, done, u);
      pipe := pipe[u := (if u in pipe then pipe[u] else 0) + 1];
      done := done + {u};
    }
    assert done == users;
  }

  lemma BumpOneMore(versions: map<UserId, nat>, done: set<UserId>, u: UserId)
    requires u !in done
    ensures var pipe := Bump(versions, done);
      Bump(versions, done + {u}) == pipe[u := (if u in pipe then pipe[u] else 0) + 1]
  {
  }

  method QueueAccess(readers: map<BlockId, set<UserId>>, subs: map<UserId, set<BlockId>>, user: UserId, deny: bool,
                     chunk: seq<BlockId>, ghost s: Store)
    returns (pipeReaders: map<BlockId, set<UserId>>, pipeSubs: map<UserId, set<BlockId>>)
    requires readers == s.readers && subs == s.subs
    ensures s.(readers := pipeReaders, subs := pipeSubs) == SetAccess(s, user, deny, chunk)
  {
    pipeReaders, pipeSubs := readers, subs;
    for j := 0 to |chunk|
      invariant s.(readers := pipeReaders, subs := pipeSubs) == SetAccess(s, user, deny, chunk[..j])
    {
      assert chunk[..j + 1][..j] == chunk[..j];
      if deny {
        pipeReaders, pipeSubs := SRem(pipeReaders, chunk[j], {user}), SRem(pipeSubs, user, {chunk[j]});
      } else {
        pipeReaders, pipeSubs := SAdd(pipeReaders, chunk[j], user), SAdd(pipeSubs, user, chunk[j]);
      }
    }
    assert chunk[..|chunk|] == chunk;
  }

  /** The mapping user to blocks built from the SMEMBERS results of a chunk. */
  method CollectHolders(s: Store, chunk: seq<BlockId>) returns (userBlocks: map<UserId, set<BlockId>>)
    ensures userBlocks == Holders(s, chunk)
  {
    userBlocks := map[];
    for j := 0 to |chunk|
      invariant userBlocks == Holders(s, chunk[..j])
    {
      userBlocks := AddHolders(s, chunk[..j], chunk[j], userBlocks);
      assert chunk[..j + 1] == chunk[..j] + [chunk[j]];
    }
    assert chunk[..|chunk|] == chunk;
  }

  /** Adds block `b` to the sets of all its readers. */
  method AddHolders(s: Store, before: seq<BlockId>, b: BlockId, userBlocks: map<UserId, set<BlockId>>)
    returns (more: map<UserId, set<BlockId>>)
    requires userBlocks == Holders(s, before)
    ensures more == Holders(s, before + [b])
  {
    more := userBlocks;
    var users := Members(s.readers, b);
    var done := {};
    WithNoHolders(userBlocks, b);
    while users - done != {}
      invariant done <= users && more == WithHolders(userBlocks, b, done)
      decreases users - done
    {
      var u :| u in users - done;
      WithOneMore(userBlocks, b, done, u);
      more := SAdd(more, u, b);
      done := done + {u};
    }
    assert users <= done by {
      assert forall u :: u in users ==> u !in users - done;
    }
    HoldersOneMore(s, before, b);
  }

  function WithHolders(m: map<UserId, set<BlockId>>, b: BlockId, users: set<UserId>): map<UserId, set<BlockId>> {
    map u | u in m.Keys + users :: Members(m, u) + if u in users then {b} else {}
  }

  lemma WithNoHolders(m: map<UserId, set<BlockId>>, b: BlockId)
    ensures WithHolders(m, b, {}) == m
  {
    forall u | u in m ensures WithHolders(m, b, {})[u] == m[u] {
    }
  }

  lemma WithOneMore(m: map<UserId, set<BlockId>>, b: BlockId, done: set<UserId>, u: UserId)
    requires u !in done
    ensures SAdd(WithHolders(m, b, done), u, b) == WithHolders(m, b, done + {u})
  {
    var x, y := SAdd(WithHolders(m, b, done), u, b), WithHolders(m, b, done + {u});
    assert x.Keys == y.Keys;
    assert x[u] == y[u];
  }

  lemma HoldersOneMore(s: Store, before: seq<BlockId>, b: BlockId)
    ensures Holders(s, before + [b]) == WithHolders(Holders(s, before), b, Members(s.readers, b))
  {
    var x, y := Holders(s, before + [b]), WithHolders(Holders(s, before), b, Members(s.readers, b));
    forall u ensures u in ReadersOf(s, before + [b]) <==> u in ReadersOf(s, before) || u in Members(s.readers, b) {
      if u in Members(s.readers, b) {
        assert b in before + [b];
      }
    }
    forall u | u in x ensures x[u] == y[u] {
      HeldBy(s, before, u);
      HeldBy(s, before + [b], u);
    }
  }

  lemma HeldBy(s: Store, chunk: seq<BlockId>, u: UserId)
    ensures Members(Holders(s, chunk), u) == set b | b in chunk && Has(s.readers, b, u)
  {
    if u !in ReadersOf(s, chunk) {
      forall b | b in chunk ensures !Has(s.readers, b, u) {
      }
    }
  }

  method QueueSRems(subs: map<UserId, set<BlockId>>, userBlocks: map<UserId, set<BlockId>>)
    returns (pipe: map<UserId, set<BlockId>>)
    ensures pipe == WithoutHeld(subs, userBlocks, userBlocks.Keys)
  {
    pipe := subs;
    var done := {};
    WithoutNobody(subs, userBlocks);
    while userBlocks.Keys - done != {}
      invariant done <= userBlocks.Keys && pipe == WithoutHeld(subs, userBlocks, done)
      decreases userBlocks.Keys - done
    {
      var u :| u in userBlocks.Keys - done;
      pipe := SRem(pipe, u, userBlocks[u]);
      done := done + {u};
    }
    assert done == userBlocks.Keys;
  }

  function WithoutHeld(subs: map<UserId, set<BlockId>>, held: map<UserId, set<BlockId>>,
                       users: set<UserId>): map<UserId, set<BlockId>>
    requires users <= held.Keys
  {
    map u | u in subs.Keys + users :: Members(subs, u) - if u in users then held[u] else {}
  }

  lemma WithoutNobody(subs: map<UserId, set<BlockId>>, held: map<UserId, set<BlockId>>)
    ensures WithoutHeld(subs, held, {}) == subs
  {
    forall u | u in subs ensures WithoutHeld(subs, held, {})[u] == subs[u] {
    }
  }

  class Server {
    const cfg: Config
    var rows: Rows
    var readers: map<BlockId, set<UserId>>
    var subs: map<UserId, set<BlockId>>
    var counter: nat
    var log: seq<Event>
    var versions: map<UserId, nat>

    function State(): Store
      reads this
    {
      Store(rows, readers, subs, counter, log, versions)
    }

    constructor (cfg: Config)
      ensures State() == EMPTY_STORE && this.cfg == cfg
    {
      this.cfg := cfg;
      rows, readers, subs, counter, log, versions := map[], map[], map[], 0, [], map[];
    }

    /** `append_changelog_events` for the list `[(b, op) for b in blocks]`. */
    method AppendChangelogEvents(op: Op, blocks: seq<BlockId>)
      modifies this`counter, this`log
      ensures State() == Append(cfg, old(State()), op, blocks)
    {
      if blocks == [] {
        return;
      }
      counter := counter + |blocks|;
      var start := counter - |blocks| + 1;
      assert start == old(counter) + 1;
      var pipe := QueueAppend(log, start, op, blocks, cfg.maxLen);
      log := pipe;
    }

    method BumpSubscriptionVersions(users: set<UserId>)
      modifies this`versions
      ensures State() == BumpAll(old(State()), users)
    {
      if users == {} {
        return;
      }
      var pipe := QueueIncrs(versions, users);
      versions := pipe;
    }

    /** The persistent part of `action_update_block`; HSET refuses an empty mapping. */
    method UpdateBlock(block: BlockId, data: Row)
      requires ValidConfig(cfg)
      modifies this`rows, this`counter, this`log
      ensures State() == Run(cfg, old(State()), Start(cfg, Message.UpdateBlock(block, data)))
    {
      if data == map[] {
        return;
      }
      rows := HSet(rows, block, data);
      ghost var pairs := [(block, data)];
      assert SaveAll(old(rows), pairs) == rows by {
        assert pairs[..0] == [];
      }
      assert KeysOf(pairs) == [block];
      AppendChangelogEvents(Upsert, [block]);
      RunWrite(cfg, old(State()), pairs);
    }

    /** The persistent part of `action_update_blocks`: one pipeline for the rows, one log append. */
    method UpdateBlocks(entries: seq<(BlockId, Row)>)
      requires ValidConfig(cfg)
      modifies this`rows, this`counter, this`log
      ensures State() == Run(cfg, old(State()), Start(cfg, Message.UpdateBlocks(entries)))
    {
      var pipe := rows;
      var saved: seq<BlockId> := [];
      for i := 0 to |entries|
        invariant pipe == SaveAll(rows, entries[..i])
        invariant saved == KeysOf(entries[..i])
        invariant forall j :: 0 <= j < i ==> entries[j].1 != map[]
        invariant State() == old(State())
      {
        if entries[i].1 == map[] {
          assert entries[i] in entries;
          return;
        }
        pipe := HSet(pipe, entries[i].0, entries[i].1);
        saved := saved + [entries[i].0];
        assert entries[..i + 1][..i] == entries[..i];
      }
      assert entries[..|entries|] == entries;
      rows := pipe;
      AppendChangelogEvents(Upsert, saved);
      RunWrite(cfg, old(State()), entries);
    }

    /** The index part of `action_update_access`: deny removes the user, anything else adds. */
    method UpdateAccess(user: UserId, deny: bool, blocks: seq<BlockId>, startBlocks: seq<BlockId>)
      requires ValidConfig(cfg)
      modifies this`readers, this`subs, this`versions
      ensures State() == Run(cfg, old(State()), Start(cfg, Message.UpdateAccess(user, deny, blocks, startBlocks)))
    {
      var all := blocks + startBlocks;
      SetAccessInChunks(user, deny, all);
      BumpSubscriptionVersions({user});
      RunAccessInChunks(cfg, old(State()), user, deny, all);
    }

    method Subscribe(user: UserId, blocks: seq<BlockId>)
      requires ValidConfig(cfg)
      modifies this`readers, this`subs, this`versions
      ensures State() == Run(cfg, old(State()), Start(cfg, Message.Subscribe(user, blocks)))
    {
      SetAccessInChunks(user, false, blocks);
      BumpSubscriptionVersions({user});
      RunAccessInChunks(cfg, old(State()), user, false, blocks);
    }

    /** The chunk loop shared by grants and revocations; each chunk is one transaction. */
    method SetAccessInChunks(user: UserId, deny: bool, all: seq<BlockId>)
      requires ValidConfig(cfg)
      modifies this`readers, this`subs
      ensures State() == SetAccess(old(State()), user, deny, all)
    {
      var i := 0;
      while i < |all|
        invariant 0 <= i
        invariant State() == SetAccess(old(State()), user, deny, all[..Least(i, |all|)])
      {
        var stop := Least(i + cfg.portion, |all|);
        var chunk := all[i..stop];
        ghost var before := State();
        var pipeReaders, pipeSubs := QueueAccess(readers, subs, user, deny, chunk, before);
        readers, subs := pipeReaders, pipeSubs;
        NextChunk(old(State()), user, deny, all, i, stop);
        i := i + cfg.portion;
      }
      assert all[..|all|] == all;
    }

    /** `action_unsubscribe`: per chunk, collect the readers, drop everything in one transaction, log, bump. */
    method Unsubscribe(blocks: seq<BlockId>)
      requires ValidConfig(cfg)
      modifies this
      ensures State() == Run(cfg, old(State()), Start(cfg, Message.Unsubscribe(blocks)))
    {
      var i := 0;
      assert blocks[0..] == blocks;
      while i < |blocks|
        invariant 0 <= i
        invariant Run(cfg, State(), Resume({}, Chunks(blocks[Least(i, |blocks|)..], cfg.portion)))
               == Run(cfg, old(State()), Resume({}, Chunks(blocks, cfg.portion)))
      {
        var end := Least(i + cfg.portion, |blocks|);
        var chunk := blocks[i..end];
        NextDeletion(cfg, State(), blocks, i);
        UnsubscribeChunk(chunk);
        i := i + cfg.portion;
      }
    }

    /** One pass of the chunk loop. */
    method UnsubscribeChunk(chunk: seq<BlockId>)
      modifies this
      ensures State() == DeleteChunk(cfg, old(State()), chunk)
    {
      var userBlocks := CollectHolders(State(), chunk);
      RemoveAll(chunk, userBlocks);
      AppendChangelogEvents(Delete, chunk);
      BumpSubscriptionVersions(userBlocks.Keys);
    }

    /** The deletion transaction of a chunk. */
    method RemoveAll(chunk: seq<BlockId>, userBlocks: map<UserId, set<BlockId>>)
      modifies this`subs, this`readers, this`rows
      ensures State() == RemoveChunk(old(State()), chunk, userBlocks)
    {
      var pipe := QueueSRems(subs, userBlocks);
      subs := pipe;
      readers := readers - (set b | b in chunk);
      rows := rows - (set b | b in chunk);
    }
  }

  lemma NextChunk(s: Store, user: UserId, deny: bool, all: seq<BlockId>, start: nat, stop: nat)
    requires start <= stop <= |all|
    ensures SetAccess(s, user, deny, all[..stop]) ==
            SetAccess(SetAccess(s, user, deny, all[..start]), user, deny, all[start..stop])
  {
    assert all[..start] + all[start..stop] == all[..stop];
    SetAccessConcat(s, user, deny, all[..start], all[start..stop]);
  }

  /** One pass of the deletion loop leaves the rest of the list to be deleted. */
  lemma NextDeletion(cfg: Config, s: Store, blocks: seq<BlockId>, i: nat)
    requires ValidConfig(cfg) && i < |blocks|
    ensures var end := Least(i + cfg.portion, |blocks|);
      Run(cfg, s, Resume({}, Chunks(blocks[i..], cfg.portion))) ==
      Run(cfg, DeleteChunk(cfg, s, blocks[i..end]), Resume({}, Chunks(blocks[end..], cfg.portion)))
  {
    var end := Least(i + cfg.portion, |blocks|);
    FirstChunk(blocks, i, cfg.portion);
    RunDeleteChunk(cfg, s, Chunks(blocks[i..], cfg.portion));
    assert Chunks(blocks[i..], cfg.portion)[1..] == Chunks(blocks[end..], cfg.portion);
  }

  lemma FirstChunk(all: seq<BlockId>, i: nat, n: nat)
    requires n > 0 && i < |all|
    ensures var end := Least(i + n, |all|);
      Chunks(all[i..], n) == [all[i..end]] + Chunks(all[end..], n)
  {
    if i + n < |all| {
      assert all[i..][..n] == all[i..i + n] && all[i..][n..] == all[i + n..];
    } else {
      assert all[i..] == all[i..|all|] && all[|all|..] == [];
    }
  }
}
