/** To whom a block update is addressed: one block at a time, and in a batch grouped by user. */
module FanOut {
  import opened SyncStore

  /** Block data as far as the fan-out reads it; the empty string stands for a missing or falsy field. */
  datatype BlockData = BlockData(parent: BlockId, creator: UserId, mode: string, row: Row)

  datatype Entry = Entry(block: BlockId, data: BlockData)

  datatype SandboxInfo = SandboxInfo(mode: string, creator: UserId)

  /** A lone update is sent as it is, several updates for one user as a batch. */
  datatype Message = Single(update: Entry) | Batch(updates: seq<Entry>)

  /** Every message addressed to each user. */
  type Outbox = map<UserId, seq<Message>>

  function Inbox(outbox: Outbox, u: UserId): seq<Message> {
    if u in outbox then outbox[u] else []
  }

  /** The entries of a batch with the users each is addressed to. */
  type Plan = seq<(Entry, set<UserId>)>

  /** Sandbox information by block, as a message's context or as the cache. */
  type Sandboxes = map<BlockId, SandboxInfo>

  type Readers = map<BlockId, set<UserId>>

  predicate KnownMode(mode: string) { mode == "open" || mode == "private" }

  /** `update_sandbox_cache`: an unknown or missing mode drops the cached information. */
  function CacheMode(cache: Sandboxes, block: BlockId, mode: string, creator: UserId): Sandboxes {
    if KnownMode(mode) then cache[block := SandboxInfo(mode, creator)] else cache - {block}
  }

  /** The cache is updated only for entries that carry a mode. */
  function Touch(cache: Sandboxes, e: Entry): Sandboxes {
    if e.data.mode == "" then cache else CacheMode(cache, e.block, e.data.mode, e.data.creator)
  }

  function TouchAll(cache: Sandboxes, entries: seq<Entry>): Sandboxes {
    if entries == [] then cache
    else Touch(TouchAll(cache, entries[..|entries| - 1]), entries[|entries| - 1])
  }

  /** `get_sandbox_info`. */
  function Cached(cache: Sandboxes, parent: BlockId): Option<SandboxInfo> {
    if parent in cache && KnownMode(cache[parent].mode) then Some(cache[parent]) else None
  }

  /** One at a time, a parent the context does not name is looked up in the cache. */
  function ParentAlone(context: Sandboxes, cache: Sandboxes, parent: BlockId): Option<SandboxInfo> {
    if parent in context then Some(context[parent]) else Cached(cache, parent)
  }

  /** In a batch, the cache is looked up only when there is no context at all. */
  function ParentInBatch(context: Sandboxes, cache: Sandboxes, parent: BlockId): Option<SandboxInfo> {
    if context != map[] then Lookup(context, parent) else Cached(cache, parent)
  }

  /** In a private sandbox only the block's creator and the sandbox's owner are told. */
  function Allowed(subscribers: set<UserId>, creator: UserId, owner: UserId): set<UserId> {
    set u | u in subscribers && (u == creator || u == owner)
  }

  /** The user may not be told about the block in a sandbox like this. */
  predicate Hidden(u: UserId, data: BlockData, parent: Option<SandboxInfo>) {
    parent.Some? && parent.value.mode == "private" && u != data.creator && u != parent.value.creator
  }

  function Recipients(subscribers: set<UserId>, data: BlockData, parent: Option<SandboxInfo>): set<UserId> {
    if data.parent != "" && parent.Some? && parent.value.mode == "private"
    then Allowed(subscribers, data.creator, parent.value.creator)
    else subscribers
  }

  // ---- the two plans ----

  /** Handling the entries one after the other; each sees the cache as its predecessors left it. */
  function SerialPlan(entries: seq<Entry>, context: Sandboxes, cache: Sandboxes, readers: Readers): Plan {
    if entries == [] then []
    else
      var n := |entries| - 1;
      SerialPlan(entries[..n], context, cache, readers) +
      [(entries[n], ToldAlone(entries[n], context, TouchAll(cache, entries), readers))]
  }

  /** Handling the batch; every entry sees the cache as the whole batch leaves it. */
  function BatchPlan(entries: seq<Entry>, context: Sandboxes, touched: Sandboxes, readers: Readers): Plan {
    if entries == [] then []
    else
      var n := |entries| - 1;
      BatchPlan(entries[..n], context, touched, readers) +
      [(entries[n], ToldInBatch(entries[n], context, touched, readers))]
  }

  /** The updates addressed to user `u`, in batch order. */
  function Addressed(plan: Plan, u: UserId): seq<Entry> {
    if plan == [] then []
    else
      var n := |plan| - 1;
      Addressed(plan[..n], u) + if u in plan[n].1 then [plan[n].0] else []
  }

  /** How the updates for one user go out. */
  function Wrap(updates: seq<Entry>): seq<Message> {
    if updates == [] then [] else if |updates| == 1 then [Single(updates[0])] else [Batch(updates)]
  }

  function Unwrap(messages: seq<Message>): seq<Entry> {
    if messages == [] then []
    else
      var n := |messages| - 1;
      Unwrap(messages[..n]) + match messages[n] case Single(e) => [e] case Batch(es) => es
  }

  /** Who is told about an entry handled on its own. */
  function ToldAlone(e: Entry, context: Sandboxes, cache: Sandboxes, readers: Readers): set<UserId> {
    Recipients(Members(readers, e.block), e.data, ParentAlone(context, cache, e.data.parent))
  }

  /** Who is told about an entry handled in a batch. */
  function ToldInBatch(e: Entry, context: Sandboxes, cache: Sandboxes, readers: Readers): set<UserId> {
    Recipients(Members(readers, e.block), e.data, ParentInBatch(context, cache, e.data.parent))
  }

  // ---- the handlers' notification part ----

  class Notifier {
    var sandbox: Sandboxes
    var readers: Readers
    /** Every message addressed so far, per user. */
    var outbox: Outbox

    function Sent(u: UserId): seq<Message>
      reads this`outbox
    {
      Inbox(outbox, u)
    }

    method UpdateSandboxCache(block: BlockId, mode: string, creator: UserId)
      modifies this`sandbox
      ensures sandbox == CacheMode(old(sandbox), block, mode, creator)
      ensures Cached(sandbox, block) ==
        if mode == "open" || mode == "private" then Some(SandboxInfo(mode, creator)) else None
      ensures forall b :: b != block ==> Cached(sandbox, b) == Cached(old(sandbox), b)
    {
      if KnownMode(mode) {
        sandbox := sandbox[block := SandboxInfo(mode, creator)];
      } else {
        sandbox := sandbox - {block};
      }
    }

    method SendPersonal(message: Message, user: UserId)
      modifies this`outbox
      ensures forall u :: Sent(u) == old(Sent(u)) + if u == user then [message] else []
    {
      outbox := outbox[user := (if user in outbox then outbox[user] else []) + [message]];
    }

    /** `send_message_to_subscribers`, with the spawned deliveries taken as addressed. */
    method SendToSubscribers(message: Message, subscribers: set<UserId>)
      modifies this`outbox
      ensures forall u :: Sent(u) == old(Sent(u)) + if u in subscribers then [message] else []
    {
      var done := {};
      while subscribers - done != {}
        invariant done <= subscribers
        invariant forall u :: Sent(u) == old(Sent(u)) + if u in done then [message] else []
        decreases subscribers - done
      {
        var u :| u in subscribers - done;
        SendPersonal(message, u);
        done := done + {u};
      }
      assert done == subscribers;
    }

    /** The notification part of `action_update_block`. */
    method UpdateBlock(e: Entry, context: Sandboxes)
      modifies this`sandbox, this`outbox
      ensures sandbox == Touch(old(sandbox), e)
      ensures forall u ::
        Sent(u) == old(Sent(u)) + if u in ToldAlone(e, context, sandbox, readers) then [Single(e)] else []
      ensures forall u ::
        Sent(u) != old(Sent(u)) <==>
          && e.block in readers && u in readers[e.block]
          && (e.data.parent == "" ||
              match ParentAlone(context, sandbox, e.data.parent)
              case None => true
              case Some(p) => p.mode != "private" || u == e.data.creator || u == p.creator)
    {
      if e.data.mode != "" {
        UpdateSandboxCache(e.block, e.data.mode, e.data.creator);
      }
      var subscribers := Members(readers, e.block);
      if e.data.parent != "" {
        var parent := if e.data.parent in context then Some(context[e.data.parent]) else Cached(sandbox, e.data.parent);
        if parent.Some? && parent.value.mode == "private" {
          subscribers := FilterSubscribers(subscribers, e.data.creator, parent.value.creator);
        }
      }
      SendToSubscribers(Single(e), subscribers);
      forall u ensures Sent(u) != old(Sent(u)) <==> u in ToldAlone(e, context, sandbox, readers) {
        OneLonger(old(Sent(u)), Single(e));
      }
      forall u ensures u in ToldAlone(e, context, sandbox, readers) <==>
        && e.block in readers && u in readers[e.block]
        && (e.data.parent == "" ||
            match ParentAlone(context, sandbox, e.data.parent)
            case None => true
            case Some(p) => p.mode != "private" || u == e.data.creator || u == p.creator)
      {
        RecipientsExactly(Members(readers, e.block), e.data, ParentAlone(context, sandbox, e.data.parent), u);
      }
    }

    /** The single handler run on each entry in turn. */
    method UpdateEach(entries: seq<Entry>, context: Sandboxes)
      modifies this`sandbox, this`outbox
      ensures sandbox == TouchAll(old(sandbox), entries)
      ensures Addresses(old(outbox), outbox, SerialPlan(entries, context, old(sandbox), readers))
    {
      assert entries[..0] == [];
      NothingAddressed(outbox);
      for i := 0 to |entries|
        invariant sandbox == TouchAll(old(sandbox), entries[..i])
        invariant Addresses(old(outbox), outbox, SerialPlan(entries[..i], context, old(sandbox), readers))
      {
        ghost var before := outbox;
        UpdateBlock(entries[i], context);
        OneMoreEntry(entries, i, context, old(sandbox), readers);
        forall u ensures Inbox(outbox, u) ==
          Inbox(before, u) + if u in ToldAlone(entries[i], context, sandbox, readers) then [Single(entries[i])] else []
        {
          assert Sent(u) == Inbox(outbox, u);
        }
        AddressesOneMore(old(outbox), before, outbox, SerialPlan(entries[..i], context, old(sandbox), readers),
                         entries[i], ToldAlone(entries[i], context, sandbox, readers));
      }
      assert entries[..|entries|] == entries;
    }

    /** The notification part of `action_update_blocks`. */
    method UpdateBlocks(entries: seq<Entry>, context: Sandboxes)
      modifies this`sandbox, this`outbox
      ensures sandbox == TouchAll(old(sandbox), entries)
      ensures forall u :: Sent(u) == old(Sent(u)) + Wrap(Addressed(BatchPlan(entries, context, sandbox, readers), u))
      ensures Addresses(old(outbox), outbox, BatchPlan(entries, context, sandbox, readers))
      ensures forall u, e {:trigger e in NewUpdates(old(outbox), outbox, u)} ::
        e in NewUpdates(old(outbox), outbox, u) <==>
        && e in entries && e.block in readers && u in readers[e.block]
        && (e.data.parent == "" ||
            match ParentInBatch(context, sandbox, e.data.parent)
            case None => true
            case Some(p) => p.mode != "private" || u == e.data.creator || u == p.creator)
    {
      UpdateSandboxes(entries);
      var userUpdates := GroupByUser(entries, context, sandbox, readers);
      ghost var before := outbox;
      SendGroups(userUpdates);
      forall u ensures Inbox(outbox, u) == Inbox(before, u) + Wrap(Prior(userUpdates, u)) {
        assert Sent(u) == Inbox(outbox, u);
      }
      GroupsAddressed(before, outbox, userUpdates, BatchPlan(entries, context, sandbox, readers));
      NewlyTold(before, outbox, entries, context, sandbox, readers);
    }

    method UpdateSandboxes(entries: seq<Entry>)
      modifies this`sandbox
      ensures sandbox == TouchAll(old(sandbox), entries)
    {
      for i := 0 to |entries|
        invariant sandbox == TouchAll(old(sandbox), entries[..i])
      {
        assert entries[..i + 1][..i] == entries[..i];
        if entries[i].data.mode != "" {
          UpdateSandboxCache(entries[i].block, entries[i].data.mode, entries[i].data.creator);
        }
      }
      assert entries[..|entries|] == entries;
    }

    /** One message per user: a lone update as it is, several as a batch. */
    method SendGroups(userUpdates: map<UserId, seq<Entry>>)
      requires forall u :: u in userUpdates ==> userUpdates[u] != []
      modifies this`outbox
      ensures forall u ::
        Sent(u) == old(Sent(u)) +
        if u !in userUpdates then []
        else if |userUpdates[u]| == 1 then [Single(userUpdates[u][0])]
        else [Batch(userUpdates[u])]
    {
      var done := {};
      while userUpdates.Keys - done != {}
        invariant done <= userUpdates.Keys
        invariant forall u ::
          Sent(u) == old(Sent(u)) +
          if u !in done then []
          else if |userUpdates[u]| == 1 then [Single(userUpdates[u][0])]
          else [Batch(userUpdates[u])]
        decreases userUpdates.Keys - done
      {
        var u :| u in userUpdates.Keys - done;
        SendPersonal(if |userUpdates[u]| == 1 then Single(userUpdates[u][0]) else Batch(userUpdates[u]), u);
        done := done + {u};
      }
      forall u | u in userUpdates ensures u in done {
        assert u !in userUpdates.Keys - done;
      }
    }
  }

  /** `filter_subscribers_for_private_sandbox`. */
  method FilterSubscribers(subscribers: set<UserId>, creator: UserId, owner: UserId) returns (filtered: set<UserId>)
    ensures filtered == Allowed(subscribers, creator, owner)
    ensures forall u :: u in filtered <==> u in subscribers && (u == creator || u == owner)
  {
    filtered := {};
    var done := {};
    while subscribers - done != {}
      invariant done <= subscribers && filtered == Allowed(done, creator, owner)
      decreases subscribers - done
    {
      var u :| u in subscribers - done;
      if u == creator || u == owner {
        filtered := filtered + {u};
      }
      done := done + {u};
    }
    forall u | u in subscribers ensures u in done {
      assert u !in subscribers - done;
    }
  }

  /** The dictionary of updates per user, filled entry by entry. */
  method GroupByUser(entries: seq<Entry>, context: Sandboxes, sandbox: Sandboxes, readers: Readers)
    returns (userUpdates: map<UserId, seq<Entry>>)
    ensures Groups(userUpdates, BatchPlan(entries, context, sandbox, readers))
    ensures forall u :: u in userUpdates ==> userUpdates[u] != []
    ensures TellsExactly(userUpdates, entries, context, sandbox, readers)
  {
    userUpdates := map[];
    for i := 0 to |entries|
      invariant Groups(userUpdates, BatchPlan(entries[..i], context, sandbox, readers))
    {
      assert entries[..i + 1][..i] == entries[..i];
      var e := entries[i];
      var subs := Members(readers, e.block);
      if e.data.parent != "" {
        var parent := if context != map[] then Lookup(context, e.data.parent) else Cached(sandbox, e.data.parent);
        if parent.Some? && parent.value.mode == "private" {
          subs := FilterSubscribers(subs, e.data.creator, parent.value.creator);
        }
      }
      userUpdates := AddToUsers(userUpdates, e, subs, BatchPlan(entries[..i], context, sandbox, readers));
    }
    assert entries[..|entries|] == entries;
    forall u | u in userUpdates ensures userUpdates[u] != [] {
      assert GroupedFor(userUpdates, BatchPlan(entries, context, sandbox, readers), u);
    }
    GroupsTell(userUpdates, entries, context, sandbox, readers);
  }

  lemma GroupsTell(userUpdates: map<UserId, seq<Entry>>, entries: seq<Entry>, context: Sandboxes, sandbox: Sandboxes,
                   readers: Readers)
    requires Groups(userUpdates, BatchPlan(entries, context, sandbox, readers))
    ensures TellsExactly(userUpdates, entries, context, sandbox, readers)
  {
    forall u, e
      ensures u in userUpdates && e in userUpdates[u] <==>
        && e in entries && e.block in readers && u in readers[e.block]
        && (e.data.parent == "" ||
            match ParentInBatch(context, sandbox, e.data.parent)
            case None => true
            case Some(p) => p.mode != "private" || u == e.data.creator || u == p.creator)
    {
      assert GroupedFor(userUpdates, BatchPlan(entries, context, sandbox, readers), u);
      BatchTells(entries, context, sandbox, readers, e, u);
    }
  }

  /** A user is told about an entry if they read it and no private parent, of others than them, hides it. */
  ghost predicate TellsExactly(userUpdates: map<UserId, seq<Entry>>, entries: seq<Entry>, context: Sandboxes,
                               sandbox: Sandboxes, readers: Readers) {
    forall u, e {:trigger e in userUpdates[u]} :: u in userUpdates && e in userUpdates[u] <==>
      && e in entries && e.block in readers && u in readers[e.block]
      && (e.data.parent == "" ||
          match ParentInBatch(context, sandbox, e.data.parent)
          case None => true
          case Some(p) => p.mode != "private" || u == e.data.creator || u == p.creator)
  }

  /** A user has an entry in the dictionary exactly when something is addressed to them. */
  ghost predicate Groups(userUpdates: map<UserId, seq<Entry>>, plan: Plan) {
    forall u :: GroupedFor(userUpdates, plan, u)
  }

  ghost predicate GroupedFor(userUpdates: map<UserId, seq<Entry>>, plan: Plan, u: UserId) {
    && (u in userUpdates ==> userUpdates[u] == Addressed(plan, u) && userUpdates[u] != [])
    && (u !in userUpdates ==> Addressed(plan, u) == [])
  }

  function Prior(userUpdates: map<UserId, seq<Entry>>, u: UserId): seq<Entry> {
    if u in userUpdates then userUpdates[u] else []
  }

  method AddToUsers(userUpdates: map<UserId, seq<Entry>>, e: Entry, subs: set<UserId>,
                    ghost plan: Plan) returns (more: map<UserId, seq<Entry>>)
    requires Groups(userUpdates, plan)
    ensures Groups(more, plan + [(e, subs)])
  {
    more := userUpdates;
    var done := {};
    while subs - done != {}
      invariant done <= subs
      invariant forall u ::
        Lookup(more, u) == (if u in done then Some(Prior(userUpdates, u) + [e]) else Lookup(userUpdates, u))
      decreases subs - done
    {
      var u :| u in subs - done;
      if u !in more {
        more := more[u := []];
      }
      more := more[u := more[u] + [e]];
      done := done + {u};
    }
    assert done == subs;
    var longer := plan + [(e, subs)];
    assert longer[..|plan|] == plan;
    forall u ensures GroupedFor(more, longer, u) {
      assert GroupedFor(userUpdates, plan, u);
      assert Lookup(more, u) == if u in done then Some(Prior(userUpdates, u) + [e]) else Lookup(userUpdates, u);
    }
  }

  lemma OneLonger(sent: seq<Message>, m: Message)
    ensures sent + [m] != sent && sent + [] == sent
  {
    assert |sent + [m]| == |sent| + 1;
  }

  /** A subscriber is told unless the block has a private parent and is neither theirs nor in a sandbox of theirs. */
  lemma RecipientsExactly(subscribers: set<UserId>, data: BlockData, parent: Option<SandboxInfo>, u: UserId)
    ensures u in Recipients(subscribers, data, parent) <==>
      && u in subscribers
      && (data.parent == "" ||
          match parent
          case None => true
          case Some(p) => p.mode != "private" || u == data.creator || u == p.creator)
  {
  }

  lemma {:induction false} BatchAt(entries: seq<Entry>, context: Sandboxes, touched: Sandboxes, readers: Readers,
                                   i: nat)
    requires i < |entries|
    ensures var plan := BatchPlan(entries, context, touched, readers);
      |plan| == |entries| && plan[i] == (entries[i], ToldInBatch(entries[i], context, touched, readers))
  {
    var n := |entries| - 1;
    if n > 0 {
      BatchAt(entries[..n], context, touched, readers, if i < n then i else 0);
    }
  }

  /** An entry is in a user's list exactly when the plan tells that user about it. */
  lemma {:induction false} AddressedAt(plan: Plan, e: Entry, u: UserId)
    ensures e in Addressed(plan, u) <==> exists i :: 0 <= i < |plan| && plan[i].0 == e && u in plan[i].1
  {
    if plan != [] {
      var n := |plan| - 1;
      AddressedAt(plan[..n], e, u);
      if i :| 0 <= i < |plan| && plan[i].0 == e && u in plan[i].1 {
        assert i < n ==> plan[..n][i] == plan[i];
      }
    }
  }

  /** Whom a batch tells about which of its entries. */
  lemma BatchTells(entries: seq<Entry>, context: Sandboxes, cache: Sandboxes, readers: Readers, e: Entry, u: UserId)
    ensures e in Addressed(BatchPlan(entries, context, cache, readers), u) <==>
      && e in entries && e.block in readers && u in readers[e.block]
      && (e.data.parent == "" ||
          match ParentInBatch(context, cache, e.data.parent)
          case None => true
          case Some(p) => p.mode != "private" || u == e.data.creator || u == p.creator)
  {
    var plan := BatchPlan(entries, context, cache, readers);
    forall i | 0 <= i < |entries|
      ensures |plan| == |entries| && plan[i] == (entries[i], ToldInBatch(entries[i], context, cache, readers))
    {
      BatchAt(entries, context, cache, readers, i);
    }
    AddressedAt(plan, e, u);
    RecipientsExactly(Members(readers, e.block), e.data, ParentInBatch(context, cache, e.data.parent), u);
  }

  /** The updates a user has been addressed since, however grouped. */
  ghost function NewUpdates(before: Outbox, after: Outbox, u: UserId): seq<Entry> {
    var x, y := Unwrap(Inbox(before, u)), Unwrap(Inbox(after, u));
    if |x| <= |y| then y[|x|..] else []
  }

  lemma NewlyTold(before: Outbox, after: Outbox, entries: seq<Entry>, context: Sandboxes, cache: Sandboxes,
                  readers: Readers)
    requires Addresses(before, after, BatchPlan(entries, context, cache, readers))
    ensures forall u, e {:trigger e in NewUpdates(before, after, u)} :: e in NewUpdates(before, after, u) <==>
      && e in entries && e.block in readers && u in readers[e.block]
      && (e.data.parent == "" ||
          match ParentInBatch(context, cache, e.data.parent)
          case None => true
          case Some(p) => p.mode != "private" || u == e.data.creator || u == p.creator)
  {
    forall u, e
      ensures e in NewUpdates(before, after, u) <==>
        && e in entries && e.block in readers && u in readers[e.block]
        && (e.data.parent == "" ||
            match ParentInBatch(context, cache, e.data.parent)
            case None => true
            case Some(p) => p.mode != "private" || u == e.data.creator || u == p.creator)
    {
      NewIsAddressed(before, after, BatchPlan(entries, context, cache, readers), u);
      BatchTells(entries, context, cache, readers, e, u);
    }
  }

  lemma NewIsAddressed(before: Outbox, after: Outbox, plan: Plan, u: UserId)
    requires Addresses(before, after, plan)
    ensures NewUpdates(before, after, u) == Addressed(plan, u)
  {
    assert Unwrap(Inbox(after, u)) == Unwrap(Inbox(before, u)) + Addressed(plan, u);
  }

  /**
   * Where the sandbox of a parent is looked up: alone, in the context and then in the cache; in a
   * batch, in the cache only when there is no context. The cache counts only with a known mode.
   */
  lemma ParentsFound(context: Sandboxes, cache: Sandboxes, parent: BlockId, info: SandboxInfo)
    ensures ParentAlone(context, cache, parent) == Some(info) <==>
      || (parent in context && context[parent] == info)
      || (parent !in context && parent in cache && cache[parent] == info &&
          (info.mode == "open" || info.mode == "private"))
    ensures ParentInBatch(context, cache, parent) == Some(info) <==>
      || (parent in context && context[parent] == info)
      || (context == map[] && parent in cache && cache[parent] == info &&
          (info.mode == "open" || info.mode == "private"))
  {
  }

  lemma OneMoreEntry(entries: seq<Entry>, i: nat, context: Sandboxes, cache: Sandboxes, readers: Readers)
    requires i < |entries|
    ensures TouchAll(cache, entries[..i + 1]) == Touch(TouchAll(cache, entries[..i]), entries[i])
    ensures SerialPlan(entries[..i + 1], context, cache, readers) ==
      SerialPlan(entries[..i], context, cache, readers) +
      [(entries[i], ToldAlone(entries[i], context, TouchAll(cache, entries[..i + 1]), readers))]
  {
    assert entries[..i + 1][..i] == entries[..i];
  }

  /** From `before` to `after` every user has been addressed what the plan says, in its order. */
  ghost predicate Addresses(before: Outbox, after: Outbox, plan: Plan) {
    forall u :: Unwrap(Inbox(after, u)) == Unwrap(Inbox(before, u)) + Addressed(plan, u)
  }

  lemma NothingAddressed(outbox: Outbox)
    ensures Addresses(outbox, outbox, [])
  {
  }

  lemma AddressesOneMore(before: Outbox, middle: Outbox, after: Outbox, plan: Plan, e: Entry, told: set<UserId>)
    requires Addresses(before, middle, plan)
    requires forall u :: Inbox(after, u) == Inbox(middle, u) + if u in told then [Single(e)] else []
    ensures Addresses(before, after, plan + [(e, told)])
  {
    forall u ensures Unwrap(Inbox(after, u)) == Unwrap(Inbox(before, u)) + Addressed(plan + [(e, told)], u) {
      ToldOnce(Inbox(middle, u), e, u in told);
      AddressedOneMore(plan, e, told, u);
      assert Unwrap(Inbox(middle, u)) == Unwrap(Inbox(before, u)) + Addressed(plan, u);
    }
  }

  lemma GroupsAddressed(before: Outbox, after: Outbox, userUpdates: map<UserId, seq<Entry>>, plan: Plan)
    requires Groups(userUpdates, plan)
    requires forall u :: Inbox(after, u) == Inbox(before, u) + Wrap(Prior(userUpdates, u))
    ensures forall u :: Inbox(after, u) == Inbox(before, u) + Wrap(Addressed(plan, u))
    ensures Addresses(before, after, plan)
  {
    forall u ensures Inbox(after, u) == Inbox(before, u) + Wrap(Addressed(plan, u)) {
      assert GroupedFor(userUpdates, plan, u);
      assert Prior(userUpdates, u) == Addressed(plan, u);
    }
    WrappedAddresses(before, after, plan);
  }

  lemma WrappedAddresses(before: Outbox, after: Outbox, plan: Plan)
    requires forall u :: Inbox(after, u) == Inbox(before, u) + Wrap(Addressed(plan, u))
    ensures Addresses(before, after, plan)
  {
    forall u ensures Unwrap(Inbox(after, u)) == Unwrap(Inbox(before, u)) + Addressed(plan, u) {
      WrapKeepsUpdates(Inbox(before, u), Addressed(plan, u));
    }
  }

  lemma ToldOnce(sent: seq<Message>, e: Entry, told: bool)
    ensures Unwrap(sent + if told then [Single(e)] else []) == Unwrap(sent) + if told then [e] else []
  {
    if told {
      assert (sent + [Single(e)])[..|sent|] == sent;
    } else {
      assert sent + [] == sent;
    }
  }

  lemma AddressedOneMore(plan: Plan, e: Entry, told: set<UserId>, u: UserId)
    ensures Addressed(plan + [(e, told)], u) == Addressed(plan, u) + if u in told then [e] else []
  {
    assert (plan + [(e, told)])[..|plan|] == plan;
  }

  /** Grouping a user's updates into one message keeps the updates and their order. */
  lemma {:induction false} WrapKeepsUpdates(sent: seq<Message>, updates: seq<Entry>)
    ensures Unwrap(sent + Wrap(updates)) == Unwrap(sent) + updates
  {
    if updates == [] {
      assert sent + [] == sent;
    } else {
      assert (sent + Wrap(updates))[..|sent|] == sent;
    }
  }
}
