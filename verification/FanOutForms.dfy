/** Batched fan-out against one update at a time: when they agree, and what they add up to. */
module FanOutForms {
  import opened SyncStore
  import opened FanOut

  // ---- the batch against one at a time ----

  /** The entries come from a dictionary, so no block occurs twice. */
  ghost predicate DistinctBlocks(entries: seq<Entry>) {
    forall i, j :: 0 <= i < j < |entries| ==> entries[i].block != entries[j].block
  }

  /** Entry `i` is told to the same users in both forms. */
  ghost predicate SameAt(entries: seq<Entry>, context: Sandboxes, cache: Sandboxes, readers: Readers, i: nat)
    requires i < |entries|
  {
    ToldInBatch(entries[i], context, TouchAll(cache, entries), readers) ==
    ToldAlone(entries[i], context, TouchAll(cache, entries[..i + 1]), readers)
  }

  /** Every user is addressed the same updates in the same order, batched or one at a time. */
  ghost predicate FormsAgree(entries: seq<Entry>, context: Sandboxes, cache: Sandboxes, readers: Readers) {
    SameAddressed(BatchPlan(entries, context, TouchAll(cache, entries), readers),
                  SerialPlan(entries, context, cache, readers))
  }

  ghost predicate SameAddressed(p: Plan, q: Plan) {
    forall u :: Addressed(p, u) == Addressed(q, u)
  }

  lemma {:induction false} SerialAt(entries: seq<Entry>, context: Sandboxes, cache: Sandboxes, readers: Readers, i: nat)
    requires i < |entries|
    ensures var plan := SerialPlan(entries, context, cache, readers);
      && |plan| == |entries|
      && plan[i] == (entries[i], ToldAlone(entries[i], context, TouchAll(cache, entries[..i + 1]), readers))
  {
    var n := |entries| - 1;
    assert entries[..n + 1] == entries;
    if i < n {
      SerialAt(entries[..n], context, cache, readers, i);
      assert entries[..n][..i + 1] == entries[..i + 1];
    } else if n > 0 {
      SerialAt(entries[..n], context, cache, readers, 0);
    }
  }

  /** With distinct blocks, a user is addressed entry `i` exactly when the plan names the user there. */
  lemma AddressedHere(plan: Plan, i: nat, u: UserId)
    requires i < |plan| && forall j, k :: 0 <= j < k < |plan| ==> plan[j].0 != plan[k].0
    ensures plan[i].0 in Addressed(plan, u) <==> u in plan[i].1
  {
    AddressedAt(plan, plan[i].0, u);
  }

  lemma PlansDistinct(entries: seq<Entry>, context: Sandboxes, cache: Sandboxes, readers: Readers)
    requires DistinctBlocks(entries)
    ensures var batch := BatchPlan(entries, context, cache, readers);
      var serial := SerialPlan(entries, context, cache, readers);
      && |batch| == |serial| == |entries|
      && (forall j, k :: 0 <= j < k < |batch| ==> batch[j].0 != batch[k].0)
      && (forall j, k :: 0 <= j < k < |serial| ==> serial[j].0 != serial[k].0)
  {
    forall i | 0 <= i < |entries|
      ensures |BatchPlan(entries, context, cache, readers)| == |entries|
      ensures |SerialPlan(entries, context, cache, readers)| == |entries|
      ensures BatchPlan(entries, context, cache, readers)[i].0 == entries[i]
      ensures SerialPlan(entries, context, cache, readers)[i].0 == entries[i]
    {
      BatchAt(entries, context, cache, readers, i);
      SerialAt(entries, context, cache, readers, i);
    }
  }

  /** For any context, cache and modes: the two forms agree exactly when they agree entry by entry. */
  lemma AgreeEntryByEntry(entries: seq<Entry>, context: Sandboxes, cache: Sandboxes, readers: Readers)
    requires DistinctBlocks(entries)
    ensures FormsAgree(entries, context, cache, readers) <==>
      forall i :: 0 <= i < |entries| ==> SameAt(entries, context, cache, readers, i)
  {
    var touched := TouchAll(cache, entries);
    var batch, serial := BatchPlan(entries, context, touched, readers), SerialPlan(entries, context, cache, readers);
    if FormsAgree(entries, context, cache, readers) {
      forall i | 0 <= i < |entries| ensures SameAt(entries, context, cache, readers, i) {
        AgreesAt(entries, context, cache, readers, i);
      }
    }
    if forall i :: 0 <= i < |entries| ==> SameAt(entries, context, cache, readers, i) {
      SamePlans(entries, context, cache, readers);
    }
  }

  lemma AgreesAt(entries: seq<Entry>, context: Sandboxes, cache: Sandboxes, readers: Readers, i: nat)
    requires DistinctBlocks(entries) && FormsAgree(entries, context, cache, readers) && i < |entries|
    ensures SameAt(entries, context, cache, readers, i)
  {
    var touched := TouchAll(cache, entries);
    var batch, serial := BatchPlan(entries, context, touched, readers), SerialPlan(entries, context, cache, readers);
    PlansDistinct(entries, context, touched, readers);
    PlansDistinct(entries, context, cache, readers);
    BatchAt(entries, context, touched, readers, i);
    SerialAt(entries, context, cache, readers, i);
    forall u ensures u in batch[i].1 <==> u in serial[i].1 {
      AddressedHere(batch, i, u);
      AddressedHere(serial, i, u);
      assert Addressed(batch, u) == Addressed(serial, u);
    }
  }

  lemma SamePlans(entries: seq<Entry>, context: Sandboxes, cache: Sandboxes, readers: Readers)
    requires forall i :: 0 <= i < |entries| ==> SameAt(entries, context, cache, readers, i)
    ensures BatchPlan(entries, context, TouchAll(cache, entries), readers) ==
            SerialPlan(entries, context, cache, readers)
  {
    var touched := TouchAll(cache, entries);
    var batch, serial := BatchPlan(entries, context, touched, readers), SerialPlan(entries, context, cache, readers);
    if entries != [] {
      BatchAt(entries, context, touched, readers, 0);
      SerialAt(entries, context, cache, readers, 0);
    }
    forall i | 0 <= i < |entries| ensures |batch| == |serial| == |entries| && batch[i] == serial[i] {
      BatchAt(entries, context, touched, readers, i);
      SerialAt(entries, context, cache, readers, i);
      assert SameAt(entries, context, cache, readers, i);
    }
  }

  // ---- with a context ----

  /** The cached sandbox of an unnamed parent hides the entry from some subscriber. */
  ghost predicate Overlooked(e: Entry, context: Sandboxes, cache: Sandboxes, readers: Readers) {
    && e.data.parent != "" && e.data.parent !in context
    && exists u :: u in Members(readers, e.block) && Hidden(u, e.data, Cached(cache, e.data.parent))
  }

  /**
   * With a context, the batch agrees with one-at-a-time handling exactly when no entry has a parent
   * that the context omits while the cache, as the entries up to this one leave it, hides the entry
   * from a subscriber.
   */
  lemma AgreesWithContext(entries: seq<Entry>, context: Sandboxes, cache: Sandboxes, readers: Readers)
    requires DistinctBlocks(entries) && context != map[]
    ensures FormsAgree(entries, context, cache, readers) <==>
      forall i :: 0 <= i < |entries| ==> !Overlooked(entries[i], context, TouchAll(cache, entries[..i + 1]), readers)
  {
    AgreeEntryByEntry(entries, context, cache, readers);
    forall i | 0 <= i < |entries|
      ensures SameAt(entries, context, cache, readers, i) <==>
        !Overlooked(entries[i], context, TouchAll(cache, entries[..i + 1]), readers)
    {
      ContextTold(entries[i], context, TouchAll(cache, entries), TouchAll(cache, entries[..i + 1]), readers);
    }
  }

  lemma ContextTold(e: Entry, context: Sandboxes, touched: Sandboxes, cache: Sandboxes, readers: Readers)
    requires context != map[]
    ensures ToldInBatch(e, context, touched, readers) == ToldAlone(e, context, cache, readers) <==>
      !Overlooked(e, context, cache, readers)
  {
    var parent, subscribers := e.data.parent, Members(readers, e.block);
    var x, y := ParentInBatch(context, touched, parent), ParentAlone(context, cache, parent);
    RecipientsDiffer(subscribers, e.data, x, y);
    if parent in context {
      assert x == y;
    } else {
      assert y == Cached(cache, parent) && forall u :: !Hidden(u, e.data, x);
      if u :| u in subscribers && Hidden(u, e.data, y) {
        assert Hidden(u, e.data, x) != Hidden(u, e.data, y);
      }
    }
  }

  /** Two views of the parent give the same recipients exactly when no subscriber tells them apart. */
  lemma RecipientsDiffer(subscribers: set<UserId>, data: BlockData, x: Option<SandboxInfo>, y: Option<SandboxInfo>)
    ensures Recipients(subscribers, data, x) == Recipients(subscribers, data, y) <==>
      data.parent == "" || forall u :: u in subscribers ==> Hidden(u, data, x) == Hidden(u, data, y)
  {
    if data.parent != "" {
      assert forall u :: u in Recipients(subscribers, data, x) <==> u in subscribers && !Hidden(u, data, x);
      assert forall u :: u in Recipients(subscribers, data, y) <==> u in subscribers && !Hidden(u, data, y);
    }
  }

  // ---- without a context ----

  /** What the cache says about a block once its entry has been handled. */
  function Announced(e: Entry): Option<SandboxInfo> {
    if KnownMode(e.data.mode) then Some(SandboxInfo(e.data.mode, e.data.creator)) else None
  }

  /** `later` changes the sandbox of the parent of `e`, and some subscriber of `e` can tell the difference. */
  ghost predicate LateMode(e: Entry, later: Entry, cache: Sandboxes, readers: Readers) {
    && e.data.parent != "" && later.block == e.data.parent && later.data.mode != ""
    && exists u :: u in Members(readers, e.block) &&
         Hidden(u, e.data, Cached(cache, e.data.parent)) != Hidden(u, e.data, Announced(later))
  }

  /**
   * Without a context, the two forms agree exactly when no parent that carries a mode comes after a
   * child whose recipients its old and its new sandbox entry tell apart.
   */
  lemma AgreesWithoutContext(entries: seq<Entry>, cache: Sandboxes, readers: Readers)
    requires DistinctBlocks(entries)
    ensures FormsAgree(entries, map[], cache, readers) <==>
      forall i, j :: 0 <= i < j < |entries| ==> !LateMode(entries[i], entries[j], cache, readers)
  {
    AgreeEntryByEntry(entries, map[], cache, readers);
    forall i | 0 <= i < |entries|
      ensures SameAt(entries, map[], cache, readers, i) <==>
        forall j :: i < j < |entries| ==> !LateMode(entries[i], entries[j], cache, readers)
    {
      SameWithoutContext(entries, cache, readers, i);
    }
  }

  lemma SameWithoutContext(entries: seq<Entry>, cache: Sandboxes, readers: Readers, i: nat)
    requires DistinctBlocks(entries) && i < |entries|
    ensures SameAt(entries, map[], cache, readers, i) <==>
      forall j :: i < j < |entries| ==> !LateMode(entries[i], entries[j], cache, readers)
  {
    var e := entries[i];
    var parent := e.data.parent;
    var soon, late := TouchAll(cache, entries[..i + 1]), TouchAll(cache, entries);
    RecipientsDiffer(Members(readers, e.block), e.data, Cached(late, parent), Cached(soon, parent));
    assert entries[..|entries|] == entries;
    if j :| i < j < |entries| && entries[j].block == parent && entries[j].data.mode != "" {
      TouchedBy(cache, entries, j, |entries|);
      Untouched(cache, entries, parent, 0, i + 1);
      assert entries[..0] == [];
    } else {
      Untouched(cache, entries, parent, i + 1, |entries|);
    }
  }

  /** Handling entries other than that of `b` leaves the cached sandbox of `b`. */
  lemma {:induction false} Untouched(cache: Sandboxes, entries: seq<Entry>, b: BlockId, i: nat, k: nat)
    requires i <= k <= |entries|
    requires forall j :: i <= j < k ==> entries[j].block != b || entries[j].data.mode == ""
    ensures Cached(TouchAll(cache, entries[..k]), b) == Cached(TouchAll(cache, entries[..i]), b)
    decreases k
  {
    if i < k {
      Untouched(cache, entries, b, i, k - 1);
      assert entries[..k][..k - 1] == entries[..k - 1];
    }
  }

  lemma TouchedBy(cache: Sandboxes, entries: seq<Entry>, j: nat, k: nat)
    requires DistinctBlocks(entries) && j < k <= |entries| && entries[j].data.mode != ""
    ensures Cached(TouchAll(cache, entries[..k]), entries[j].block) == Announced(entries[j])
  {
    Untouched(cache, entries, entries[j].block, j + 1, k);
    assert entries[..j + 1][..j] == entries[..j];
  }

  // ---- together ----

  /** No subscriber of any entry is told in one form and not in the other. */
  ghost predicate NobodyCanTell(entries: seq<Entry>, context: Sandboxes, cache: Sandboxes, readers: Readers) {
    if context != map[] then
      forall i :: 0 <= i < |entries| ==> !Overlooked(entries[i], context, TouchAll(cache, entries[..i + 1]), readers)
    else
      forall i, j :: 0 <= i < j < |entries| ==> !LateMode(entries[i], entries[j], cache, readers)
  }

  /** The exact condition under which the batch addresses everyone what one-at-a-time handling does. */
  lemma BatchAgreesExactly(entries: seq<Entry>, context: Sandboxes, cache: Sandboxes, readers: Readers)
    requires DistinctBlocks(entries)
    ensures FormsAgree(entries, context, cache, readers) <==> NobodyCanTell(entries, context, cache, readers)
  {
    if context != map[] {
      AgreesWithContext(entries, context, cache, readers);
    } else {
      AgreesWithoutContext(entries, cache, readers);
    }
  }

  ghost predicate NamesParents(context: Sandboxes, entries: seq<Entry>) {
    forall e :: e in entries && e.data.parent != "" ==> e.data.parent in context
  }

  /** No entry changes the sandbox cache. */
  ghost predicate NoModes(entries: seq<Entry>) {
    forall e :: e in entries ==> e.data.mode == ""
  }

  /** Two simple cases in which the plans are equal: a context that names every parent, or neither context nor modes. */
  lemma BatchIsSerial(entries: seq<Entry>, context: Sandboxes, cache: Sandboxes, readers: Readers)
    requires (context != map[] && NamesParents(context, entries)) || (context == map[] && NoModes(entries))
    ensures BatchPlan(entries, context, TouchAll(cache, entries), readers) ==
            SerialPlan(entries, context, cache, readers)
  {
    forall i | 0 <= i < |entries| ensures SameAt(entries, context, cache, readers, i) {
      assert entries[i] in entries;
      if context == map[] {
        forall j | i + 1 <= j < |entries| ensures entries[j].data.mode == "" {
          assert entries[j] in entries;
        }
        Untouched(cache, entries, entries[i].data.parent, i + 1, |entries|);
        assert entries[..|entries|] == entries;
      }
    }
    SamePlans(entries, context, cache, readers);
  }

  /**
   * A batch for which the forms differ: the child comes before the parent that becomes private, so
   * one at a time a reader is told about it whom the batch leaves out.
   */
  lemma LateParentDiffers()
    ensures var child := Entry("c", BlockData("p", "x", "", map[]));
      var parent := Entry("p", BlockData("", "x", "private", map[]));
      var readers: Readers := map["c" := {"y"}];
      && Addressed(SerialPlan([child, parent], map[], map[], readers), "y") == [child]
      && Addressed(BatchPlan([child, parent], map[], TouchAll(map[], [child, parent]), readers), "y") == []
  {
    var child := Entry("c", BlockData("p", "x", "", map[]));
    var parent := Entry("p", BlockData("", "x", "private", map[]));
    var readers: Readers := map["c" := {"y"}];
    var both := [child, parent];
    assert both[..1] == [child] && [child][..0] == [];
    var touched := TouchAll(map[], both);
    assert TouchAll(map[], [child]) == Touch(TouchAll(map[], [child][..0]), child) == map[];
    assert touched == Touch(TouchAll(map[], both[..1]), parent);
    assert Cached(touched, "p") == Some(SandboxInfo("private", "x"));
    assert "y" !in ToldInBatch(child, map[], touched, readers);
    assert "y" in ToldAlone(child, map[], TouchAll(map[], [child]), readers);
    BatchPlanTwo(child, parent, map[], touched, readers);
    SerialPlanTwo(child, parent, map[], map[], readers);
    AddressedTwo(child, ToldInBatch(child, map[], touched, readers),
                 parent, ToldInBatch(parent, map[], touched, readers), "y");
    AddressedTwo(child, ToldAlone(child, map[], TouchAll(map[], [child]), readers),
                 parent, ToldAlone(parent, map[], touched, readers), "y");
  }

  lemma AddressedTwo(e: Entry, x: set<UserId>, f: Entry, y: set<UserId>, u: UserId)
    ensures Addressed([(e, x), (f, y)], u) == (if u in x then [e] else []) + (if u in y then [f] else [])
  {
    AddressedOneMore([(e, x)], f, y, u);
    AddressedOneMore([], e, x, u);
    assert [] + [(e, x)] == [(e, x)] && [(e, x)] + [(f, y)] == [(e, x), (f, y)];
  }

  /**
   * With a context that names another parent only, the single handler finds the cached private sandbox
   * and leaves the reader out, while the batch tells them.
   */
  lemma OverlookedDiffers()
    ensures var child := Entry("c", BlockData("p", "x", "", map[]));
      var context: Sandboxes := map["q" := SandboxInfo("open", "x")];
      var cache: Sandboxes := map["p" := SandboxInfo("private", "x")];
      var readers: Readers := map["c" := {"y"}];
      && Addressed(SerialPlan([child], context, cache, readers), "y") == []
      && Addressed(BatchPlan([child], context, TouchAll(cache, [child]), readers), "y") == [child]
  {
    var child := Entry("c", BlockData("p", "x", "", map[]));
    var context: Sandboxes := map["q" := SandboxInfo("open", "x")];
    var cache: Sandboxes := map["p" := SandboxInfo("private", "x")];
    var readers: Readers := map["c" := {"y"}];
    assert "q" in context;
    assert "p"[0] != "q"[0] && "x"[0] != "y"[0];
    OneEntry(child, context, cache, readers, "y");
    assert "y" in ToldInBatch(child, context, cache, readers);
    assert "y" !in ToldAlone(child, context, cache, readers);
  }

  /** A batch of one entry that carries no mode. */
  lemma OneEntry(e: Entry, context: Sandboxes, cache: Sandboxes, readers: Readers, u: UserId)
    requires e.data.mode == ""
    ensures Addressed(BatchPlan([e], context, TouchAll(cache, [e]), readers), u) ==
      if u in ToldInBatch(e, context, cache, readers) then [e] else []
    ensures Addressed(SerialPlan([e], context, cache, readers), u) ==
      if u in ToldAlone(e, context, cache, readers) then [e] else []
  {
    TouchOne(cache, e);
    BatchPlanOne(e, context, cache, readers);
    SerialPlanOne(e, context, cache, readers);
    AddressedOne(e, ToldInBatch(e, context, cache, readers), u);
    AddressedOne(e, ToldAlone(e, context, cache, readers), u);
  }

  lemma AddressedOne(e: Entry, told: set<UserId>, u: UserId)
    ensures Addressed([(e, told)], u) == if u in told then [e] else []
  {
    AddressedOneMore([], e, told, u);
    assert [] + [(e, told)] == [(e, told)];
  }

  lemma TouchOne(cache: Sandboxes, e: Entry)
    ensures TouchAll(cache, [e]) == Touch(cache, e)
  {
    assert [e][..0] == [];
  }

  lemma BatchPlanOne(e: Entry, context: Sandboxes, touched: Sandboxes, readers: Readers)
    ensures BatchPlan([e], context, touched, readers) == [(e, ToldInBatch(e, context, touched, readers))]
  {
    BatchAt([e], context, touched, readers, 0);
  }

  lemma SerialPlanOne(e: Entry, context: Sandboxes, cache: Sandboxes, readers: Readers)
    ensures SerialPlan([e], context, cache, readers) == [(e, ToldAlone(e, context, TouchAll(cache, [e]), readers))]
  {
    SerialAt([e], context, cache, readers, 0);
    assert [e][..1] == [e];
  }

  lemma BatchPlanTwo(e: Entry, f: Entry, context: Sandboxes, touched: Sandboxes, readers: Readers)
    ensures BatchPlan([e, f], context, touched, readers) ==
      [(e, ToldInBatch(e, context, touched, readers)), (f, ToldInBatch(f, context, touched, readers))]
  {
    BatchAt([e, f], context, touched, readers, 0);
    BatchAt([e, f], context, touched, readers, 1);
  }

  lemma SerialPlanTwo(e: Entry, f: Entry, context: Sandboxes, cache: Sandboxes, readers: Readers)
    ensures SerialPlan([e, f], context, cache, readers) ==
      [(e, ToldAlone(e, context, TouchAll(cache, [e]), readers)),
       (f, ToldAlone(f, context, TouchAll(cache, [e, f]), readers))]
  {
    SerialAt([e, f], context, cache, readers, 0);
    SerialAt([e, f], context, cache, readers, 1);
    assert [e, f][..1] == [e] && [e, f][..2] == [e, f];
  }

  /** When a user is addressed an entry, in either form and for any context, cache and modes. */
  lemma PlanMentions(entries: seq<Entry>, context: Sandboxes, cache: Sandboxes, readers: Readers, e: Entry, u: UserId)
    ensures e in Addressed(BatchPlan(entries, context, cache, readers), u) <==>
      e in entries && u in ToldInBatch(e, context, cache, readers)
    ensures e in Addressed(SerialPlan(entries, context, cache, readers), u) <==>
      exists i :: 0 <= i < |entries| && entries[i] == e &&
        u in ToldAlone(e, context, TouchAll(cache, entries[..i + 1]), readers)
  {
    var batch, serial := BatchPlan(entries, context, cache, readers), SerialPlan(entries, context, cache, readers);
    forall i | 0 <= i < |entries|
      ensures |batch| == |entries| && batch[i] == (entries[i], ToldInBatch(entries[i], context, cache, readers))
      ensures |serial| == |entries|
      ensures serial[i] == (entries[i], ToldAlone(entries[i], context, TouchAll(cache, entries[..i + 1]), readers))
    {
      BatchAt(entries, context, cache, readers, i);
      SerialAt(entries, context, cache, readers, i);
    }
    AddressedAt(batch, e, u);
    AddressedAt(serial, e, u);
  }

  /** Every user has been addressed the same updates, however grouped. */
  ghost predicate SameUpdates(x: Outbox, y: Outbox) {
    forall u :: Unwrap(Inbox(x, u)) == Unwrap(Inbox(y, u))
  }

  lemma SameFrom(x: Outbox, y: Outbox, x': Outbox, y': Outbox, p: Plan, q: Plan)
    requires SameUpdates(x, y) && Addresses(x, x', p) && Addresses(y, y', q)
    ensures SameUpdates(x', y') <==> SameAddressed(p, q)
  {
    if SameUpdates(x', y') {
      forall u ensures Addressed(p, u) == Addressed(q, u) {
        SameFromAt(x, y, x', y', p, q, u);
      }
    }
    if SameAddressed(p, q) {
      forall u ensures Unwrap(Inbox(x', u)) == Unwrap(Inbox(y', u)) {
        SameFromAt(x, y, x', y', p, q, u);
      }
    }
  }

  lemma SameFromAt(x: Outbox, y: Outbox, x': Outbox, y': Outbox, p: Plan, q: Plan, u: UserId)
    requires SameUpdates(x, y) && Addresses(x, x', p) && Addresses(y, y', q)
    ensures Unwrap(Inbox(x', u)) == Unwrap(Inbox(y', u)) <==> Addressed(p, u) == Addressed(q, u)
  {
    var common := Unwrap(Inbox(x, u));
    assert Unwrap(Inbox(y, u)) == common;
    assert Unwrap(Inbox(x', u))[|common|..] == Addressed(p, u);
    assert Unwrap(Inbox(y', u))[|common|..] == Addressed(q, u);
  }

  /**
   * The two forms side by side: the batch leaves every user with the same updates in the same order
   * as the single handler run on each entry, exactly when no subscriber can tell a difference.
   */
  method BatchAgainstSingles(batch: Notifier, singles: Notifier, entries: seq<Entry>, context: Sandboxes)
    requires batch != singles && batch.sandbox == singles.sandbox && batch.readers == singles.readers
    requires SameUpdates(batch.outbox, singles.outbox)
    requires DistinctBlocks(entries)
    modifies batch`sandbox, batch`outbox, singles`sandbox, singles`outbox
    ensures batch.sandbox == singles.sandbox
    ensures SameUpdates(batch.outbox, singles.outbox) <==>
      NobodyCanTell(entries, context, old(batch.sandbox), batch.readers)
  {
    ghost var cache, readers := batch.sandbox, batch.readers;
    ghost var x, y := batch.outbox, singles.outbox;
    batch.UpdateBlocks(entries, context);
    singles.UpdateEach(entries, context);
    SameFrom(x, y, batch.outbox, singles.outbox, BatchPlan(entries, context, batch.sandbox, readers),
             SerialPlan(entries, context, cache, readers));
    assert SameUpdates(batch.outbox, singles.outbox) <==> FormsAgree(entries, context, cache, readers);
    BatchAgreesExactly(entries, context, cache, readers);
  }

  // ---- counting ----

  /** How many updates the users of the set are addressed in all. */
  ghost function Total(users: set<UserId>, plan: Plan): nat {
    if users == {} then 0
    else
      var u :| u in users;
      |Addressed(plan, u)| + Total(users - {u}, plan)
  }

  function SumOfSizes(plan: Plan): nat {
    if plan == [] then 0 else SumOfSizes(plan[..|plan| - 1]) + |plan[|plan| - 1].1|
  }

  lemma {:induction false} TotalOneMore(users: set<UserId>, plan: Plan, e: Entry, told: set<UserId>)
    ensures Total(users, plan + [(e, told)]) == Total(users, plan) + |told * users|
  {
    if users == {} {
      assert told * users == {};
    } else {
      var u :| u in users;
      TotalAny(users, plan + [(e, told)], u);
      TotalAny(users, plan, u);
      AddressedOneMore(plan, e, told, u);
      TotalOneMore(users - {u}, plan, e, told);
      if u in told {
        assert told * users == told * (users - {u}) + {u};
      } else {
        assert told * users == told * (users - {u});
      }
    }
  }

  lemma {:induction false} TotalAny(users: set<UserId>, plan: Plan, u: UserId)
    requires u in users
    ensures Total(users, plan) == |Addressed(plan, u)| + Total(users - {u}, plan)
  {
    var v :| v in users && Total(users, plan) == |Addressed(plan, v)| + Total(users - {v}, plan);
    if v != u {
      TotalAny(users - {v}, plan, u);
      TotalAny(users - {u}, plan, v);
      assert users - {v} - {u} == users - {u} - {v};
    }
  }

  lemma {:induction false} TotalOfNothing(users: set<UserId>)
    ensures Total(users, []) == 0
  {
    if users != {} {
      var v :| v in users;
      TotalAny(users, [], v);
      TotalOfNothing(users - {v});
    }
  }

  /** Nothing is lost or doubled: the updates addressed add up to the sizes of the recipient sets. */
  lemma {:induction false} UpdatesAddUp(users: set<UserId>, plan: Plan)
    requires forall p :: p in plan ==> p.1 <= users
    ensures Total(users, plan) == SumOfSizes(plan)
  {
    if plan == [] {
      TotalOfNothing(users);
    } else {
      var n := |plan| - 1;
      assert plan[n] in plan;
      UpdatesAddUp(users, plan[..n]);
      TotalOneMore(users, plan[..n], plan[n].0, plan[n].1);
      assert plan == plan[..n] + [(plan[n].0, plan[n].1)];
      assert plan[n].1 * users == plan[n].1;
    }
  }

  /** How many updates the dictionary of a batch holds. */
  ghost function Size(userUpdates: map<UserId, seq<Entry>>): nat {
    if userUpdates == map[] then 0
    else
      var u :| u in userUpdates;
      |userUpdates[u]| + Size(userUpdates - {u})
  }

  /** The sizes of the recipient sets of a batch, added up. */
  function RecipientCount(entries: seq<Entry>, context: Sandboxes, cache: Sandboxes, readers: Readers): nat {
    if entries == [] then 0
    else
      var n := |entries| - 1;
      RecipientCount(entries[..n], context, cache, readers) + |ToldInBatch(entries[n], context, cache, readers)|
  }

  lemma {:induction false} SizeIsTotal(userUpdates: map<UserId, seq<Entry>>, plan: Plan)
    requires forall u :: u in userUpdates ==> userUpdates[u] == Addressed(plan, u)
    ensures Size(userUpdates) == Total(userUpdates.Keys, plan)
  {
    if userUpdates != map[] {
      var u :| u in userUpdates && Size(userUpdates) == |userUpdates[u]| + Size(userUpdates - {u});
      SizeIsTotal(userUpdates - {u}, plan);
      assert (userUpdates - {u}).Keys == userUpdates.Keys - {u};
      TotalAny(userUpdates.Keys, plan, u);
    }
  }

  lemma {:induction false} CountIsSum(entries: seq<Entry>, context: Sandboxes, cache: Sandboxes, readers: Readers)
    ensures SumOfSizes(BatchPlan(entries, context, cache, readers)) == RecipientCount(entries, context, cache, readers)
  {
    if entries != [] {
      var n := |entries| - 1;
      CountIsSum(entries[..n], context, cache, readers);
      var before := BatchPlan(entries[..n], context, cache, readers);
      assert BatchPlan(entries, context, cache, readers)[..|before|] == before;
    }
  }

  /** The dictionary of a batch holds as many updates as its entries have recipients, over all users. */
  lemma BatchAddsUp(userUpdates: map<UserId, seq<Entry>>, entries: seq<Entry>, context: Sandboxes, cache: Sandboxes,
                    readers: Readers)
    requires Groups(userUpdates, BatchPlan(entries, context, cache, readers))
    ensures Size(userUpdates) == RecipientCount(entries, context, cache, readers)
  {
    var plan := BatchPlan(entries, context, cache, readers);
    forall i | 0 <= i < |plan| ensures plan[i].1 <= userUpdates.Keys {
      forall u | u in plan[i].1 ensures u in userUpdates {
        AddressedAt(plan, plan[i].0, u);
        assert GroupedFor(userUpdates, plan, u);
      }
    }
    forall u | u in userUpdates ensures userUpdates[u] == Addressed(plan, u) {
      assert GroupedFor(userUpdates, plan, u);
    }
    UpdatesAddUp(userUpdates.Keys, plan);
    SizeIsTotal(userUpdates, plan);
    CountIsSum(entries, context, cache, readers);
  }
}
