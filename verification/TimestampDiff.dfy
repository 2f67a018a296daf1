/** The timestamp-based reader (v1): the client lists its blocks, the server answers the difference. */
module TimestampDiff {
  import opened SyncStore
  import opened SyncReader
  import opened ChangelogCodec

  /** One entry of the request; `stamp` is None when it is missing or not a number. */
  datatype Claim = Claim(id: Option<BlockId>, stamp: Option<int>)

  datatype DiffReason = NothingSubscribed | NothingValid

  /** New blocks have no order: the handler lists a set difference. */
  datatype Diff = Diff(updates: seq<Update>, newBlocks: Rows, resync: Option<DiffReason>)

  /** The state each read of one request happens to see. */
  datatype Sights = Sights(subs: Store, row: BlockId -> Store, newRow: BlockId -> Store)

  /** An integer in decimal, with an optional minus sign. */
  function ParseInt(s: string): Option<int> {
    if s != "" && s[0] == '-' then
      (if IsDigits(s[1..]) then Some(-Numeral(s[1..])) else None)
    else if IsDigits(s) then Some(Numeral(s))
    else None
  }

  predicate IsDigits(s: string) {
    s != "" && forall c :: c in s ==> '0' <= c <= '9'
  }

  /** The server time of a row: zero when the field is missing, None when it is not a number. */
  function Time(row: Row): Option<int> {
    if "updated_at" in row then ParseInt(row["updated_at"]) else Some(0)
  }

  function Stamp(c: Claim): int {
    if c.stamp.Some? then c.stamp.value else 0
  }

  // ---- what the answer is meant to be ----

  /** The client's time per subscribed block; a repeated id counts with its last entry. */
  function ValidStamps(claims: seq<Claim>, subs: set<BlockId>): map<BlockId, int> {
    if claims == [] then map[]
    else
      var n := |claims| - 1;
      var before := ValidStamps(claims[..n], subs);
      if claims[n].id.Some? && claims[n].id.value in subs then before[claims[n].id.value := Stamp(claims[n])]
      else before
  }

  /** The subscribed ids in order of first mention. */
  function ValidOrder(claims: seq<Claim>, subs: set<BlockId>): seq<BlockId> {
    if claims == [] then []
    else
      var n := |claims| - 1;
      var before := ValidOrder(claims[..n], subs);
      if claims[n].id.Some? && claims[n].id.value in subs && claims[n].id.value !in before
      then before + [claims[n].id.value]
      else before
  }

  function Unsubscribed(claims: seq<Claim>, subs: set<BlockId>): seq<BlockId> {
    if claims == [] then []
    else
      var n := |claims| - 1;
      Unsubscribed(claims[..n], subs) +
      match claims[n].id
      case Some(b) => if b !in subs && b != "" then [b] else []
      case None => []
  }

  /** The row is present, its time is a number, and it is later than the client's. */
  predicate IsNewer(s: Store, b: BlockId, stamp: int) {
    b in s.rows && Time(s.rows[b]).Some? && Time(s.rows[b]).value > stamp
  }

  function NewerRows(at: Sights, ids: seq<BlockId>, stamps: map<BlockId, int>): seq<Update>
    requires forall b :: b in ids ==> b in stamps
  {
    if ids == [] then []
    else
      var n := |ids| - 1;
      NewerRows(at, ids[..n], stamps) +
      if IsNewer(at.row(ids[n]), ids[n], stamps[ids[n]]) then [Current(ids[n], at.row(ids[n]).rows[ids[n]])] else []
  }

  function Removals(ids: seq<BlockId>): seq<Update> {
    seq(|ids|, i requires 0 <= i < |ids| => Deleted(ids[i]))
  }

  function NewRows(at: Sights, ids: set<BlockId>): Rows {
    map b | b in ids && b in at.newRow(b).rows :: at.newRow(b).rows[b]
  }

  ghost predicate Distinct(ids: seq<BlockId>) {
    forall i, j :: 0 <= i < j < |ids| ==> ids[i] != ids[j]
  }

  lemma {:induction false} ValidDomain(claims: seq<Claim>, subs: set<BlockId>)
    ensures forall b :: b in ValidOrder(claims, subs) <==> b in ValidStamps(claims, subs)
    ensures ValidStamps(claims, subs).Keys <= subs
    ensures Distinct(ValidOrder(claims, subs))
  {
    if claims != [] {
      ValidDomain(claims[..|claims| - 1], subs);
    }
  }

  ghost function DiffAnswer(at: Sights, user: UserId, claims: seq<Claim>): Diff {
    var subs := Members(at.subs.subs, user);
    var stamps := ValidStamps(claims, subs);
    if subs == {} then Diff([], map[], Some(NothingSubscribed))
    else if stamps == map[] then Diff([], map[], Some(NothingValid))
    else
      ValidDomain(claims, subs);
      Diff(NewerRows(at, ValidOrder(claims, subs), stamps) + Removals(Unsubscribed(claims, subs)),
           NewRows(at, subs - stamps.Keys), None)
  }

  // ---- the loops ----

  /** `handle_get_updates` up to sending the response. */
  method HandleGetUpdates(at: Sights, user: UserId, claims: seq<Claim>, portion: nat) returns (r: Diff)
    requires portion > 0
    ensures r == DiffAnswer(at, user, claims)
  {
    var subs := Members(at.subs.subs, user);
    if subs == {} {
      return Diff([], map[], Some(NothingSubscribed));
    }
    var stamps, order, unsubscribed := SortClaims(claims, subs);
    if stamps == map[] {
      return Diff([], map[], Some(NothingValid));
    }
    ValidDomain(claims, subs);
    var updates := ReadNewer(at, order, stamps, portion);
    updates := AddRemovals(updates, unsubscribed);
    var newBlocks := ReadNew(at, subs - stamps.Keys);
    r := Diff(updates, newBlocks, None);
  }

  /** Marks the unsubscribed blocks as deleted. */
  method AddRemovals(updates: seq<Update>, unsubscribed: seq<BlockId>) returns (r: seq<Update>)
    ensures r == updates + Removals(unsubscribed)
  {
    r := updates;
    for i := 0 to |unsubscribed|
      invariant r == updates + Removals(unsubscribed[..i])
    {
      r := r + [Deleted(unsubscribed[i])];
      assert Removals(unsubscribed[..i + 1]) == Removals(unsubscribed[..i]) + [Deleted(unsubscribed[i])];
    }
    assert unsubscribed[..|unsubscribed|] == unsubscribed;
  }

  /** Splits the request into subscribed blocks with their times and unsubscribed ids. */
  method SortClaims(claims: seq<Claim>, subs: set<BlockId>)
    returns (stamps: map<BlockId, int>, order: seq<BlockId>, unsubscribed: seq<BlockId>)
    ensures stamps == ValidStamps(claims, subs)
    ensures order == ValidOrder(claims, subs)
    ensures unsubscribed == Unsubscribed(claims, subs)
  {
    stamps, order, unsubscribed := map[], [], [];
    for i := 0 to |claims|
      invariant stamps == ValidStamps(claims[..i], subs)
      invariant order == ValidOrder(claims[..i], subs)
      invariant unsubscribed == Unsubscribed(claims[..i], subs)
    {
      assert claims[..i + 1][..i] == claims[..i];
      ValidDomain(claims[..i], subs);
      if claims[i].id.Some? {
        var b := claims[i].id.value;
        if b in subs {
          if b !in stamps {
            order := order + [b];
          }
          stamps := stamps[b := Stamp(claims[i])];
        } else if b != "" {
          unsubscribed := unsubscribed + [b];
        }
      }
    }
    assert claims[..|claims|] == claims;
  }

  /** Reads the rows chunk by chunk and keeps those that are newer than the client's. */
  method ReadNewer(at: Sights, order: seq<BlockId>, stamps: map<BlockId, int>,
                   portion: nat) returns (updates: seq<Update>)
    requires portion > 0 && forall b :: b in order ==> b in stamps
    ensures updates == NewerRows(at, order, stamps)
    ensures forall b :: b in order ==>
      (Current(b, if b in at.row(b).rows then at.row(b).rows[b] else map[]) in updates <==>
        && b in at.row(b).rows && Time(at.row(b).rows[b]).Some? && stamps[b] < Time(at.row(b).rows[b]).value)
  {
    updates := [];
    var start := 0;
    while start < |order|
      invariant 0 <= start
      invariant updates == NewerRows(at, order[..Least(start, |order|)], stamps)
    {
      var stop := Least(start + portion, |order|);
      var found := ReadChunk(at, order[start..stop], stamps);
      NextChunk(at, order, start, stop, stamps);
      updates := updates + found;
      start := start + portion;
    }
    assert order[..|order|] == order;
    forall b | b in order
      ensures Current(b, if b in at.row(b).rows then at.row(b).rows[b] else map[]) in updates <==>
        && b in at.row(b).rows && Time(at.row(b).rows[b]).Some? && stamps[b] < Time(at.row(b).rows[b]).value
    {
      NewerRowsHas(at, order, stamps, b);
    }
  }

  /** The row of a listed block is sent exactly when its time is a number above the client's. */
  lemma {:induction false} NewerRowsHas(at: Sights, ids: seq<BlockId>, stamps: map<BlockId, int>, b: BlockId)
    requires (forall x :: x in ids ==> x in stamps) && b in ids
    ensures Current(b, if b in at.row(b).rows then at.row(b).rows[b] else map[]) in NewerRows(at, ids, stamps) <==>
      && b in at.row(b).rows && Time(at.row(b).rows[b]).Some? && stamps[b] < Time(at.row(b).rows[b]).value
  {
    var n := |ids| - 1;
    if b in ids[..n] {
      NewerRowsHas(at, ids[..n], stamps, b);
    } else {
      NewerRowsAbsent(at, ids[..n], stamps, b);
      assert ids == ids[..n] + [ids[n]];
    }
  }

  lemma {:induction false} NewerRowsAbsent(at: Sights, ids: seq<BlockId>, stamps: map<BlockId, int>, b: BlockId)
    requires (forall x :: x in ids ==> x in stamps) && b !in ids
    ensures forall u :: u in NewerRows(at, ids, stamps) ==> u.block != b
  {
    if ids != [] {
      NewerRowsAbsent(at, ids[..|ids| - 1], stamps, b);
    }
  }

  lemma NextChunk(at: Sights, order: seq<BlockId>, start: nat, stop: nat, stamps: map<BlockId, int>)
    requires start <= stop <= |order| && forall b :: b in order ==> b in stamps
    ensures NewerRows(at, order[..stop], stamps) ==
      NewerRows(at, order[..start], stamps) + NewerRows(at, order[start..stop], stamps)
  {
    assert order[..start] + order[start..stop] == order[..stop];
    NewerRowsConcat(at, order[..start], order[start..stop], stamps);
  }

  method ReadChunk(at: Sights, chunk: seq<BlockId>, stamps: map<BlockId, int>) returns (updates: seq<Update>)
    requires forall b :: b in chunk ==> b in stamps
    ensures updates == NewerRows(at, chunk, stamps)
  {
    updates := [];
    for i := 0 to |chunk|
      invariant updates == NewerRows(at, chunk[..i], stamps)
    {
      var b := chunk[i];
      assert chunk[..i + 1][..i] == chunk[..i];
      var s := at.row(b);
      if b in s.rows {
        var time := Time(s.rows[b]);
        if time.Some? && time.value > stamps[b] {
          updates := updates + [Current(b, s.rows[b])];
        }
      }
    }
    assert chunk[..|chunk|] == chunk;
  }

  lemma {:induction false} NewerRowsConcat(at: Sights, x: seq<BlockId>, y: seq<BlockId>, stamps: map<BlockId, int>)
    requires forall b :: b in x + y ==> b in stamps
    ensures NewerRows(at, x + y, stamps) == NewerRows(at, x, stamps) + NewerRows(at, y, stamps)
  {
    if y == [] {
      assert x + y == x;
    } else {
      var n := |y| - 1;
      assert (x + y)[..|x + y| - 1] == x + y[..n];
      NewerRowsConcat(at, x, y[..n], stamps);
    }
  }

  method ReadNew(at: Sights, ids: set<BlockId>) returns (rows: Rows)
    ensures rows == NewRows(at, ids)
  {
    rows := map[];
    var done := {};
    while ids - done != {}
      invariant done <= ids && rows == NewRows(at, done)
      decreases ids - done
    {
      var b :| b in ids - done;
      if b in at.newRow(b).rows {
        rows := rows[b := at.newRow(b).rows[b]];
      }
      done := done + {b};
    }
    forall b | b in ids ensures b in done {
      assert b !in ids - done;
    }
  }

  // ---- what the client makes of the answer ----

  function Reconcile(replica: Rows, d: Diff): Rows {
    Apply(replica, d.updates) + d.newBlocks
  }

  /** The claims list exactly the blocks of the replica, each with the time of its row. */
  ghost predicate Describes(claims: seq<Claim>, replica: Rows) {
    && (forall c :: c in claims ==> c.id.Some? && c.id.value in replica && c.stamp == Time(replica[c.id.value]))
    && (forall b :: b in replica ==> exists c :: c in claims && c.id == Some(b))
  }

  /** The client time a row stands for. */
  function StampOf(row: Row): int {
    if Time(row).Some? then Time(row).value else 0
  }

  lemma {:induction false} NewerRowsAt(at: Sights, ids: seq<BlockId>, stamps: map<BlockId, int>, b: BlockId)
    requires forall x :: x in ids ==> x in stamps
    ensures LastUpdate(NewerRows(at, ids, stamps), b) ==
      if b in ids && IsNewer(at.row(b), b, stamps[b]) then Some(Current(b, at.row(b).rows[b])) else None
  {
    if ids != [] {
      var n := |ids| - 1;
      NewerRowsAt(at, ids[..n], stamps, b);
      assert ids == ids[..n] + [ids[n]];
      var newer := IsNewer(at.row(ids[n]), ids[n], stamps[ids[n]]);
      var last := if newer then [Current(ids[n], at.row(ids[n]).rows[ids[n]])] else [];
      LastUpdateConcat(NewerRows(at, ids[..n], stamps), last, b);
    }
  }

  lemma {:induction false} RemovalsAt(ids: seq<BlockId>, b: BlockId)
    ensures LastUpdate(Removals(ids), b) == if b in ids then Some(Deleted(b)) else None
  {
    if ids != [] {
      var n := |ids| - 1;
      RemovalsAt(ids[..n], b);
      assert Removals(ids)[..n] == Removals(ids[..n]);
      assert ids == ids[..n] + [ids[n]];
    }
  }

  /** What a non-resync answer makes of block `b`. */
  lemma ReconcileAt(at: Sights, user: UserId, claims: seq<Claim>, replica: Rows, b: BlockId)
    requires DiffAnswer(at, user, claims).resync == None
    ensures var subs := Members(at.subs.subs, user);
      var stamps := ValidStamps(claims, subs);
      Lookup(Reconcile(replica, DiffAnswer(at, user, claims)), b) ==
      if b in subs && b !in stamps && b in at.newRow(b).rows then Some(at.newRow(b).rows[b])
      else if b in Unsubscribed(claims, subs) then None
      else if b in stamps && IsNewer(at.row(b), b, stamps[b]) then Some(at.row(b).rows[b])
      else Lookup(replica, b)
  {
    var subs := Members(at.subs.subs, user);
    var stamps, order, gone := ValidStamps(claims, subs), ValidOrder(claims, subs), Unsubscribed(claims, subs);
    ValidDomain(claims, subs);
    NewerRowsAt(at, order, stamps, b);
    RemovalsAt(gone, b);
    LastUpdateConcat(NewerRows(at, order, stamps), Removals(gone), b);
    ApplyAt(replica, NewerRows(at, order, stamps) + Removals(gone), b);
  }

  lemma {:induction false} SplitExact(claims: seq<Claim>, subs: set<BlockId>, b: BlockId)
    ensures b in ValidStamps(claims, subs) <==> b in subs && exists c :: c in claims && c.id == Some(b)
    ensures b in ValidStamps(claims, subs) ==>
      exists c :: c in claims && c.id == Some(b) && Stamp(c) == ValidStamps(claims, subs)[b]
    ensures b in Unsubscribed(claims, subs) <==> b !in subs && b != "" && exists c :: c in claims && c.id == Some(b)
  {
    if claims != [] {
      var n := |claims| - 1;
      SplitExact(claims[..n], subs, b);
      assert claims == claims[..n] + [claims[n]];
      assert claims[n] in claims;
    }
  }

  /** The last claim for a block counts, and without a number it counts as zero. */
  lemma {:induction false} LastClaimCounts(claims: seq<Claim>, subs: set<BlockId>, b: BlockId, i: nat)
    requires b in subs && i < |claims| && claims[i].id == Some(b)
    requires forall j :: i < j < |claims| ==> claims[j].id != Some(b)
    ensures b in ValidStamps(claims, subs)
    ensures claims[i].stamp.Some? ==> ValidStamps(claims, subs)[b] == claims[i].stamp.value
    ensures claims[i].stamp.None? ==> ValidStamps(claims, subs)[b] == 0
  {
    var n := |claims| - 1;
    if i < n {
      assert claims[n].id != Some(b);
      LastClaimCounts(claims[..n], subs, b, i);
    }
  }

  /** The time of a row: a missing field is zero, and only decimal text with at most a minus sign is a number. */
  lemma TimeReads(row: Row)
    ensures "updated_at" !in row ==> Time(row) == Some(0)
    ensures "updated_at" in row ==>
      var s := row["updated_at"];
      && (Time(row).Some? <==>
            (s != "" && forall c :: c in s ==> '0' <= c <= '9') ||
            (|s| > 1 && s[0] == '-' && forall c :: c in s[1..] ==> '0' <= c <= '9'))
      && (Time(row).Some? ==> Time(row).value == if s[0] == '-' then -Numeral(s[1..]) else Numeral(s))
    ensures "updated_at" in row && row["updated_at"] == "null" ==> Time(row) == None
  {
    if "updated_at" in row {
      var s := row["updated_at"];
      assert s != "" ==> s[0] in s;
      assert "null"[0] == 'n';
    }
  }

  // ---- the order of the answer ----

  /** Block `x` is claimed before block `y` is claimed for the first time. */
  ghost predicate ClaimedBefore(claims: seq<Claim>, x: BlockId, y: BlockId) {
    exists p :: 0 <= p < |claims| && claims[p].id == Some(x) && forall q :: 0 <= q <= p ==> claims[q].id != Some(y)
  }

  lemma {:induction false} OrderOfMention(claims: seq<Claim>, subs: set<BlockId>, i: nat, j: nat)
    requires i < j < |ValidOrder(claims, subs)|
    ensures ClaimedBefore(claims, ValidOrder(claims, subs)[i], ValidOrder(claims, subs)[j])
  {
    var n := |claims| - 1;
    var before, order := ValidOrder(claims[..n], subs), ValidOrder(claims, subs);
    if j < |before| {
      OrderOfMention(claims[..n], subs, i, j);
      var p :| 0 <= p < n && claims[..n][p].id == Some(order[i]) &&
               forall q :: 0 <= q <= p ==> claims[..n][q].id != Some(order[j]);
      assert claims[p].id == Some(order[i]) && forall q :: 0 <= q <= p ==> claims[..n][q] == claims[q];
    } else {
      ValidDomain(claims[..n], subs);
      SplitExact(claims[..n], subs, order[i]);
      SplitExact(claims[..n], subs, order[j]);
      assert order[i] == before[i] && before[i] in before;
      var c :| c in claims[..n] && c.id == Some(order[i]);
      var p :| 0 <= p < n && claims[..n][p] == c;
      forall q | 0 <= q <= p ensures claims[q].id != Some(order[j]) {
        assert claims[..n][q] in claims[..n];
      }
    }
  }

  /** The rows sent keep the order of the ids they are chosen from. */
  lemma {:induction false} RowsKeepOrder(at: Sights, ids: seq<BlockId>, stamps: map<BlockId, int>, i: nat, j: nat)
    requires forall b :: b in ids ==> b in stamps
    requires i < j < |NewerRows(at, ids, stamps)|
    ensures var rows := NewerRows(at, ids, stamps);
      exists p, q :: 0 <= p < q < |ids| && ids[p] == rows[i].block && ids[q] == rows[j].block
  {
    var n := |ids| - 1;
    var before, rows := NewerRows(at, ids[..n], stamps), NewerRows(at, ids, stamps);
    if j < |before| {
      RowsKeepOrder(at, ids[..n], stamps, i, j);
      var p, q :| 0 <= p < q < n && ids[..n][p] == rows[i].block && ids[..n][q] == rows[j].block;
      assert ids[p] == rows[i].block && ids[q] == rows[j].block;
    } else {
      RowOfId(at, ids[..n], stamps, i);
      var p :| 0 <= p < n && ids[..n][p] == before[i].block;
      assert ids[p] == rows[i].block && ids[n] == rows[j].block;
    }
  }

  lemma {:induction false} RowOfId(at: Sights, ids: seq<BlockId>, stamps: map<BlockId, int>, i: nat)
    requires forall b :: b in ids ==> b in stamps
    requires i < |NewerRows(at, ids, stamps)|
    ensures NewerRows(at, ids, stamps)[i].Current?
    ensures exists p :: 0 <= p < |ids| && ids[p] == NewerRows(at, ids, stamps)[i].block
  {
    var n := |ids| - 1;
    var before := NewerRows(at, ids[..n], stamps);
    if i < |before| {
      RowOfId(at, ids[..n], stamps, i);
      var p :| 0 <= p < n && ids[..n][p] == before[i].block;
      assert ids[p] == before[i].block;
    } else {
      assert ids[n] == NewerRows(at, ids, stamps)[i].block;
    }
  }

  /** Removals are listed as claimed, repetitions included. */
  lemma {:induction false} RemovalsAsClaimed(x: seq<Claim>, c: Claim, y: seq<Claim>, subs: set<BlockId>)
    ensures Unsubscribed(x + [c] + y, subs) ==
      Unsubscribed(x, subs) +
      (if c.id.Some? && c.id.value !in subs && c.id.value != "" then [c.id.value] else []) +
      Unsubscribed(y, subs)
  {
    if y == [] {
      assert x + [c] + y == x + [c] && (x + [c])[..|x|] == x;
    } else {
      var n := |y| - 1;
      RemovalsAsClaimed(x, c, y[..n], subs);
      assert (x + [c] + y)[..|x| + 1 + n] == x + [c] + y[..n];
    }
  }

  /**
   * The order of the updates: first rows, in the order in which their blocks were first claimed, then
   * one removal for every claim of an unsubscribed block, in the order of the claims.
   */
  lemma DiffInOrder(at: Sights, user: UserId, claims: seq<Claim>)
    requires DiffAnswer(at, user, claims).resync == None
    ensures var updates := DiffAnswer(at, user, claims).updates;
      var gone := Unsubscribed(claims, Members(at.subs.subs, user));
      var n := |updates| - |gone|;
      && 0 <= n
      && (forall i :: 0 <= i < n ==> updates[i].Current?)
      && (forall i, j :: 0 <= i < j < n ==> ClaimedBefore(claims, updates[i].block, updates[j].block))
      && (forall i :: 0 <= i < |gone| ==> updates[n + i] == Deleted(gone[i]))
  {
    var subs := Members(at.subs.subs, user);
    var stamps, order := ValidStamps(claims, subs), ValidOrder(claims, subs);
    ValidDomain(claims, subs);
    var newer := NewerRows(at, order, stamps);
    assert DiffAnswer(at, user, claims).updates == newer + Removals(Unsubscribed(claims, subs));
    forall i | 0 <= i < |newer| ensures newer[i].Current? {
      RowOfId(at, order, stamps, i);
    }
    forall i, j | 0 <= i < j < |newer| ensures ClaimedBefore(claims, newer[i].block, newer[j].block) {
      RowsKeepOrder(at, order, stamps, i, j);
      var p, q :| 0 <= p < q < |order| && order[p] == newer[i].block && order[q] == newer[j].block;
      OrderOfMention(claims, subs, p, q);
    }
  }

  /** v1 asks for a resync exactly when nothing is subscribed, or none of the claimed blocks is. */
  lemma DiffResyncs(at: Sights, user: UserId, claims: seq<Claim>)
    ensures var reason := DiffAnswer(at, user, claims).resync;
      var subscribed := exists b :: Has(at.subs.subs, user, b);
      var claimed := exists c :: c in claims && c.id.Some? && Has(at.subs.subs, user, c.id.value);
      && (reason == Some(NothingSubscribed) <==> !subscribed)
      && (reason == Some(NothingValid) <==> subscribed && !claimed)
  {
    var subs := Members(at.subs.subs, user);
    var stamps := ValidStamps(claims, subs);
    if subs != {} {
      var b :| b in subs;
      assert Has(at.subs.subs, user, b);
    }
    if stamps != map[] {
      var b :| b in stamps;
      SplitExact(claims, subs, b);
      assert Has(at.subs.subs, user, b);
    } else if c :| c in claims && c.id.Some? && Has(at.subs.subs, user, c.id.value) {
      SplitExact(claims, subs, c.id.value);
    }
  }

  /**
   * Every subscribed block is sent as an update, sent as new, or omitted. A claimed one is omitted
   * exactly when its row is missing, has no numeric time, or is not newer than the client's.
   */
  lemma AnswerPartitions(at: Sights, user: UserId, claims: seq<Claim>, b: BlockId)
    requires DiffAnswer(at, user, claims).resync == None
    ensures var d := DiffAnswer(at, user, claims);
      var subs := Members(at.subs.subs, user);
      var stamp := Lookup(ValidStamps(claims, subs), b);
      var told := LastUpdate(d.updates, b);
      var claimed := exists c :: c in claims && c.id == Some(b);
      && (b in d.newBlocks <==> b in subs && !claimed && b in at.newRow(b).rows)
      && (told == Some(Deleted(b)) <==> b !in subs && b != "" && claimed)
      && (stamp.Some? <==> b in subs && claimed)
      && (told.Some? && told.value.Current? <==>
            && stamp.Some? && b in at.row(b).rows && Time(at.row(b).rows[b]).Some?
            && stamp.value < Time(at.row(b).rows[b]).value)
      && !(b in d.newBlocks && told.Some?)
  {
    var subs := Members(at.subs.subs, user);
    var stamps, order, gone := ValidStamps(claims, subs), ValidOrder(claims, subs), Unsubscribed(claims, subs);
    ValidDomain(claims, subs);
    NewerRowsAt(at, order, stamps, b);
    RemovalsAt(gone, b);
    LastUpdateConcat(NewerRows(at, order, stamps), Removals(gone), b);
    SplitExact(claims, subs, b);
  }

  /** A subscribed block occurs at most once among the updates; only removals repeat, as their claims do. */
  lemma SubscribedOnce(at: Sights, user: UserId, claims: seq<Claim>, i: nat, j: nat)
    requires i < j < |DiffAnswer(at, user, claims).updates|
    ensures var updates := DiffAnswer(at, user, claims).updates;
      updates[i].block in Members(at.subs.subs, user) ==> updates[i].block != updates[j].block
  {
    var subs := Members(at.subs.subs, user);
    var stamps, order, gone := ValidStamps(claims, subs), ValidOrder(claims, subs), Unsubscribed(claims, subs);
    ValidDomain(claims, subs);
    var newer := NewerRows(at, order, stamps);
    NewerRowsOnce(at, order, stamps);
    var updates := DiffAnswer(at, user, claims).updates;
    assert updates == newer + Removals(gone);
    if j >= |newer| {
      SplitExact(claims, subs, gone[j - |newer|]);
      assert updates[j].block == gone[j - |newer|];
    } else {
      assert updates[i] == newer[i] && updates[j] == newer[j];
      assert newer[i].block != newer[j].block;
    }
  }

  ghost predicate BlocksDiffer(updates: seq<Update>) {
    forall i, j :: 0 <= i < j < |updates| ==> updates[i].block != updates[j].block
  }

  lemma {:induction false} NewerRowsOnce(at: Sights, ids: seq<BlockId>, stamps: map<BlockId, int>)
    requires forall b :: b in ids ==> b in stamps
    requires Distinct(ids)
    ensures forall u :: u in NewerRows(at, ids, stamps) ==> u.block in ids
    ensures BlocksDiffer(NewerRows(at, ids, stamps))
  {
    if ids != [] {
      var n := |ids| - 1;
      NewerRowsOnce(at, ids[..n], stamps);
      assert ids == ids[..n] + [ids[n]];
      var before, after := NewerRows(at, ids[..n], stamps), NewerRows(at, ids, stamps);
      forall i, j | 0 <= i < j < |after| ensures after[i].block != after[j].block {
        assert after[i] == before[i] && before[i] in before;
      }
    }
  }

  function AllAt(s: Store): Sights {
    Sights(s, b => s, b => s)
  }

  /**
   * Exactly when a v1 answer leaves the client right about a subscribed block that has a row: the
   * client did not hold the block, held this very row, or held one with an earlier time. The block
   * is removed when it is not subscribed and left alone when it has no row.
   */
  lemma ReconcilesExactly(s: Store, user: UserId, claims: seq<Claim>, replica: Rows, b: BlockId)
    requires Describes(claims, replica) && DiffAnswer(AllAt(s), user, claims).resync == None
    ensures var replica' := Reconcile(replica, DiffAnswer(AllAt(s), user, claims));
      && (Has(s.subs, user, b) && b in s.rows ==>
            (Lookup(replica', b) == Some(s.rows[b]) <==>
             || b !in replica
             || replica[b] == s.rows[b]
             || (Time(s.rows[b]).Some? && StampOf(replica[b]) < Time(s.rows[b]).value)))
      && (!Has(s.subs, user, b) && b != "" ==> b !in replica')
      && (Has(s.subs, user, b) && b !in s.rows ==> Lookup(replica', b) == Lookup(replica, b))
  {
    var subs := Members(s.subs, user);
    ReconcileAt(AllAt(s), user, claims, replica, b);
    SplitExact(claims, subs, b);
    if b in ValidStamps(claims, subs) {
      var c :| c in claims && c.id == Some(b) && Stamp(c) == ValidStamps(claims, subs)[b];
      assert c.stamp == Time(replica[b]);
    }
    assert b in replica <==> exists c :: c in claims && c.id == Some(b);
  }

  /** Every row of the replica is the server's, or older than it by the server's numeric time. */
  ghost predicate TimesTellRows(s: Store, replica: Rows) {
    forall b :: b in replica && b in s.rows ==> replica[b] == s.rows[b] || IsNewer(s, b, StampOf(replica[b]))
  }

  /** The server's times are numbers, and no time of the client is above them. */
  ghost predicate NotFromFuture(s: Store, replica: Rows) {
    forall b :: b in replica && b in s.rows ==>
      Time(s.rows[b]).Some? && StampOf(replica[b]) <= Time(s.rows[b]).value
  }

  ghost predicate EqualTimesEqualRows(s: Store, replica: Rows) {
    forall b :: b in replica && b in s.rows && Time(s.rows[b]) == Some(StampOf(replica[b])) ==> replica[b] == s.rows[b]
  }

  lemma HonestTimes(s: Store, replica: Rows)
    requires NotFromFuture(s, replica) && EqualTimesEqualRows(s, replica)
    ensures TimesTellRows(s, replica)
  {
    forall b | b in replica && b in s.rows ensures replica[b] == s.rows[b] || IsNewer(s, b, StampOf(replica[b])) {
      assert StampOf(replica[b]) <= Time(s.rows[b]).value;
    }
  }

  /** With honest times a v1 answer sets every subscribed block that has a row and removes the unsubscribed ones. */
  lemma ReconcilesHonestly(s: Store, user: UserId, claims: seq<Claim>, replica: Rows)
    requires Describes(claims, replica) && DiffAnswer(AllAt(s), user, claims).resync == None
    requires NotFromFuture(s, replica) && EqualTimesEqualRows(s, replica)
    ensures var replica' := Reconcile(replica, DiffAnswer(AllAt(s), user, claims));
      && (forall b :: Has(s.subs, user, b) && b in s.rows ==> Lookup(replica', b) == Some(s.rows[b]))
      && (forall b :: !Has(s.subs, user, b) && b != "" ==> b !in replica')
  {
    HonestTimes(s, replica);
    ReconcilesAll(s, user, claims, replica);
    forall b | !Has(s.subs, user, b) && b != ""
      ensures b !in Reconcile(replica, DiffAnswer(AllAt(s), user, claims))
    {
      ReconcilesExactly(s, user, claims, replica, b);
    }
  }

  lemma ReconcilesAll(s: Store, user: UserId, claims: seq<Claim>, replica: Rows)
    requires Describes(claims, replica) && DiffAnswer(AllAt(s), user, claims).resync == None
    requires TimesTellRows(s, replica)
    ensures forall b :: Has(s.subs, user, b) && b in s.rows ==>
      Lookup(Reconcile(replica, DiffAnswer(AllAt(s), user, claims)), b) == Some(s.rows[b])
  {
    forall b | Has(s.subs, user, b) && b in s.rows
      ensures Lookup(Reconcile(replica, DiffAnswer(AllAt(s), user, claims)), b) == Some(s.rows[b])
    {
      ReconcilesExactly(s, user, claims, replica, b);
    }
  }
}
