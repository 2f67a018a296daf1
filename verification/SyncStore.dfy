/** The Redis state that the message handlers maintain and the sync readers read. */
module SyncStore {

  datatype Option<+T> = None | Some(value: T)

  type BlockId = string
  type UserId = string

  /** A Redis hash `blockdata:{block}`: field name to stored text. */
  type Row = map<string, string>

  type Rows = map<BlockId, Row>

  datatype Op = Upsert | Delete

  /** One changelog entry; its score in the sorted set is its sequence number. */
  datatype Event = Event(num: nat, op: Op, block: BlockId)

  /** `readers` are the sets `block:{block}`, `subs` the sets `subscriber:{user}:blocks`. */
  datatype Store = Store(
    rows: Rows,
    readers: map<BlockId, set<UserId>>,
    subs: map<UserId, set<BlockId>>,
    counter: nat,
    log: seq<Event>,
    versions: map<UserId, nat>)

  const EMPTY_STORE := Store(map[], map[], map[], 0, [], map[])

  function Lookup<K, V>(m: map<K, V>, k: K): Option<V> {
    if k in m then Some(m[k]) else None
  }

  /** A Redis set that has no members has no key. */
  function Members<K, V>(m: map<K, set<V>>, k: K): set<V> {
    if k in m then m[k] else {}
  }

  function Version(s: Store, u: UserId): nat {
    if u in s.versions then s.versions[u] else 0
  }

  /** SISMEMBER. */
  predicate Has<K, V>(m: map<K, set<V>>, k: K, v: V) { v in Members(m, k) }

  /** What a client of user `u` should hold for block `b`. */
  function Target(s: Store, u: UserId, b: BlockId): Option<Row> {
    if Has(s.subs, u, b) then Lookup(s.rows, b) else None
  }

  /** The rows of the store restricted to the subscriptions of `u`. */
  function View(s: Store, u: UserId): Rows {
    map b | b in Members(s.subs, u) && b in s.rows :: s.rows[b]
  }

  /** The two Redis indexes of the subscription relation agree. */
  ghost predicate TwoWay(s: Store) {
    forall u, b :: Has(s.readers, b, u) <==> Has(s.subs, u, b)
  }

  // ---- SADD, SREM ----

  function SAdd<K, V>(m: map<K, set<V>>, k: K, v: V): map<K, set<V>> {
    m[k := Members(m, k) + {v}]
  }

  function SRem<K, V>(m: map<K, set<V>>, k: K, vs: set<V>): map<K, set<V>> {
    m[k := Members(m, k) - vs]
  }

  // ---- HSET ----

  /** HSET merges the given fields into the hash, creating it when it is missing. */
  function HSet(rows: Rows, b: BlockId, data: Row): Rows {
    rows[b := (if b in rows then rows[b] else map[]) + data]
  }

  // ---- the changelog, a sorted set kept in score order ----

  /** ZADD of an entry whose score is not below any retained score appends it. */
  function ZAdd(log: seq<Event>, e: Event): seq<Event> {
    if log == [] || log[|log| - 1].num < e.num then log + [e]
    else if log[|log| - 1] == e then log
    else ZAdd(log[..|log| - 1], e) + [log[|log| - 1]]
  }

  /** ZREMRANGEBYRANK 0 -(max + 1): only the `max` highest ranks stay; skipped when `max <= 0`. */
  function Trim(log: seq<Event>, max: int): seq<Event> {
    if 0 < max < |log| then log[|log| - max..] else log
  }

  /** The entries for `blocks` numbered from `start`, added one by one. */
  function ZAddAll(log: seq<Event>, start: nat, op: Op, blocks: seq<BlockId>): seq<Event> {
    if blocks == [] then log
    else
      var n := |blocks| - 1;
      ZAdd(ZAddAll(log, start, op, blocks[..n]), Event(start + n, op, blocks[n]))
  }

  /** The log holds the consecutive numbers that end at `last`. */
  ghost predicate Contiguous(log: seq<Event>, last: nat) {
    && |log| <= last
    && forall i {:trigger log[i]} :: 0 <= i < |log| ==> log[i].num == last - |log| + 1 + i
  }

  function EventsFor(start: nat, op: Op, blocks: seq<BlockId>): seq<Event> {
    seq(|blocks|, i requires 0 <= i < |blocks| => Event(start + i, op, blocks[i]))
  }

  /** On a log that ends below `start`, the ZADDs append the new events in order. */
  lemma {:induction false} ZAddAllAppends(log: seq<Event>, start: nat, op: Op, blocks: seq<BlockId>)
    requires start >= 1 && Contiguous(log, start - 1)
    ensures ZAddAll(log, start, op, blocks) == log + EventsFor(start, op, blocks)
  {
    if blocks == [] {
    } else {
      var n := |blocks| - 1;
      ZAddAllAppends(log, start, op, blocks[..n]);
      var before := log + EventsFor(start, op, blocks[..n]);
      assert before != [] ==> before[|before| - 1].num < start + n;
      assert EventsFor(start, op, blocks) == EventsFor(start, op, blocks[..n]) + [Event(start + n, op, blocks[n])];
    }
  }

  /** Entry `i` of a batch gets the `i`-th of its numbers. */
  lemma ZAddAllAt(log: seq<Event>, start: nat, op: Op, blocks: seq<BlockId>, i: nat)
    requires start >= 1 && Contiguous(log, start - 1) && i < |blocks|
    ensures var after := ZAddAll(log, start, op, blocks);
      |after| == |log| + |blocks| && after[..|log|] == log && after[|log| + i] == Event(start + i, op, blocks[i])
  {
    ZAddAllAppends(log, start, op, blocks);
  }

  /** Trimming before an append does not change what is left after it. */
  lemma TrimTwice(log: seq<Event>, more: seq<Event>, max: int)
    ensures Trim(Trim(log, max) + more, max) == Trim(log + more, max)
  {
    if 0 < max < |log| {
      assert log[|log| - max..] + more == (log + more)[|log| - max..];
    }
  }

  // ---- the operation a client sees last for a block ----

  function LastOp(log: seq<Event>, b: BlockId): Option<Op> {
    if log == [] then None
    else
      var e := log[|log| - 1];
      if e.block == b then Some(e.op) else LastOp(log[..|log| - 1], b)
  }

  ghost predicate Mentions(log: seq<Event>, b: BlockId) {
    exists i :: 0 <= i < |log| && log[i].block == b
  }

  lemma {:induction false} LastOpNone(log: seq<Event>, b: BlockId)
    ensures LastOp(log, b) == None <==> !Mentions(log, b)
  {
    if log == [] {
    } else {
      var n := |log| - 1;
      LastOpNone(log[..n], b);
      if Mentions(log, b) {
        var i :| 0 <= i < |log| && log[i].block == b;
        if i < n {
          assert log[..n][i].block == b;
        }
      }
      if Mentions(log[..n], b) {
        var i :| 0 <= i < n && log[..n][i].block == b;
        assert log[i].block == b;
      }
    }
  }

  lemma {:induction false} LastOpConcat(x: seq<Event>, y: seq<Event>, b: BlockId)
    ensures LastOp(x + y, b) == if LastOp(y, b).Some? then LastOp(y, b) else LastOp(x, b)
  {
    if y == [] {
      assert x + y == x;
    } else {
      var n := |y| - 1;
      assert (x + y)[..|x + y| - 1] == x + y[..n];
      LastOpConcat(x, y[..n], b);
    }
  }

  // ---- chunking ----

  function Least(x: nat, y: nat): nat { if x < y then x else y }

  /** The slices `xs[i: i + n]` for `i` in `range(0, len(xs), n)`. */
  function Chunks<T>(xs: seq<T>, n: nat): seq<seq<T>>
    requires n > 0
    decreases |xs|
  {
    if xs == [] then []
    else if |xs| <= n then [xs]
    else [xs[..n]] + Chunks(xs[n..], n)
  }

  /** Chunk `i` is the slice from `i * n`, as long as there is something there. */
  lemma {:induction false} ChunkAt<T>(xs: seq<T>, n: nat, i: nat)
    requires n > 0
    ensures i < |Chunks(xs, n)| <==> i * n < |xs|
    ensures i * n < |xs| ==> Chunks(xs, n)[i] == xs[i * n..Least(i * n + n, |xs|)]
    decreases |xs|
  {
    if i == 0 || |xs| <= n {
      assert i > 0 ==> i * n >= n;
    } else {
      ChunkAt(xs[n..], n, i - 1);
      assert (i - 1) * n + n == i * n;
      if i * n < |xs| {
        assert xs[n..][(i - 1) * n..Least((i - 1) * n + n, |xs| - n)] == xs[i * n..Least(i * n + n, |xs|)];
      }
    }
  }

  function Flatten<T>(xss: seq<seq<T>>): seq<T> {
    if xss == [] then [] else xss[0] + Flatten(xss[1..])
  }

  /** Chunking loses nothing and makes no empty chunk. */
  lemma {:induction false} ChunksFlatten<T>(xs: seq<T>, n: nat)
    requires n > 0
    ensures Flatten(Chunks(xs, n)) == xs
    ensures forall c :: c in Chunks(xs, n) ==> 0 < |c| <= n
    decreases |xs|
  {
    if xs == [] {
    } else if |xs| <= n {
      assert Flatten([xs]) == xs + Flatten<T>([]);
    } else {
      ChunksFlatten(xs[n..], n);
      var cs := Chunks(xs, n);
      assert cs[1..] == Chunks(xs[n..], n);
      assert cs[0] + Flatten(cs[1..]) == xs;
    }
  }
}
