/** The message handlers as programs of atomic Redis commands, and what runs of them keep. */
module WriterTasks {
  import opened SyncStore

  /** The queue messages that change the synchronised state; rows are already prepared text. */
  datatype Message =
    | UpdateBlock(block: BlockId, data: Row)
    | UpdateBlocks(entries: seq<(BlockId, Row)>)
    | UpdateAccess(user: UserId, deny: bool, blocks: seq<BlockId>, startBlocks: seq<BlockId>)
    | Subscribe(user: UserId, blocks: seq<BlockId>)
    | Unsubscribe(blocks: seq<BlockId>)

  /** Where a handler stands between two Redis round trips. Only one handler runs at a time. */
  datatype Task =
    | Idle
    | Writing(data: seq<(BlockId, Row)>)
    | Numbering(op: Op, blocks: seq<BlockId>, users: set<UserId>, rest: seq<seq<BlockId>>)
    | Logging(start: nat, op: Op, blocks: seq<BlockId>, users: set<UserId>, rest: seq<seq<BlockId>>)
    | Bumping(users: set<UserId>, rest: seq<seq<BlockId>>)
    | Access(user: UserId, deny: bool, chunks: seq<seq<BlockId>>)
    | Collecting(chunks: seq<seq<BlockId>>)
    | Removing(chunk: seq<BlockId>, held: map<UserId, set<BlockId>>, rest: seq<seq<BlockId>>)

  /** `block_portion`, `CHANGELOG_MAX_LEN` (zero or less: no trimming) and `GET_UPDATES_V2_MAX_LIMIT`. */
  datatype Config = Config(portion: nat, maxLen: int, maxLimit: int)

  ghost predicate ValidConfig(cfg: Config) { cfg.portion > 0 }

  // ---- the commands ----

  function SaveAll(rows: Rows, data: seq<(BlockId, Row)>): Rows {
    if data == [] then rows
    else
      var n := |data| - 1;
      HSet(SaveAll(rows, data[..n]), data[n].0, data[n].1)
  }

  function KeysOf(data: seq<(BlockId, Row)>): seq<BlockId> {
    seq(|data|, i requires 0 <= i < |data| => data[i].0)
  }

  function GrantAll(s: Store, u: UserId, blocks: seq<BlockId>): Store {
    if blocks == [] then s
    else
      var n := |blocks| - 1;
      var t := GrantAll(s, u, blocks[..n]);
      t.(readers := SAdd(t.readers, blocks[n], u), subs := SAdd(t.subs, u, blocks[n]))
  }

  function RevokeAll(s: Store, u: UserId, blocks: seq<BlockId>): Store {
    if blocks == [] then s
    else
      var n := |blocks| - 1;
      var t := RevokeAll(s, u, blocks[..n]);
      t.(readers := SRem(t.readers, blocks[n], {u}), subs := SRem(t.subs, u, {blocks[n]}))
  }

  function SetAccess(s: Store, u: UserId, deny: bool, blocks: seq<BlockId>): Store {
    if deny then RevokeAll(s, u, blocks) else GrantAll(s, u, blocks)
  }

  /** INCR of the version key of every user in the set. */
  function Bump(versions: map<UserId, nat>, users: set<UserId>): map<UserId, nat> {
    map u | u in versions.Keys + users ::
      (if u in versions then versions[u] else 0) + (if u in users then 1 else 0)
  }

  function ReadersOf(s: Store, chunk: seq<BlockId>): set<UserId> {
    set b, u | b in chunk && u in Members(s.readers, b) :: u
  }

  /** For every user reading some block of the chunk, the blocks of the chunk they read. */
  function Holders(s: Store, chunk: seq<BlockId>): map<UserId, set<BlockId>> {
    map u | u in ReadersOf(s, chunk) :: set b | b in chunk && Has(s.readers, b, u)
  }

  /** The deletion pipeline: SREM for every holder, then DEL of the chunk's keys. */
  function RemoveChunk(s: Store, chunk: seq<BlockId>, held: map<UserId, set<BlockId>>): Store {
    s.(subs := map u | u in s.subs.Keys + held.Keys ::
                 Members(s.subs, u) - (if u in held then held[u] else {}),
       readers := s.readers - (set b | b in chunk),
       rows := s.rows - (set b | b in chunk))
  }

  // ---- starting and stepping a handler ----

  function Resume(users: set<UserId>, rest: seq<seq<BlockId>>): Task {
    if users != {} then Bumping(users, rest)
    else if rest != [] then Collecting(rest)
    else Idle
  }

  function StartAccess(user: UserId, deny: bool, chunks: seq<seq<BlockId>>): Task {
    if chunks == [] then Bumping({user}, []) else Access(user, deny, chunks)
  }

  /** A write with an empty row is refused by HSET, which aborts the whole handler. */
  function Start(cfg: Config, m: Message): Task
    requires ValidConfig(cfg)
  {
    match m
    case UpdateBlock(b, data) => if data == map[] then Idle else Writing([(b, data)])
    case UpdateBlocks(entries) => if exists e :: e in entries && e.1 == map[] then Idle else Writing(entries)
    case UpdateAccess(u, deny, blocks, startBlocks) => StartAccess(u, deny, Chunks(blocks + startBlocks, cfg.portion))
    case Subscribe(u, blocks) => StartAccess(u, false, Chunks(blocks, cfg.portion))
    case Unsubscribe(blocks) => Resume({}, Chunks(blocks, cfg.portion))
  }

  /** One Redis round trip of the handler in flight. */
  function Step(cfg: Config, s: Store, t: Task): (Store, Task) {
    match t
    case Idle => (s, Idle)
    case Writing(data) =>
      (s.(rows := SaveAll(s.rows, data)),
       if data == [] then Idle else Numbering(Upsert, KeysOf(data), {}, []))
    case Numbering(op, blocks, users, rest) =>
      (s.(counter := s.counter + |blocks|), Logging(s.counter + 1, op, blocks, users, rest))
    case Logging(start, op, blocks, users, rest) =>
      (s.(log := Trim(ZAddAll(s.log, start, op, blocks), cfg.maxLen)), Resume(users, rest))
    case Bumping(users, rest) =>
      (s.(versions := Bump(s.versions, users)), Resume({}, rest))
    case Access(u, deny, chunks) =>
      if chunks == [] then (s, StartAccess(u, deny, []))
      else (SetAccess(s, u, deny, chunks[0]), StartAccess(u, deny, chunks[1..]))
    case Collecting(chunks) =>
      if chunks == [] then (s, Idle) else (s, Removing(chunks[0], Holders(s, chunks[0]), chunks[1..]))
    case Removing(chunk, held, rest) =>
      (RemoveChunk(s, chunk, held), Numbering(Delete, chunk, held.Keys, rest))
  }

  // ---- what is still owed by the handler in flight ----

  predicate WillBump(t: Task, u: UserId) {
    match t
    case Access(v, _, _) => u == v
    case Removing(_, held, _) => u in held
    case Numbering(_, _, users, _) => u in users
    case Logging(_, _, _, users, _) => u in users
    case Bumping(users, _) => u in users
    case _ => false
  }

  /** An event for `b` is about to be logged. */
  ghost predicate WillLog(t: Task, b: BlockId) {
    (t.Numbering? || t.Logging?) && b in t.blocks
  }

  /** An event for `b` with a number above `k` is about to be logged. */
  ghost predicate Due(t: Task, b: BlockId, k: nat) {
    || (t.Numbering? && b in t.blocks)
    || (t.Logging? && exists i :: 0 <= i < |t.blocks| && t.blocks[i] == b && t.start + i > k)
  }

  // ---- the invariant of every run of handlers ----

  /** The highest number whose event is in the log or has been trimmed from it. */
  function Committed(s: Store, t: Task): int {
    if t.Logging? then s.counter - |t.blocks| else s.counter
  }

  ghost predicate NonEmptyIds(blocks: seq<BlockId>) {
    forall i :: 0 <= i < |blocks| ==> blocks[i] != ""
  }

  ghost predicate ValidChunks(chunks: seq<seq<BlockId>>) {
    forall i :: 0 <= i < |chunks| ==> chunks[i] != [] && NonEmptyIds(chunks[i])
  }

  ghost predicate ValidMessage(m: Message) {
    match m
    case UpdateBlock(b, _) => b != ""
    case UpdateBlocks(entries) =>
      && NonEmptyIds(KeysOf(entries))
      && forall i, j :: 0 <= i < j < |entries| ==> entries[i].0 != entries[j].0
    case UpdateAccess(_, _, blocks, startBlocks) => NonEmptyIds(blocks) && NonEmptyIds(startBlocks)
    case Subscribe(_, blocks) => NonEmptyIds(blocks)
    case Unsubscribe(blocks) => NonEmptyIds(blocks)
  }

  ghost predicate RowsFit(s: Store, op: Op, blocks: seq<BlockId>) {
    forall b :: b in blocks ==> (op == Upsert <==> b in s.rows)
  }

  ghost predicate ValidTask(s: Store, t: Task) {
    match t
    case Idle => true
    case Writing(data) => NonEmptyIds(KeysOf(data))
    case Numbering(op, blocks, _, rest) =>
      blocks != [] && NonEmptyIds(blocks) && ValidChunks(rest) && RowsFit(s, op, blocks)
    case Logging(start, op, blocks, _, rest) =>
      && blocks != [] && NonEmptyIds(blocks) && ValidChunks(rest) && RowsFit(s, op, blocks)
      && start + |blocks| == s.counter + 1 && start >= 1
    case Bumping(_, rest) => ValidChunks(rest)
    case Access(_, _, chunks) => chunks != [] && ValidChunks(chunks)
    case Collecting(chunks) => chunks != [] && ValidChunks(chunks)
    case Removing(chunk, held, rest) =>
      chunk != [] && NonEmptyIds(chunk) && ValidChunks(rest) && held == Holders(s, chunk)
  }

  /** The log is the run of the newest committed numbers, as long as the retention bound allows. */
  ghost predicate LogShape(cfg: Config, s: Store, t: Task) {
    && 0 <= Committed(s, t)
    && Contiguous(s.log, Committed(s, t))
    && |s.log| == (if 0 < cfg.maxLen < Committed(s, t) then cfg.maxLen else Committed(s, t))
    && forall i :: 0 <= i < |s.log| ==> s.log[i].block != ""
  }

  /** A block's last retained event says whether its row exists, unless a newer event is coming. */
  ghost predicate LastOpFits(s: Store, t: Task) {
    forall b :: !WillLog(t, b) ==> OpFits(LastOp(s.log, b), b in s.rows)
  }

  predicate OpFits(last: Option<Op>, present: bool) {
    last.Some? ==> (last.value == Upsert <==> present)
  }

  /** A user whose version is still zero has never been subscribed to anything. */
  ghost predicate VersionZeroEmpty(s: Store, t: Task) {
    forall u, b :: Has(s.subs, u, b) ==> Version(s, u) > 0 || WillBump(t, u)
  }

  ghost predicate Inv(cfg: Config, s: Store, t: Task) {
    && ValidConfig(cfg)
    && ValidTask(s, t)
    && LogShape(cfg, s, t)
    && LastOpFits(s, t)
    && TwoWay(s)
    && VersionZeroEmpty(s, t)
  }

  lemma InitialInv(cfg: Config)
    requires ValidConfig(cfg)
    ensures Inv(cfg, EMPTY_STORE, Idle)
  {
  }

  lemma StartInv(cfg: Config, s: Store, m: Message)
    requires Inv(cfg, s, Idle) && ValidMessage(m)
    ensures Inv(cfg, s, Start(cfg, m))
  {
    match m
    case UpdateBlock(_, _) =>
    case UpdateBlocks(_) =>
    case UpdateAccess(_, _, blocks, startBlocks) => ChunksValid(blocks + startBlocks, cfg.portion);
    case Subscribe(_, blocks) => ChunksValid(blocks, cfg.portion);
    case Unsubscribe(blocks) => ChunksValid(blocks, cfg.portion);
  }

  lemma {:induction false} ChunksValid(xs: seq<BlockId>, n: nat)
    requires n > 0 && NonEmptyIds(xs)
    ensures ValidChunks(Chunks(xs, n))
    decreases |xs|
  {
    if |xs| > n {
      ChunksValid(xs[n..], n);
    }
  }

  // ---- the effect of the command loops ----

  lemma {:induction false} SaveAllEffect(rows: Rows, data: seq<(BlockId, Row)>)
    ensures forall b :: b in SaveAll(rows, data) <==> b in rows || b in KeysOf(data)
    ensures forall b :: b in rows && b !in KeysOf(data) ==> SaveAll(rows, data)[b] == rows[b]
  {
    if data != [] {
      var n := |data| - 1;
      SaveAllEffect(rows, data[..n]);
      assert KeysOf(data) == KeysOf(data[..n]) + [data[n].0];
    }
  }

  lemma {:induction false} SetAccessFrame(s: Store, u: UserId, deny: bool, blocks: seq<BlockId>)
    ensures var s' := SetAccess(s, u, deny, blocks); s' == s.(readers := s'.readers, subs := s'.subs)
  {
    if blocks != [] {
      SetAccessFrame(s, u, deny, blocks[..|blocks| - 1]);
    }
  }

  lemma {:induction false} SetAccessAt(s: Store, u: UserId, deny: bool, blocks: seq<BlockId>, v: UserId, b: BlockId)
    ensures var s' := SetAccess(s, u, deny, blocks);
      && (Has(s'.readers, b, v) <==> if v == u && b in blocks then !deny else Has(s.readers, b, v))
      && (Has(s'.subs, v, b) <==> if v == u && b in blocks then !deny else Has(s.subs, v, b))
  {
    if blocks != [] {
      var n := |blocks| - 1;
      SetAccessAt(s, u, deny, blocks[..n], v, b);
      assert blocks == blocks[..n] + [blocks[n]];
    }
  }

  lemma SetAccessEffect(s: Store, u: UserId, deny: bool, blocks: seq<BlockId>)
    ensures var s' := SetAccess(s, u, deny, blocks);
      && s' == s.(readers := s'.readers, subs := s'.subs)
      && (forall v, b :: Has(s'.readers, b, v) <==> if v == u && b in blocks then !deny else Has(s.readers, b, v))
      && (forall v, b :: Has(s'.subs, v, b) <==> if v == u && b in blocks then !deny else Has(s.subs, v, b))
  {
    SetAccessFrame(s, u, deny, blocks);
    var s' := SetAccess(s, u, deny, blocks);
    forall v, b
      ensures Has(s'.readers, b, v) <==> if v == u && b in blocks then !deny else Has(s.readers, b, v)
      ensures Has(s'.subs, v, b) <==> if v == u && b in blocks then !deny else Has(s.subs, v, b)
    {
      SetAccessAt(s, u, deny, blocks, v, b);
    }
  }

  lemma RemoveChunkEffect(s: Store, chunk: seq<BlockId>)
    requires TwoWay(s)
    ensures var s' := RemoveChunk(s, chunk, Holders(s, chunk));
      && (forall u, b :: Has(s'.readers, b, u) <==> Has(s.readers, b, u) && b !in chunk)
      && (forall u, b :: Has(s'.subs, u, b) <==> Has(s.subs, u, b) && b !in chunk)
      && (forall b :: b in s'.rows <==> b in s.rows && b !in chunk)
  {
    var held := Holders(s, chunk);
    var s' := RemoveChunk(s, chunk, held);
    forall u, b
      ensures Has(s'.readers, b, u) <==> Has(s.readers, b, u) && b !in chunk
      ensures Has(s'.subs, u, b) <==> Has(s.subs, u, b) && b !in chunk
    {
      assert Has(s.readers, b, u) <==> Has(s.subs, u, b);
      if b in chunk && Has(s.readers, b, u) {
        assert u in held && b in held[u];
      }
    }
  }

  // ---- every step keeps the invariant ----

  lemma {:induction false} StepInv(cfg: Config, s: Store, t: Task)
    requires Inv(cfg, s, t)
    ensures var (s', t') := Step(cfg, s, t); Inv(cfg, s', t')
  {
    match t
    case Writing(_) => WritingInv(cfg, s, t);
    case Numbering(_, _, _, _) => NumberingInv(cfg, s, t);
    case Logging(_, _, _, _, _) => LoggingInv(cfg, s, t);
    case Access(_, _, _) => AccessInv(cfg, s, t);
    case Removing(_, _, _) => RemovingInv(cfg, s, t);
    case _ =>
  }

  lemma WritingInv(cfg: Config, s: Store, t: Task)
    requires Inv(cfg, s, t) && t.Writing?
    ensures var (s', t') := Step(cfg, s, t); Inv(cfg, s', t')
  {
    SaveAllEffect(s.rows, t.data);
  }

  lemma NumberingInv(cfg: Config, s: Store, t: Task)
    requires Inv(cfg, s, t) && t.Numbering?
    ensures var (s', t') := Step(cfg, s, t); Inv(cfg, s', t')
  {
  }

  lemma AccessInv(cfg: Config, s: Store, t: Task)
    requires Inv(cfg, s, t) && t.Access?
    ensures var (s', t') := Step(cfg, s, t); Inv(cfg, s', t')
  {
    SetAccessEffect(s, t.user, t.deny, t.chunks[0]);
  }

  lemma RemovingInv(cfg: Config, s: Store, t: Task)
    requires Inv(cfg, s, t) && t.Removing?
    ensures var (s', t') := Step(cfg, s, t); Inv(cfg, s', t')
  {
    RemoveChunkEffect(s, t.chunk);
  }

  lemma LoggingInv(cfg: Config, s: Store, t: Task)
    requires Inv(cfg, s, t) && t.Logging?
    ensures var (s', t') := Step(cfg, s, t); Inv(cfg, s', t')
  {
    var (s', t') := Step(cfg, s, t);
    ZAddAllAppends(s.log, t.start, t.op, t.blocks);
    LoggedShape(s.log, t.start, t.op, t.blocks, cfg.maxLen);
    forall b ensures OpFits(LastOp(s'.log, b), b in s'.rows) {
      assert b in t.blocks ==> (t.op == Upsert <==> b in s.rows);
      assert b !in t.blocks ==> OpFits(LastOp(s.log, b), b in s.rows);
      LoggedLastOp(s.log, t.start, t.op, t.blocks, cfg.maxLen, b);
    }
  }

  /** A logged batch extends the run of numbers, and trimming shortens it from below. */
  lemma LoggedShape(log: seq<Event>, start: nat, op: Op, blocks: seq<BlockId>, max: int)
    requires start >= 1 && Contiguous(log, start - 1) && NonEmptyIds(blocks)
    requires forall i :: 0 <= i < |log| ==> log[i].block != ""
    ensures var log' := Trim(log + EventsFor(start, op, blocks), max);
      && Contiguous(log', start + |blocks| - 1)
      && |log'| == (if 0 < max < |log| + |blocks| then max else |log| + |blocks|)
      && forall i :: 0 <= i < |log'| ==> log'[i].block != ""
  {
  }

  lemma LoggedLastOp(log: seq<Event>, start: nat, op: Op, blocks: seq<BlockId>, max: int, b: BlockId)
    ensures var last := LastOp(Trim(log + EventsFor(start, op, blocks), max), b);
      last.Some? ==> last == if b in blocks then Some(op) else LastOp(log, b)
  {
    LastOpEvents(start, op, blocks, b);
    LastOpConcat(log, EventsFor(start, op, blocks), b);
    LastOpTrim(log + EventsFor(start, op, blocks), max, b);
  }

  lemma {:induction false} LastOpEvents(start: nat, op: Op, blocks: seq<BlockId>, b: BlockId)
    ensures LastOp(EventsFor(start, op, blocks), b) == if b in blocks then Some(op) else None
  {
    if blocks != [] {
      var n := |blocks| - 1;
      LastOpEvents(start, op, blocks[..n], b);
      assert EventsFor(start, op, blocks)[..n] == EventsFor(start, op, blocks[..n]);
      assert blocks == blocks[..n] + [blocks[n]];
    }
  }

  /** Trimming can forget a block's last operation but never changes it. */
  lemma LastOpTrim(log: seq<Event>, max: int, b: BlockId)
    ensures LastOp(Trim(log, max), b).Some? ==> LastOp(Trim(log, max), b) == LastOp(log, b)
  {
    if 0 < max < |log| {
      var k := |log| - max;
      assert log == log[..k] + log[k..];
      LastOpConcat(log[..k], log[k..], b);
    }
  }
}
