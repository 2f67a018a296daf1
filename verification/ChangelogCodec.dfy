/** The text form `<seq>:<op>:<block_id>` of a changelog member. */
module ChangelogCodec {
  import opened SyncStore

  const DIGITS := "0123456789"

  /** `str(n)` of a sequence number. */
  function Decimal(n: nat): string {
    if n < 10 then [DIGITS[n]] else Decimal(n / 10) + [DIGITS[n % 10]]
  }

  function OpText(op: Op): string {
    match op case Upsert => "upsert" case Delete => "delete"
  }

  function Encode(e: Event): string {
    Decimal(e.num) + ":" + OpText(e.op) + ":" + e.block
  }

  /** The text before and after the first colon. */
  function SplitColon(s: string): Option<(string, string)> {
    if s == "" then None
    else if s[0] == ':' then Some(("", s[1..]))
    else match SplitColon(s[1..])
      case None => None
      case Some((x, y)) => Some(([s[0]] + x, y))
  }

  /** `member.split(":", 2)` must give three parts, a known operation and a non-empty block id. */
  function Decode(member: string): Option<(Op, BlockId)> {
    match SplitColon(member)
    case None => None
    case Some((_, rest)) =>
      match SplitColon(rest)
      case None => None
      case Some((op, block)) =>
        if block == "" then None
        else if op == "upsert" then Some((Upsert, block))
        else if op == "delete" then Some((Delete, block))
        else None
  }

  lemma {:induction false} SplitAtColon(x: string, y: string)
    requires ':' !in x
    ensures SplitColon(x + ":" + y) == Some((x, y))
  {
    var s := x + ":" + y;
    if x == "" {
      assert s[1..] == y;
    } else {
      SplitAtColon(x[1..], y);
      assert s[1..] == x[1..] + ":" + y;
      assert [s[0]] + x[1..] == x;
    }
  }

  lemma {:induction false} DecimalNoColon(n: nat)
    ensures ':' !in Decimal(n)
  {
    assert ':' !in DIGITS;
    if n >= 10 {
      DecimalNoColon(n / 10);
    }
  }

  /** The value of a run of digits, the inverse of `Decimal`. */
  function Numeral(s: string): int {
    if s == "" then 0 else 10 * Numeral(s[..|s| - 1]) + (s[|s| - 1] as int - '0' as int)
  }

  lemma {:induction false} DecimalInverse(n: nat)
    ensures Numeral(Decimal(n)) == n
  {
    assert forall d :: 0 <= d < 10 ==> DIGITS[d] as int - '0' as int == d;
    if n < 10 {
      assert Decimal(n)[..0] == "";
    } else {
      DecimalInverse(n / 10);
      assert Decimal(n)[..|Decimal(n)| - 1] == Decimal(n / 10);
    }
  }

  /** The stored text, number, operation and id with single colons between them. */
  lemma EncodedText(e: Event)
    ensures e.op == Upsert ==> Encode(e) == Decimal(e.num) + ":upsert:" + e.block
    ensures e.op == Delete ==> Encode(e) == Decimal(e.num) + ":delete:" + e.block
    ensures Encode(Event(207, Upsert, "a:b")) == "207:upsert:a:b"
    ensures Encode(Event(90, Delete, "c")) == "90:delete:c"
  {
    var num := Decimal(e.num);
    assert num + ":" + "upsert" + ":" + e.block == num + ":upsert:" + e.block;
    assert num + ":" + "delete" + ":" + e.block == num + ":delete:" + e.block;
    Digits();
    assert "207" + ":" + "upsert" + ":" + "a:b" == "207:upsert:a:b";
    assert "90" + ":" + "delete" + ":" + "c" == "90:delete:c";
  }

  lemma Digits()
    ensures Decimal(207) == "207" && Decimal(90) == "90"
  {
    assert Decimal(2) == "2" && Decimal(9) == "9";
    assert Decimal(20) == Decimal(2) + "0" && Decimal(90) == Decimal(9) + "0";
    assert Decimal(207) == Decimal(20) + "7";
  }

  /**
   * What decodes to an operation and an id, exactly: any text without a colon, one of the two words
   * and the rest of the member, which must not be empty.
   */
  lemma DecodesExactly(member: string, op: Op, block: BlockId)
    ensures Decode(member) == Some((op, block)) <==>
      block != "" &&
      exists first :: ':' !in first && member == first + (if op == Upsert then ":upsert:" else ":delete:") + block
  {
    if Decode(member) == Some((op, block)) {
      var first := DecodedParts(member, op, block);
      Joined(first, op, block);
    }
    if first :| ':' !in first && member == first + (if op == Upsert then ":upsert:" else ":delete:") + block {
      Joined(first, op, block);
      if block != "" {
        PartsDecode(first, op, block);
      }
    }
    NonEmptyBlock(member);
  }

  lemma NonEmptyBlock(member: string)
    ensures Decode(member).Some? ==> Decode(member).value.1 != ""
  {
  }

  lemma Joined(first: string, op: Op, block: BlockId)
    ensures first + ":" + (OpText(op) + ":" + block) ==
            first + (if op == Upsert then ":upsert:" else ":delete:") + block
  {
    assert ":upsert:" == ":" + "upsert" + ":" && ":delete:" == ":" + "delete" + ":";
  }

  lemma PartsDecode(first: string, op: Op, block: BlockId)
    requires ':' !in first && block != ""
    ensures Decode(first + ":" + (OpText(op) + ":" + block)) == Some((op, block))
  {
    SplitAtColon(first, OpText(op) + ":" + block);
    SplitAtColon(OpText(op), block);
  }

  lemma DecodedParts(member: string, op: Op, block: BlockId) returns (first: string)
    requires Decode(member) == Some((op, block))
    ensures ':' !in first && member == first + ":" + (OpText(op) + ":" + block)
  {
    SplitJoins(member);
    first := SplitColon(member).value.0;
    SplitJoins(SplitColon(member).value.1);
  }

  /** The two parts of a split, joined by a colon, are the text. */
  lemma {:induction false} SplitJoins(s: string)
    ensures SplitColon(s).Some? ==>
      s == SplitColon(s).value.0 + ":" + SplitColon(s).value.1 && ':' !in SplitColon(s).value.0
  {
    if s != "" && s[0] != ':' {
      SplitJoins(s[1..]);
      assert s == [s[0]] + s[1..];
    }
  }

  /** Decoding undoes encoding exactly for the non-empty block ids, colons in the id included. */
  lemma RoundTrip(e: Event)
    ensures Decode(Encode(e)) == if e.block == "" then None else Some((e.op, e.block))
  {
    SplitEncoded(e);
  }

  /** An encoded event splits back into its three parts. */
  lemma SplitEncoded(e: Event)
    ensures SplitColon(Encode(e)) == Some((Decimal(e.num), OpText(e.op) + ":" + e.block))
    ensures SplitColon(OpText(e.op) + ":" + e.block) == Some((OpText(e.op), e.block))
  {
    DecimalNoColon(e.num);
    var rest := OpText(e.op) + ":" + e.block;
    assert Encode(e) == Decimal(e.num) + ":" + rest;
    SplitAtColon(Decimal(e.num), rest);
    SplitAtColon(OpText(e.op), e.block);
  }

  /** Members of different events differ, so no entry ever overwrites another in the sorted set. */
  lemma EncodeInjective(e: Event, f: Event)
    requires Encode(e) == Encode(f)
    ensures e == f
  {
    SplitEncoded(e);
    SplitEncoded(f);
    DecimalInverse(e.num);
    DecimalInverse(f.num);
    assert OpText(e.op) == OpText(f.op);
  }
}
