/** Field values of a block, as text in a Redis hash and back. */
module FieldCodec {
  import opened SyncStore
  import opened ChangelogCodec
  import opened TimestampDiff

  /**
   * A field value of a queue message; `C` are the JSON objects and arrays, and `Other` is any other
   * value, such as a floating-point number, as the text `str` gives it.
   */
  datatype Value<C> = Nothing | Bool(b: bool) | Int(i: int) | Text(s: string) | Other(s: string) | Container(c: C)

  /** The JSON library: `dumps` of an object or array, `loads` of a text. */
  datatype Json<!C> = Json(dumps: C -> string, loads: string -> Option<C>)

  predicate LooksJson(s: string) {
    s != "" && (s[0] == '{' || s[0] == '[')
  }

  /** What is relied on: printing starts with a bracket (RFC 8259, sections 4 and 5) and loading undoes it. */
  ghost predicate Lawful<C(!new)>(json: Json<C>) {
    forall c {:trigger json.dumps(c)} ::
      var s := json.dumps(c);
      s != "" && (s[0] == '{' || s[0] == '[') && json.loads(s) == Some(c)
  }

  /** A number in braces or in brackets. */
  datatype Enclosed = Enclosed(curly: bool, n: nat)

  function DumpEnclosed(e: Enclosed): string {
    if e.curly then "{" + Decimal(e.n) + "}" else "[" + Decimal(e.n) + "]"
  }

  function LoadEnclosed(s: string): Option<Enclosed> {
    if |s| >= 2 && Numeral(s[1..|s| - 1]) >= 0
    then Some(Enclosed(s[0] == '{', Numeral(s[1..|s| - 1])))
    else None
  }

  /** Such a library exists: here the objects and arrays are enclosed numbers. */
  lemma LawCanBeMet()
    ensures Lawful(Json(DumpEnclosed, LoadEnclosed))
    ensures forall n: nat :: DumpEnclosed(Enclosed(true, n))[0] == '{' && DumpEnclosed(Enclosed(false, n))[0] == '['
  {
    forall e: Enclosed ensures LoadEnclosed(DumpEnclosed(e)) == Some(e) {
      var s := DumpEnclosed(e);
      assert s[1..|s| - 1] == Decimal(e.n);
      DecimalInverse(e.n);
    }
  }

  function IntText(i: int): string {
    if i < 0 then "-" + Decimal(-i) else Decimal(i)
  }

  function Prepare<C>(json: Json<C>, v: Value<C>): string {
    match v
    case Nothing => "null"
    case Container(c) => json.dumps(c)
    case Bool(b) => if b then "true" else "false"
    case Int(i) => IntText(i)
    case Text(s) => s
    case Other(s) => s
  }

  function Parse<C>(json: Json<C>, s: string): Value<C> {
    if s == "null" then Nothing
    else if s == "true" then Bool(true)
    else if s == "false" then Bool(false)
    else if LooksJson(s) then
      match json.loads(s)
      case Some(c) => Container(c)
      case None => Text(s)
    else Text(s)
  }

  function PrepareAll<C>(json: Json<C>, data: map<string, Value<C>>): map<string, string> {
    map k | k in data :: Prepare(json, data[k])
  }

  function ParseAll<C>(json: Json<C>, row: map<string, string>): map<string, Value<C>> {
    map k | k in row :: Parse(json, row[k])
  }

  // ---- the loops ----

  /** `prepare_block_data_for_redis`. */
  method PrepareBlockData<C>(json: Json<C>, data: map<string, Value<C>>) returns (result: map<string, string>)
    ensures result == PrepareAll(json, data)
    ensures result.Keys == data.Keys
    ensures forall k :: k in data ==>
      match data[k]
      case Nothing => result[k] == "null"
      case Bool(b) => result[k] == if b then "true" else "false"
      case Int(i) => result[k] == if i < 0 then "-" + Decimal(-i) else Decimal(i)
      case Text(s) => result[k] == s
      case Other(s) => result[k] == s
      case Container(c) => result[k] == json.dumps(c)
  {
    result := map[];
    var done := {};
    while data.Keys - done != {}
      invariant done <= data.Keys
      invariant result == map k | k in done :: Prepare(json, data[k])
      decreases data.Keys - done
    {
      var key :| key in data.Keys - done;
      match data[key] {
        case Nothing => result := result[key := "null"];
        case Container(c) => result := result[key := json.dumps(c)];
        case Bool(b) => result := result[key := if b then "true" else "false"];
        case Int(i) => result := result[key := IntText(i)];
        case Text(s) => result := result[key := s];
        case Other(s) => result := result[key := s];
      }
      done := done + {key};
    }
    forall k | k in data.Keys ensures k in done {
      assert k !in data.Keys - done;
    }
  }

  /** `parse_redis_block_data`. */
  method ParseBlockData<C>(json: Json<C>, row: map<string, string>) returns (result: map<string, Value<C>>)
    ensures result == ParseAll(json, row)
    ensures result.Keys == row.Keys
    ensures forall k :: k in row ==>
      var s := row[k];
      && (s == "null" ==> result[k] == Nothing)
      && (s == "true" ==> result[k] == Bool(true))
      && (s == "false" ==> result[k] == Bool(false))
      && (s != "" && (s[0] == '{' || s[0] == '[') ==>
            result[k] == if json.loads(s).Some? then Container(json.loads(s).value) else Text(s))
      && (s == "" || (s[0] != '{' && s[0] != '[' && s != "null" && s != "true" && s != "false") ==>
            result[k] == Text(s))
  {
    result := map[];
    var done := {};
    while row.Keys - done != {}
      invariant done <= row.Keys
      invariant result == map k | k in done :: Parse(json, row[k])
      decreases row.Keys - done
    {
      var key :| key in row.Keys - done;
      var value := row[key];
      if value == "null" {
        result := result[key := Nothing];
      } else if value == "true" {
        result := result[key := Bool(true)];
      } else if value == "false" {
        result := result[key := Bool(false)];
      } else if LooksJson(value) {
        var loaded := json.loads(value);
        result := result[key := if loaded.Some? then Container(loaded.value) else Text(value)];
      } else {
        result := result[key := Text(value)];
      }
      done := done + {key};
    }
    forall k | k in row.Keys ensures k in done {
      assert k !in row.Keys - done;
    }
  }

  // ---- round trips ----

  /** Texts that come back as something else: the reserved words and JSON objects and arrays. */
  predicate Reserved<C>(json: Json<C>, s: string) {
    s == "null" || s == "true" || s == "false" || (LooksJson(s) && json.loads(s).Some?)
  }

  /** The values a round trip restores, exactly. */
  predicate Survives<C>(json: Json<C>, v: Value<C>) {
    match v
    case Int(_) => false
    case Other(_) => false
    case Text(s) => !Reserved(json, s)
    case _ => true
  }

  lemma {:induction false} DecimalPlain(n: nat)
    ensures Decimal(n) != "" && '0' <= Decimal(n)[0] <= '9'
  {
    assert forall d :: 0 <= d < 10 ==> '0' <= DIGITS[d] <= '9';
    if n >= 10 {
      DecimalPlain(n / 10);
    }
  }

  lemma IntTextPlain<C>(json: Json<C>, i: int)
    ensures Parse(json, IntText(i)) == Text(IntText(i))
  {
    DecimalPlain(if i < 0 then -i else i);
  }

  /** The same said of one text. */
  lemma ParseReads<C>(json: Json<C>, s: string)
    ensures Parse(json, "null") == Nothing && Parse(json, "true") == Bool(true) && Parse(json, "false") == Bool(false)
    ensures s != "" && (s[0] == '{' || s[0] == '[') ==>
      Parse(json, s) == if json.loads(s).Some? then Container(json.loads(s).value) else Text(s)
    ensures s == "" || (s[0] != '{' && s[0] != '[' && s != "null" && s != "true" && s != "false") ==>
      Parse(json, s) == Text(s)
  {
  }

  /** Storing and reading a value restores it exactly when it survives; a number becomes its text. */
  lemma ValueRoundTrip<C(!new)>(json: Json<C>, v: Value<C>)
    requires Lawful(json)
    ensures Parse(json, Prepare(json, v)) == v <==> Survives(json, v)
    ensures v.Int? ==> Parse(json, Prepare(json, v)) == Text(IntText(v.i))
    ensures v.Text? && v.s != "null" && v.s != "true" && v.s != "false" &&
            (v.s == "" || (v.s[0] != '{' && v.s[0] != '[') || json.loads(v.s).None?) ==>
      Parse(json, Prepare(json, v)) == v
    ensures v.Nothing? || v.Bool? || v.Container? ==> Parse(json, Prepare(json, v)) == v
    ensures v.Other? && !Reserved(json, v.s) ==> Parse(json, Prepare(json, v)) == Text(v.s)
  {
    match v
    case Int(i) => IntTextPlain(json, i);
    case Container(c) => assert LooksJson(json.dumps(c));
    case _ =>
  }

  lemma {:induction false} DecimalDigits(n: nat)
    ensures IsDigits(Decimal(n))
  {
    assert forall d :: 0 <= d < 10 ==> '0' <= DIGITS[d] <= '9';
    if n >= 10 {
      DecimalDigits(n / 10);
    }
  }

  /** A block stored with an integer time is read with that time by both readers. */
  lemma TimeSurvives<C>(json: Json<C>, data: map<string, Value<C>>, time: int)
    requires "updated_at" in data && data["updated_at"] == Int(time)
    ensures Time(PrepareAll(json, data)) == Some(time)
  {
    var n := if time < 0 then -time else time;
    DecimalDigits(n);
    DecimalInverse(n);
    DecimalPlain(n);
    assert time < 0 ==> IntText(time)[1..] == Decimal(n);
  }

  lemma BlockRoundTrip<C(!new)>(json: Json<C>, data: map<string, Value<C>>)
    requires Lawful(json)
    ensures ParseAll(json, PrepareAll(json, data)) == data <==> forall k :: k in data ==> Survives(json, data[k])
  {
    var back := ParseAll(json, PrepareAll(json, data));
    forall k | k in data ensures back[k] == data[k] <==> Survives(json, data[k]) {
      ValueRoundTrip(json, data[k]);
    }
  }

  /** What has been read from Redis once can be written back and read again without change. */
  lemma ReadWriteRead<C(!new)>(json: Json<C>, row: map<string, string>)
    requires Lawful(json)
    ensures ParseAll(json, PrepareAll(json, ParseAll(json, row))) == ParseAll(json, row)
  {
    forall k | k in row ensures Survives(json, Parse(json, row[k])) {
    }
    BlockRoundTrip(json, ParseAll(json, row));
  }
}
