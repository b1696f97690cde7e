/** RESP3 values as one record with a kind, what serializing one writes, and what parsing gives.
    The imperative code is proved against these functions in TaggedCodec. */
module Tagged {
  import opened Wire
  import opened Decimal
  import opened Floats
  import opened Framing
  import opened Resp3

  /** KindOther stands for the values of the kind's byte that name no kind. */
  datatype Kind =
    | KindSimpleString | KindError | KindInteger | KindBigNumber | KindDouble | KindBoolean | KindNull
    | KindBulkString | KindBlobError | KindVerbatimString
    | KindArray | KindSet | KindPush | KindMap | KindAttribute
    | KindOther(code: byte)

  datatype Value = Value(
    kind: Kind,
    str: bytes,
    num: int64,
    flt: Float,
    flag: bool,
    format: bytes,
    items: seq<Value>,
    pairs: seq<Pair>,
    inner: Option<Value>)

  datatype Pair = Pair(key: Value, value: Value)

  /** Every field but the kind is zero. */
  function Blank(kind: Kind): Value {
    Value(kind, [], 0, Finite(0), false, [], [], [], None)
  }

  function NewSimpleString(s: bytes): Value { Blank(KindSimpleString).(str := s) }
  function NewError(s: bytes): Value { Blank(KindError).(str := s) }
  function NewBigNumber(s: bytes): Value { Blank(KindBigNumber).(str := s) }
  function NewBulkString(s: bytes): Value { Blank(KindBulkString).(str := s) }
  function NewBlobError(s: bytes): Value { Blank(KindBlobError).(str := s) }
  function NewVerbatimString(format: bytes, s: bytes): Value {
    Blank(KindVerbatimString).(format := format, str := s)
  }
  function NewInteger(n: int64): Value { Blank(KindInteger).(num := n) }
  function NewDouble(f: Float): Value { Blank(KindDouble).(flt := f) }
  function NewBoolean(b: bool): Value { Blank(KindBoolean).(flag := b) }
  function NewNull(): Value { Blank(KindNull) }
  function NewArray(items: seq<Value>): Value { Blank(KindArray).(items := items) }
  function NewSet(items: seq<Value>): Value { Blank(KindSet).(items := items) }
  function NewPush(items: seq<Value>): Value { Blank(KindPush).(items := items) }
  function NewMap(pairs: seq<Pair>): Value { Blank(KindMap).(pairs := pairs) }
  function NewAttribute(pairs: seq<Pair>, inner: Value): Value {
    Blank(KindAttribute).(pairs := pairs, inner := Some(inner))
  }

  /** The bytes that serializing `v` appends to its builder; an unknown kind appends nothing. */
  function Written(ft: FloatText, v: Value): bytes
    decreases v, 1
  {
    match v.kind
    case KindSimpleString => LineOf(PLUS, v.str)
    case KindError => LineOf(MINUS, v.str)
    case KindInteger => LineOf(COLON_MARK, FormatInt(v.num))
    case KindBigNumber => LineOf(PAREN, v.str)
    case KindDouble => LineOf(COMMA, FormatDouble(ft, v.flt))
    case KindBoolean => LineOf(HASH, if v.flag then TRUE_TEXT else FALSE_TEXT)
    case KindNull => LineOf(UNDERSCORE, [])
    case KindBulkString => BlobOf(DOLLAR, v.str)
    case KindBlobError => BlobOf(BANG, v.str)
    case KindVerbatimString => BlobOf(EQUALS, v.format + [COLON] + v.str)
    case KindArray => CountOf(STAR, |v.items|) + WrittenItems(ft, v.items)
    case KindSet => CountOf(TILDE, |v.items|) + WrittenItems(ft, v.items)
    case KindPush => CountOf(GREATER, |v.items|) + WrittenItems(ft, v.items)
    case KindMap => CountOf(PERCENT, |v.pairs|) + WrittenPairs(ft, v.pairs)
    case KindAttribute =>
      CountOf(BAR, |v.pairs|) + WrittenPairs(ft, v.pairs) + if v.inner.None? then [] else Written(ft, v.inner.value)
    case KindOther(_) => []
  }

  function WrittenItems(ft: FloatText, items: seq<Value>): bytes
    decreases items, 0
  {
    if items == [] then [] else Written(ft, items[0]) + WrittenItems(ft, items[1..])
  }

  function WrittenPairs(ft: FloatText, pairs: seq<Pair>): bytes
    decreases pairs, 0
  {
    if pairs == [] then [] else WrittenPair(ft, pairs[0]) + WrittenPairs(ft, pairs[1..])
  }

  function WrittenPair(ft: FloatText, p: Pair): bytes
    decreases p, 0
  {
    Written(ft, p.key) + Written(ft, p.value)
  }

  // Parsing, factored as the tagged parser is: blobs and aggregates take a kind, and maps and
  // attributes read their own counts.

  function LineTagged(ft: FloatText, m: byte, line: bytes): Option<Value>
    requires IsLineMarker(m)
  {
    if m == PLUS then Some(NewSimpleString(line))
    else if m == MINUS then Some(NewError(line))
    else if m == COLON_MARK then
      var n := ParseInt(line);
      if n.None? then None else Some(NewInteger(n.value))
    else if m == PAREN then Some(NewBigNumber(line))
    else if m == COMMA then
      var f := ParseDouble(ft, line);
      if f.None? then None else Some(NewDouble(f.value))
    else if m == HASH then
      if line == TRUE_TEXT then Some(NewBoolean(true))
      else if line == FALSE_TEXT then Some(NewBoolean(false))
      else None
    else Some(NewNull())
  }

  function ReadTagged(ft: FloatText, s: bytes): (r: Outcome<Value>)
    ensures r.Ok? ==> 2 <= r.used <= |s|
    decreases |s|, 0
  {
    if s == [] then Incomplete
    else
      var m, rest := s[0], s[1..];
      if IsLineMarker(m) then
        var (line, k) :- ReadLine(rest);
        OrMalformed(LineTagged(ft, m, line), 1 + k)
      else if m == DOLLAR then
        var (v, k) :- BlobAs(KindBulkString, rest);
        Ok(v, 1 + k)
      else if m == BANG then
        var (v, k) :- BlobAs(KindBlobError, rest);
        Ok(v, 1 + k)
      else if m == EQUALS then
        var (v, k) :- Verbatim(rest);
        Ok(v, 1 + k)
      else if m == STAR then
        var (v, k) :- AggregateAs(ft, KindArray, rest);
        Ok(v, 1 + k)
      else if m == TILDE then
        var (v, k) :- AggregateAs(ft, KindSet, rest);
        Ok(v, 1 + k)
      else if m == GREATER then
        var (v, k) :- AggregateAs(ft, KindPush, rest);
        Ok(v, 1 + k)
      else if m == PERCENT then
        var (v, k) :- ReadMap(ft, rest);
        Ok(v, 1 + k)
      else if m == BAR then
        var (v, k) :- ReadAttribute(ft, rest);
        Ok(v, 1 + k)
      else Malformed
  }

  function BlobAs(kind: Kind, s: bytes): (r: Outcome<Value>)
    ensures r.Ok? ==> 1 <= r.used <= |s|
  {
    var (payload, k) :- ReadBlob(s);
    Ok(Blank(kind).(str := payload), k)
  }

  function Verbatim(s: bytes): (r: Outcome<Value>)
    ensures r.Ok? ==> 1 <= r.used <= |s|
  {
    var (payload, k) :- ReadBlob(s);
    var cut := Cut(payload);
    if cut.None? then Malformed else Ok(NewVerbatimString(cut.value.0, cut.value.1), k)
  }

  function AggregateAs(ft: FloatText, kind: Kind, s: bytes): (r: Outcome<Value>)
    ensures r.Ok? ==> 1 <= r.used <= |s|
    decreases |s|, 0
  {
    var (n, header) :- ReadCount(s);
    var (items, k) :- ReadItems(ft, n, s[header..]);
    Ok(Blank(kind).(items := items), header + k)
  }

  function ReadMap(ft: FloatText, s: bytes): (r: Outcome<Value>)
    ensures r.Ok? ==> 1 <= r.used <= |s|
    decreases |s|, 0
  {
    var (n, header) :- ReadCount(s);
    var (pairs, k) :- ReadPairs(ft, n, s[header..]);
    Ok(NewMap(pairs), header + k)
  }

  function ReadAttribute(ft: FloatText, s: bytes): (r: Outcome<Value>)
    ensures r.Ok? ==> 1 <= r.used <= |s|
    decreases |s|, 0
  {
    var (n, header) :- ReadCount(s);
    var (pairs, k) :- ReadPairs(ft, n, s[header..]);
    var (inner, j) :- ReadTagged(ft, s[header + k..]);
    Ok(NewAttribute(pairs, inner), header + k + j)
  }

  function ReadItems(ft: FloatText, n: nat, s: bytes): (r: Outcome<seq<Value>>)
    ensures r.Ok? ==> |r.value| == n && r.used <= |s|
    decreases |s|, n + 1
  {
    if n == 0 then Ok([], 0)
    else
      var (item, k) :- ReadTagged(ft, s);
      var (items, j) :- ReadItems(ft, n - 1, s[k..]);
      Ok([item] + items, k + j)
  }

  function ReadPairs(ft: FloatText, n: nat, s: bytes): (r: Outcome<seq<Pair>>)
    ensures r.Ok? ==> |r.value| == n && r.used <= |s|
    decreases |s|, n + 2
  {
    if n == 0 then Ok([], 0)
    else
      var (pair, k) :- ReadPair(ft, s);
      var (pairs, j) :- ReadPairs(ft, n - 1, s[k..]);
      Ok([pair] + pairs, k + j)
  }

  function ReadPair(ft: FloatText, s: bytes): (r: Outcome<Pair>)
    ensures r.Ok? ==> 4 <= r.used <= |s|
    decreases |s|, 1
  {
    var (key, k) :- ReadTagged(ft, s);
    var (value, j) :- ReadTagged(ft, s[k..]);
    Ok(Pair(key, value), k + j)
  }
}
