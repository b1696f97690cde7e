/** RESP3 values as a closed sum of types, what serializing one writes, and what parsing accepts.
    The imperative code is proved against these functions in SealedCodec. */
module Resp3 {
  import opened Wire
  import opened Decimal
  import opened Floats
  import opened Framing

  datatype Type =
    | SimpleString(text: bytes)
    | ErrorReply(text: bytes)
    | Integer(n: int64)
    | BigNumber(text: bytes)
    | Double(f: Float)
    | Boolean(b: bool)
    | Null
    | BulkString(blob: bytes)
    | BlobError(blob: bytes)
    | VerbatimString(format: bytes, body: bytes)
    | Array(items: seq<Type>)
    | Set(items: seq<Type>)
    | Push(items: seq<Type>)
    | Map(pairs: seq<KeyValue>)
    | Attribute(pairs: seq<KeyValue>, inner: Option<Type>)

  datatype KeyValue = KeyValue(key: Type, value: Type)

  // Type markers, in ASCII.
  const PLUS: byte := 43
  const MINUS: byte := 45
  const COLON_MARK: byte := 58
  const PAREN: byte := 40
  const COMMA: byte := 44
  const HASH: byte := 35
  const UNDERSCORE: byte := 95
  const DOLLAR: byte := 36
  const BANG: byte := 33
  const EQUALS: byte := 61
  const STAR: byte := 42
  const TILDE: byte := 126
  const GREATER: byte := 62
  const PERCENT: byte := 37
  const BAR: byte := 124

  const TRUE_TEXT: bytes := [116]
  const FALSE_TEXT: bytes := [102]

  /** The constants are the characters they are named for. */
  lemma ConstantsAreAscii()
    ensures PLUS == '+' as byte && MINUS == '-' as byte && COLON_MARK == ':' as byte && PAREN == '(' as byte
    ensures COMMA == ',' as byte && HASH == '#' as byte && UNDERSCORE == '_' as byte
    ensures DOLLAR == '$' as byte && BANG == '!' as byte && EQUALS == '=' as byte
    ensures STAR == '*' as byte && TILDE == '~' as byte && GREATER == '>' as byte
    ensures PERCENT == '%' as byte && BAR == '|' as byte
    ensures CR == '\r' as byte && LF == '\n' as byte && COLON == ':' as byte
    ensures TRUE_TEXT == ['t' as byte] && FALSE_TEXT == ['f' as byte]
    ensures NAN == ['n' as byte, 'a' as byte, 'n' as byte]
    ensures INF == ['i' as byte, 'n' as byte, 'f' as byte] && NEG_INF == ['-' as byte] + INF
    ensures PLUS_SIGN == '+' as byte && MINUS_SIGN == '-' as byte && ZERO == '0' as byte
  {
  }

  // Serialization.

  function LineOf(marker: byte, text: bytes): bytes {
    [marker] + text + CRLF
  }

  function CountOf(marker: byte, n: nat): bytes {
    [marker] + FormatInt(n) + CRLF
  }

  function BlobOf(marker: byte, s: bytes): bytes {
    CountOf(marker, |s|) + s + CRLF
  }

  /** The canonical encoding of a value: what Serialize returns. */
  function Canonical(ft: FloatText, v: Type): bytes
    decreases v, 1
  {
    match v
    case SimpleString(s) => LineOf(PLUS, s)
    case ErrorReply(s) => LineOf(MINUS, s)
    case Integer(n) => LineOf(COLON_MARK, FormatInt(n))
    case BigNumber(s) => LineOf(PAREN, s)
    case Double(f) => LineOf(COMMA, FormatDouble(ft, f))
    case Boolean(b) => LineOf(HASH, if b then TRUE_TEXT else FALSE_TEXT)
    case Null => LineOf(UNDERSCORE, [])
    case BulkString(s) => BlobOf(DOLLAR, s)
    case BlobError(s) => BlobOf(BANG, s)
    case VerbatimString(format, s) => BlobOf(EQUALS, format + [COLON] + s)
    case Array(items) => CountOf(STAR, |items|) + CanonicalItems(ft, items)
    case Set(items) => CountOf(TILDE, |items|) + CanonicalItems(ft, items)
    case Push(items) => CountOf(GREATER, |items|) + CanonicalItems(ft, items)
    case Map(pairs) => CountOf(PERCENT, |pairs|) + CanonicalPairs(ft, pairs)
    case Attribute(pairs, inner) =>
      CountOf(BAR, |pairs|) + CanonicalPairs(ft, pairs) + if inner.None? then [] else Canonical(ft, inner.value)
  }

  function CanonicalItems(ft: FloatText, items: seq<Type>): bytes
    decreases items, 0
  {
    if items == [] then [] else Canonical(ft, items[0]) + CanonicalItems(ft, items[1..])
  }

  function CanonicalPairs(ft: FloatText, pairs: seq<KeyValue>): bytes
    decreases pairs, 0
  {
    if pairs == [] then [] else CanonicalPair(ft, pairs[0]) + CanonicalPairs(ft, pairs[1..])
  }

  function CanonicalPair(ft: FloatText, p: KeyValue): bytes
    decreases p, 0
  {
    Canonical(ft, p.key) + Canonical(ft, p.value)
  }

  // Parsing.

  predicate IsLineMarker(m: byte) {
    m == PLUS || m == MINUS || m == COLON_MARK || m == PAREN || m == COMMA || m == HASH || m == UNDERSCORE
  }

  predicate IsBlobMarker(m: byte) {
    m == DOLLAR || m == BANG || m == EQUALS
  }

  predicate IsAggregateMarker(m: byte) {
    m == STAR || m == TILDE || m == GREATER
  }

  function LineValue(ft: FloatText, m: byte, line: bytes): Option<Type>
    requires IsLineMarker(m)
  {
    if m == PLUS then Some(SimpleString(line))
    else if m == MINUS then Some(ErrorReply(line))
    else if m == COLON_MARK then
      var n := ParseInt(line);
      if n.None? then None else Some(Integer(n.value))
    else if m == PAREN then Some(BigNumber(line))
    else if m == COMMA then
      var f := ParseDouble(ft, line);
      if f.None? then None else Some(Double(f.value))
    else if m == HASH then
      if line == TRUE_TEXT then Some(Boolean(true))
      else if line == FALSE_TEXT then Some(Boolean(false))
      else None
    else Some(Null)
  }

  function BlobValue(m: byte, payload: bytes): Option<Type>
    requires IsBlobMarker(m)
  {
    if m == DOLLAR then Some(BulkString(payload))
    else if m == BANG then Some(BlobError(payload))
    else
      var cut := Cut(payload);
      if cut.None? then None else Some(VerbatimString(cut.value.0, cut.value.1))
  }

  function AggregateValue(m: byte, items: seq<Type>): Type
    requires IsAggregateMarker(m)
  {
    if m == STAR then Array(items) else if m == TILDE then Set(items) else Push(items)
  }

  function OrMalformed<T>(v: Option<T>, used: nat): Outcome<T> {
    if v.None? then Malformed else Ok(v.value, used)
  }

  /** One value off the front of `s`. */
  function Decode(ft: FloatText, s: bytes): (r: Outcome<Type>)
    ensures r.Ok? ==> 2 <= r.used <= |s|
    decreases |s|, 0
  {
    if s == [] then Incomplete
    else
      var m, rest := s[0], s[1..];
      if IsLineMarker(m) then
        var (line, k) :- ReadLine(rest);
        OrMalformed(LineValue(ft, m, line), 1 + k)
      else if IsBlobMarker(m) then
        var (payload, k) :- ReadBlob(rest);
        OrMalformed(BlobValue(m, payload), 1 + k)
      else if IsAggregateMarker(m) then
        var (items, k) :- DecodeAggregate(ft, rest);
        Ok(AggregateValue(m, items), 1 + k)
      else if m == PERCENT then
        var (pairs, k) :- DecodePairList(ft, rest);
        Ok(Map(pairs), 1 + k)
      else if m == BAR then
        var (attribute, k) :- DecodeAttribute(ft, rest);
        Ok(attribute, 1 + k)
      else Malformed
  }

  function DecodeAggregate(ft: FloatText, s: bytes): (r: Outcome<seq<Type>>)
    ensures r.Ok? ==> 1 <= r.used <= |s|
    decreases |s|, 0
  {
    var (n, header) :- ReadCount(s);
    var (items, k) :- DecodeItems(ft, n, s[header..]);
    Ok(items, header + k)
  }

  function DecodeItems(ft: FloatText, n: nat, s: bytes): (r: Outcome<seq<Type>>)
    ensures r.Ok? ==> |r.value| == n && r.used <= |s|
    decreases |s|, n + 1
  {
    if n == 0 then Ok([], 0)
    else
      var (item, k) :- Decode(ft, s);
      var (items, j) :- DecodeItems(ft, n - 1, s[k..]);
      Ok([item] + items, k + j)
  }

  function DecodeAttribute(ft: FloatText, s: bytes): (r: Outcome<Type>)
    ensures r.Ok? ==> 1 <= r.used <= |s|
    decreases |s|, 1
  {
    var (pairs, k) :- DecodePairList(ft, s);
    var (inner, j) :- Decode(ft, s[k..]);
    Ok(Attribute(pairs, Some(inner)), k + j)
  }

  function DecodePairList(ft: FloatText, s: bytes): (r: Outcome<seq<KeyValue>>)
    ensures r.Ok? ==> 1 <= r.used <= |s|
    decreases |s|, 0
  {
    var (n, header) :- ReadCount(s);
    var (pairs, k) :- DecodePairs(ft, n, s[header..]);
    Ok(pairs, header + k)
  }

  function DecodePairs(ft: FloatText, n: nat, s: bytes): (r: Outcome<seq<KeyValue>>)
    ensures r.Ok? ==> |r.value| == n && r.used <= |s|
    decreases |s|, n + 2
  {
    if n == 0 then Ok([], 0)
    else
      var (pair, k) :- DecodePair(ft, s);
      var (pairs, j) :- DecodePairs(ft, n - 1, s[k..]);
      Ok([pair] + pairs, k + j)
  }

  function DecodePair(ft: FloatText, s: bytes): (r: Outcome<KeyValue>)
    ensures r.Ok? ==> 4 <= r.used <= |s|
    decreases |s|, 1
  {
    var (key, k) :- Decode(ft, s);
    var (value, j) :- Decode(ft, s[k..]);
    Ok(KeyValue(key, value), k + j)
  }

  // Well-formed values: exactly those that survive a round trip (see Grammar and Codec).

  predicate FitsInt(n: nat) {
    n <= MAX_INT64
  }

  predicate WellFormed(v: Type)
    decreases v, 1
  {
    match v
    case SimpleString(s) => LF !in s
    case ErrorReply(s) => LF !in s
    case BigNumber(s) => LF !in s
    case BulkString(s) => FitsInt(|s|)
    case BlobError(s) => FitsInt(|s|)
    case VerbatimString(format, s) => COLON !in format && FitsInt(|format| + 1 + |s|)
    case Array(items) => FitsInt(|items|) && WellFormedItems(items)
    case Set(items) => FitsInt(|items|) && WellFormedItems(items)
    case Push(items) => FitsInt(|items|) && WellFormedItems(items)
    case Map(pairs) => FitsInt(|pairs|) && WellFormedPairs(pairs)
    case Attribute(pairs, inner) =>
      FitsInt(|pairs|) && WellFormedPairs(pairs) && inner.Some? && WellFormed(inner.value)
    case _ => true
  }

  predicate WellFormedItems(items: seq<Type>)
    decreases items, 0
  {
    items != [] ==> WellFormed(items[0]) && WellFormedItems(items[1..])
  }

  predicate WellFormedPairs(pairs: seq<KeyValue>)
    decreases pairs, 0
  {
    pairs != [] ==> WellFormedPair(pairs[0]) && WellFormedPairs(pairs[1..])
  }

  predicate WellFormedPair(p: KeyValue)
    decreases p, 0
  {
    WellFormed(p.key) && WellFormed(p.value)
  }
}
