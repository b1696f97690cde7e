/** The tagged-union codec, method by method: serializers that append to one shared builder and
    a parser that moves one shared cursor. */
module TaggedCodec {
  import opened Wire
  import opened Decimal
  import opened Floats
  import opened Resp3
  import opened Tagged
  import opened ByteReader
  import Framing

  class Builder {
    var content: bytes

    constructor ()
      ensures content == []
    {
      content := [];
    }

    method WriteByte(b: byte)
      modifies this
      ensures content == old(content) + [b]
    {
      content := content + [b];
    }

    method WriteString(s: bytes)
      modifies this
      ensures content == old(content) + s
    {
      content := content + s;
    }
  }

  method SerializeTagged(ft: FloatText, v: Value) returns (s: bytes)
    ensures s == Written(ft, v)
  {
    var b := new Builder();
    SerializeTo(ft, b, v);
    s := b.content;
  }

  /** Leaves what the builder holds and appends the encoding of `v`. */
  method SerializeTo(ft: FloatText, b: Builder, v: Value)
    modifies b
    ensures b.content == old(b.content) + Written(ft, v)
    decreases v, 1
  {
    hide FormatInt, FormatDouble, WrittenItems, WrittenPairs;
    match v.kind
    case KindSimpleString => WriteLine(b, PLUS, v.str);
    case KindError => WriteLine(b, MINUS, v.str);
    case KindInteger => WriteLine(b, COLON_MARK, FormatInt(v.num));
    case KindBigNumber => WriteLine(b, PAREN, v.str);
    case KindDouble => WriteLine(b, COMMA, FormatDouble(ft, v.flt));
    case KindBoolean => WriteLine(b, HASH, if v.flag then TRUE_TEXT else FALSE_TEXT);
    case KindNull => WriteLine(b, UNDERSCORE, []);
    case KindBulkString => WriteBlob(b, DOLLAR, v.str);
    case KindBlobError => WriteBlob(b, BANG, v.str);
    case KindVerbatimString => WriteBlob(b, EQUALS, v.format + [COLON] + v.str);
    case KindArray => WriteAggregate(ft, b, STAR, v.items);
    case KindSet => WriteAggregate(ft, b, TILDE, v.items);
    case KindPush => WriteAggregate(ft, b, GREATER, v.items);
    case KindMap => WritePairs(ft, b, PERCENT, v.pairs);
    case KindAttribute =>
      WritePairs(ft, b, BAR, v.pairs);
      if v.inner.Some? {
        SerializeTo(ft, b, v.inner.value);
      }
    case KindOther(_) => assert Written(ft, v) == [];
  }

  method WriteLine(b: Builder, marker: byte, text: bytes)
    modifies b
    ensures b.content == old(b.content) + LineOf(marker, text)
  {
    b.WriteByte(marker);
    b.WriteString(text);
    b.WriteString(CRLF);
  }

  method WriteBlob(b: Builder, marker: byte, s: bytes)
    modifies b
    ensures b.content == old(b.content) + BlobOf(marker, s)
  {
    hide FormatInt;
    b.WriteByte(marker);
    b.WriteString(FormatInt(|s|));
    b.WriteString(CRLF);
    b.WriteString(s);
    b.WriteString(CRLF);
  }

  method WriteAggregate(ft: FloatText, b: Builder, marker: byte, items: seq<Value>)
    modifies b
    ensures b.content == old(b.content) + (CountOf(marker, |items|) + WrittenItems(ft, items))
    decreases items, 0
  {
    hide Written, FormatInt;
    b.WriteByte(marker);
    b.WriteString(FormatInt(|items|));
    b.WriteString(CRLF);
    for i := 0 to |items|
      invariant b.content + WrittenItems(ft, items[i..])
             == old(b.content) + (CountOf(marker, |items|) + WrittenItems(ft, items))
    {
      assert items[i..][1..] == items[i + 1..];
      SerializeTo(ft, b, items[i]);
    }
  }

  method WritePairs(ft: FloatText, b: Builder, marker: byte, pairs: seq<Pair>)
    modifies b
    ensures b.content == old(b.content) + (CountOf(marker, |pairs|) + WrittenPairs(ft, pairs))
    decreases pairs, 0
  {
    hide Written, FormatInt;
    b.WriteByte(marker);
    b.WriteString(FormatInt(|pairs|));
    b.WriteString(CRLF);
    for i := 0 to |pairs|
      invariant b.content + WrittenPairs(ft, pairs[i..])
             == old(b.content) + (CountOf(marker, |pairs|) + WrittenPairs(ft, pairs))
    {
      var p := pairs[i];
      assert p.key < p && p.value < p;
      ghost var before, rest := b.content, WrittenPairs(ft, pairs[i + 1..]);
      SerializeTo(ft, b, p.key);
      SerializeTo(ft, b, p.value);
      assert pairs[i..][1..] == pairs[i + 1..];
      assert b.content + rest == before + (WrittenPair(ft, p) + rest);
    }
  }

  // The parser.

  method ParseTagged(ft: FloatText, s: bytes) returns (r: Result<Value>)
    ensures match ReadTagged(ft, s)
            case Ok(v, _) => r == Returned(v)
            case Incomplete => r == Failed(ErrIncomplete)
            case Malformed => r == Failed(ErrMalformed)
  {
    var p := new Reader(s);
    assert p.Rest() == s;
    r := ParseTaggedValue(ft, p);
  }

  method ParseTaggedValue(ft: FloatText, p: Reader) returns (r: Result<Value>)
    requires p.Valid()
    modifies p`pos
    ensures p.Valid() && Agrees(r, ReadTagged(ft, old(p.Rest())), p.pos - old(p.pos))
    decreases |p.data| - p.pos, 0
  {
    hide Framing.ReadLine, ParseInt, ParseDouble, BlobAs, Verbatim, AggregateAs, ReadMap, ReadAttribute;
    ghost var s := p.Rest();
    if p.pos >= |p.data| {
      return Failed(ErrIncomplete);
    }
    var marker := p.data[p.pos];
    p.pos := p.pos + 1;
    assert p.Rest() == s[1..];
    if marker == PLUS {
      var line := p.ReadLine();
      if line.Failed? { return Failed(line.error); }
      return Returned(NewSimpleString(line.value));
    } else if marker == MINUS {
      var line := p.ReadLine();
      if line.Failed? { return Failed(line.error); }
      return Returned(NewError(line.value));
    } else if marker == COLON_MARK {
      var line := p.ReadLine();
      if line.Failed? { return Failed(line.error); }
      var n := ParseInt(line.value);
      if n.None? { return Failed(ErrMalformed); }
      return Returned(NewInteger(n.value));
    } else if marker == PAREN {
      var line := p.ReadLine();
      if line.Failed? { return Failed(line.error); }
      return Returned(NewBigNumber(line.value));
    } else if marker == COMMA {
      var line := p.ReadLine();
      if line.Failed? { return Failed(line.error); }
      var f := ParseDouble(ft, line.value);
      if f.None? { return Failed(ErrMalformed); }
      return Returned(NewDouble(f.value));
    } else if marker == HASH {
      var line := p.ReadLine();
      if line.Failed? { return Failed(line.error); }
      if line.value == TRUE_TEXT { return Returned(NewBoolean(true)); }
      if line.value == FALSE_TEXT { return Returned(NewBoolean(false)); }
      return Failed(ErrMalformed);
    } else if marker == UNDERSCORE {
      var line := p.ReadLine();
      if line.Failed? { return Failed(line.error); }
      return Returned(NewNull());
    } else if marker == DOLLAR {
      r := ParseBlobAs(p, KindBulkString);
    } else if marker == BANG {
      r := ParseBlobAs(p, KindBlobError);
    } else if marker == EQUALS {
      r := ParseVerbatim(p);
    } else if marker == STAR {
      r := ParseAggregateAs(ft, p, KindArray);
    } else if marker == TILDE {
      r := ParseAggregateAs(ft, p, KindSet);
    } else if marker == GREATER {
      r := ParseAggregateAs(ft, p, KindPush);
    } else if marker == PERCENT {
      r := ParseMap(ft, p);
    } else if marker == BAR {
      r := ParseAttribute(ft, p);
    } else {
      return Failed(ErrMalformed);
    }
  }

  method ParseBlobAs(p: Reader, kind: Kind) returns (r: Result<Value>)
    requires p.Valid()
    modifies p`pos
    ensures p.Valid() && Agrees(r, BlobAs(kind, old(p.Rest())), p.pos - old(p.pos))
  {
    ghost var s := p.Rest();
    var n := p.ReadCount();
    if n.Failed? { return Failed(n.error); }
    assert p.Rest() == s[Framing.ReadCount(s).used..];
    var payload := p.ReadBytes(n.value);
    if payload.Failed? { return Failed(payload.error); }
    return Returned(Blank(kind).(str := payload.value));
  }

  method ParseVerbatim(p: Reader) returns (r: Result<Value>)
    requires p.Valid()
    modifies p`pos
    ensures p.Valid() && Agrees(r, Verbatim(old(p.Rest())), p.pos - old(p.pos))
  {
    ghost var s := p.Rest();
    var n := p.ReadCount();
    if n.Failed? { return Failed(n.error); }
    assert p.Rest() == s[Framing.ReadCount(s).used..];
    var payload := p.ReadBytes(n.value);
    if payload.Failed? { return Failed(payload.error); }
    var cut := Framing.Cut(payload.value);
    if cut.None? { return Failed(ErrMalformed); }
    return Returned(NewVerbatimString(cut.value.0, cut.value.1));
  }

  lemma TaggedItemsLoop(ft: FloatText, done: seq<Value>, used: nat, n: nat, s: bytes)
    ensures n == 0 ==> Then(done, used, ReadItems(ft, n, s)) == Ok(done, used)
    ensures n > 0 ==>
              match ReadTagged(ft, s)
              case Ok(v, k) =>
                Then(done, used, ReadItems(ft, n, s)) == Then(done + [v], used + k, ReadItems(ft, n - 1, s[k..]))
              case Incomplete => Then(done, used, ReadItems(ft, n, s)).Incomplete?
              case Malformed => Then(done, used, ReadItems(ft, n, s)).Malformed?
  {
    hide ReadTagged;
    assert done + [] == done;
    if n > 0 && ReadTagged(ft, s).Ok? {
      var k := ReadTagged(ft, s).used;
      ThenOne(done, used, ReadTagged(ft, s).value, k, ReadItems(ft, n - 1, s[k..]));
    }
  }

  lemma TaggedPairsLoop(ft: FloatText, done: seq<Pair>, used: nat, n: nat, s: bytes)
    ensures n == 0 ==> Then(done, used, ReadPairs(ft, n, s)) == Ok(done, used)
    ensures n > 0 ==>
              match ReadTagged(ft, s)
              case Incomplete => Then(done, used, ReadPairs(ft, n, s)).Incomplete?
              case Malformed => Then(done, used, ReadPairs(ft, n, s)).Malformed?
              case Ok(key, k) =>
                match ReadTagged(ft, s[k..])
                case Incomplete => Then(done, used, ReadPairs(ft, n, s)).Incomplete?
                case Malformed => Then(done, used, ReadPairs(ft, n, s)).Malformed?
                case Ok(value, j) =>
                  Then(done, used, ReadPairs(ft, n, s))
                  == Then(done + [Pair(key, value)], used + k + j, ReadPairs(ft, n - 1, s[k + j..]))
  {
    hide ReadTagged;
    assert done + [] == done;
    if n > 0 && ReadPair(ft, s).Ok? {
      var k := ReadPair(ft, s).used;
      ThenOne(done, used, ReadPair(ft, s).value, k, ReadPairs(ft, n - 1, s[k..]));
    }
  }

  method ParseAggregateAs(ft: FloatText, p: Reader, kind: Kind) returns (r: Result<Value>)
    requires p.Valid()
    modifies p`pos
    ensures p.Valid() && Agrees(r, AggregateAs(ft, kind, old(p.Rest())), p.pos - old(p.pos))
    decreases |p.data| - p.pos, 1
  {
    hide ReadTagged, ReadItems, Framing.ReadCount, Then;
    ghost var s := p.Rest();
    var n := p.ReadCount();
    if n.Failed? { return Failed(n.error); }
    ghost var start, body := p.pos, p.Rest();
    assert body == s[Framing.ReadCount(s).used..];
    var items: seq<Value> := [];
    ThenNothing(ReadItems(ft, n.value, body));
    for i := 0 to n.value
      invariant p.Valid() && start <= p.pos
      invariant ReadItems(ft, n.value, body) == Then(items, p.pos - start, ReadItems(ft, n.value - i, p.Rest()))
    {
      ghost var rest, before := p.Rest(), p.pos;
      TaggedItemsLoop(ft, items, before - start, n.value - i, rest);
      var item := ParseTaggedValue(ft, p);
      if item.Failed? { return Failed(item.error); }
      assert p.Rest() == rest[p.pos - before..];
      items := items + [item.value];
    }
    TaggedItemsLoop(ft, items, p.pos - start, 0, p.Rest());
    return Returned(Blank(kind).(items := items));
  }

  method ParsePairsOf(ft: FloatText, p: Reader, n: nat) returns (r: Result<seq<Pair>>)
    requires p.Valid()
    modifies p`pos
    ensures p.Valid() && Agrees(r, ReadPairs(ft, n, old(p.Rest())), p.pos - old(p.pos))
    ensures r.Returned? ==> p.pos >= old(p.pos)
    decreases |p.data| - p.pos, 1
  {
    hide ReadTagged, ReadPair, ReadPairs, Then;
    ghost var start, body := p.pos, p.Rest();
    var pairs: seq<Pair> := [];
    ThenNothing(ReadPairs(ft, n, body));
    for i := 0 to n
      invariant p.Valid() && start <= p.pos
      invariant ReadPairs(ft, n, body) == Then(pairs, p.pos - start, ReadPairs(ft, n - i, p.Rest()))
    {
      ghost var rest, before := p.Rest(), p.pos;
      TaggedPairsLoop(ft, pairs, before - start, n - i, rest);
      var k := ParseTaggedValue(ft, p);
      if k.Failed? { return Failed(k.error); }
      assert p.Rest() == rest[p.pos - before..];
      var v := ParseTaggedValue(ft, p);
      if v.Failed? { return Failed(v.error); }
      assert p.Rest() == rest[p.pos - before..];
      pairs := pairs + [Pair(k.value, v.value)];
    }
    TaggedPairsLoop(ft, pairs, p.pos - start, 0, p.Rest());
    return Returned(pairs);
  }

  method ParseMap(ft: FloatText, p: Reader) returns (r: Result<Value>)
    requires p.Valid()
    modifies p`pos
    ensures p.Valid() && Agrees(r, ReadMap(ft, old(p.Rest())), p.pos - old(p.pos))
    decreases |p.data| - p.pos, 2
  {
    hide ReadPairs, Framing.ReadCount;
    ghost var s := p.Rest();
    var n := p.ReadCount();
    if n.Failed? { return Failed(n.error); }
    assert p.Rest() == s[Framing.ReadCount(s).used..];
    var pairs := ParsePairsOf(ft, p, n.value);
    if pairs.Failed? { return Failed(pairs.error); }
    return Returned(NewMap(pairs.value));
  }

  method ParseAttribute(ft: FloatText, p: Reader) returns (r: Result<Value>)
    requires p.Valid()
    modifies p`pos
    ensures p.Valid() && Agrees(r, ReadAttribute(ft, old(p.Rest())), p.pos - old(p.pos))
    decreases |p.data| - p.pos, 2
  {
    hide ReadPairs, ReadTagged, Framing.ReadCount;
    ghost var s := p.Rest();
    var n := p.ReadCount();
    if n.Failed? { return Failed(n.error); }
    assert p.Rest() == s[Framing.ReadCount(s).used..];
    ghost var start := p.pos;
    var pairs := ParsePairsOf(ft, p, n.value);
    if pairs.Failed? { return Failed(pairs.error); }
    assert p.Rest() == s[Framing.ReadCount(s).used + (p.pos - start)..];
    var inner := ParseTaggedValue(ft, p);
    if inner.Failed? { return Failed(inner.error); }
    return Returned(NewAttribute(pairs.value, inner.value));
  }
}
