/** The sealed-interface codec, method by method. */
module SealedCodec {
  import opened Wire
  import opened Decimal
  import opened Floats
  import opened Resp3
  import opened ByteReader
  import Framing

  // Serializers.

  method Serialize(ft: FloatText, v: Type) returns (out: bytes)
    ensures out == Canonical(ft, v)
    decreases v, 1
  {
    match v
    case SimpleString(s) => out := [PLUS] + s + CRLF;
    case ErrorReply(s) => out := [MINUS] + s + CRLF;
    case Integer(n) => out := [COLON_MARK] + FormatInt(n) + CRLF;
    case BigNumber(s) => out := [PAREN] + s + CRLF;
    case Double(f) => out := [COMMA] + FormatDouble(ft, f) + CRLF;
    case Boolean(b) =>
      if b {
        out := [HASH] + TRUE_TEXT + CRLF;
      } else {
        out := [HASH] + FALSE_TEXT + CRLF;
      }
    case Null => out := [UNDERSCORE] + CRLF;
    case BulkString(s) => out := SerializeBlob(DOLLAR, s);
    case BlobError(s) => out := SerializeBlob(BANG, s);
    case VerbatimString(format, s) => out := SerializeBlob(EQUALS, format + [COLON] + s);
    case Array(items) => out := SerializeAggregate(ft, STAR, items);
    case Set(items) => out := SerializeAggregate(ft, TILDE, items);
    case Push(items) => out := SerializeAggregate(ft, GREATER, items);
    case Map(pairs) => out := SerializePairs(ft, PERCENT, pairs);
    case Attribute(pairs, inner) =>
      out := SerializePairs(ft, BAR, pairs);
      if inner.Some? {
        var rest := Serialize(ft, inner.value);
        out := out + rest;
      }
  }

  method SerializeBlob(marker: byte, s: bytes) returns (out: bytes)
    ensures out == BlobOf(marker, s)
  {
    out := [marker];
    out := out + FormatInt(|s|);
    out := out + CRLF;
    out := out + s;
    out := out + CRLF;
  }

  method SerializeAggregate(ft: FloatText, marker: byte, items: seq<Type>) returns (out: bytes)
    ensures out == CountOf(marker, |items|) + CanonicalItems(ft, items)
    decreases items, 0
  {
    hide Canonical, FormatInt;
    out := [marker];
    out := out + FormatInt(|items|);
    out := out + CRLF;
    for i := 0 to |items|
      invariant out + CanonicalItems(ft, items[i..]) == CountOf(marker, |items|) + CanonicalItems(ft, items)
    {
      var text := Serialize(ft, items[i]);
      assert items[i..][1..] == items[i + 1..];
      out := out + text;
    }
  }

  method SerializePairs(ft: FloatText, marker: byte, pairs: seq<KeyValue>) returns (out: bytes)
    ensures out == CountOf(marker, |pairs|) + CanonicalPairs(ft, pairs)
    decreases pairs, 0
  {
    hide Canonical, FormatInt;
    out := [marker];
    out := out + FormatInt(|pairs|);
    out := out + CRLF;
    for i := 0 to |pairs|
      invariant out + CanonicalPairs(ft, pairs[i..]) == CountOf(marker, |pairs|) + CanonicalPairs(ft, pairs)
    {
      var p := pairs[i];
      assert p.key < p && p.value < p;
      ghost var before, rest := out, CanonicalPairs(ft, pairs[i + 1..]);
      var key := Serialize(ft, p.key);
      out := out + key;
      var value := Serialize(ft, p.value);
      out := out + value;
      assert pairs[i..][1..] == pairs[i + 1..];
      assert out + rest == before + (CanonicalPair(ft, p) + rest);
    }
  }

  // The parser.

  method Parse(ft: FloatText, s: bytes) returns (r: Result<Type>)
    ensures match Decode(ft, s)
            case Ok(v, _) => r == Returned(v)
            case Incomplete => r == Failed(ErrIncomplete)
            case Malformed => r == Failed(ErrMalformed)
  {
    var p := new Reader(s);
    assert p.Rest() == s;
    r := ParseValue(ft, p);
  }

  method ParseValue(ft: FloatText, p: Reader) returns (r: Result<Type>)
    requires p.Valid()
    modifies p`pos
    ensures p.Valid() && Agrees(r, Decode(ft, old(p.Rest())), p.pos - old(p.pos))
    decreases |p.data| - p.pos, 0
  {
    hide Framing.ReadLine, Framing.ReadBlob, Framing.Cut, ParseInt, ParseDouble, DecodeAggregate, DecodePairList;
    ghost var s := p.Rest();
    if p.pos >= |p.data| {
      return Failed(ErrIncomplete);
    }
    var marker := p.data[p.pos];
    p.pos := p.pos + 1;
    assert p.Rest() == s[1..];
    if marker == PLUS {
      var line := p.ReadLine();
      if line.Failed? { return Failed(line.error); }
      return Returned(SimpleString(line.value));
    } else if marker == MINUS {
      var line := p.ReadLine();
      if line.Failed? { return Failed(line.error); }
      return Returned(ErrorReply(line.value));
    } else if marker == COLON_MARK {
      var line := p.ReadLine();
      if line.Failed? { return Failed(line.error); }
      var n := ParseInt(line.value);
      if n.None? { return Failed(ErrMalformed); }
      return Returned(Integer(n.value));
    } else if marker == PAREN {
      var line := p.ReadLine();
      if line.Failed? { return Failed(line.error); }
      return Returned(BigNumber(line.value));
    } else if marker == COMMA {
      var line := p.ReadLine();
      if line.Failed? { return Failed(line.error); }
      var f := ParseDouble(ft, line.value);
      if f.None? { return Failed(ErrMalformed); }
      return Returned(Double(f.value));
    } else if marker == HASH {
      var line := p.ReadLine();
      if line.Failed? { return Failed(line.error); }
      if line.value == TRUE_TEXT { return Returned(Boolean(true)); }
      if line.value == FALSE_TEXT { return Returned(Boolean(false)); }
      return Failed(ErrMalformed);
    } else if marker == UNDERSCORE {
      var line := p.ReadLine();
      if line.Failed? { return Failed(line.error); }
      return Returned(Null);
    } else if marker == DOLLAR {
      var blob := ParseBlob(p);
      if blob.Failed? { return Failed(blob.error); }
      return Returned(BulkString(blob.value));
    } else if marker == BANG {
      var blob := ParseBlob(p);
      if blob.Failed? { return Failed(blob.error); }
      return Returned(BlobError(blob.value));
    } else if marker == EQUALS {
      r := ParseVerbatimString(p);
    } else if marker == STAR {
      var items := ParseItems(ft, p);
      if items.Failed? { return Failed(items.error); }
      return Returned(Array(items.value));
    } else if marker == TILDE {
      var items := ParseItems(ft, p);
      if items.Failed? { return Failed(items.error); }
      return Returned(Set(items.value));
    } else if marker == GREATER {
      var items := ParseItems(ft, p);
      if items.Failed? { return Failed(items.error); }
      return Returned(Push(items.value));
    } else if marker == PERCENT {
      var pairs := ParsePairs(ft, p);
      if pairs.Failed? { return Failed(pairs.error); }
      return Returned(Map(pairs.value));
    } else if marker == BAR {
      var pairs := ParsePairs(ft, p);
      if pairs.Failed? { return Failed(pairs.error); }
      assert p.Rest() == s[1..][DecodePairList(ft, s[1..]).used..];
      var inner := ParseValue(ft, p);
      if inner.Failed? { return Failed(inner.error); }
      return Returned(Attribute(pairs.value, Some(inner.value)));
    } else {
      return Failed(ErrMalformed);
    }
  }

  method ParseBlob(p: Reader) returns (r: Result<bytes>)
    requires p.Valid()
    modifies p`pos
    ensures p.Valid() && Agrees(r, Framing.ReadBlob(old(p.Rest())), p.pos - old(p.pos))
  {
    ghost var s := p.Rest();
    var n := p.ReadCount();
    if n.Failed? { return Failed(n.error); }
    assert p.Rest() == s[Framing.ReadCount(s).used..];
    r := p.ReadBytes(n.value);
  }

  method ParseVerbatimString(p: Reader) returns (r: Result<Type>)
    requires p.Valid()
    modifies p`pos
    ensures p.Valid()
    ensures match Framing.ReadBlob(old(p.Rest()))
            case Ok(payload, used) =>
              Agrees(r, OrMalformed(BlobValue(EQUALS, payload), used), p.pos - old(p.pos))
            case Incomplete => r == Failed(ErrIncomplete)
            case Malformed => r == Failed(ErrMalformed)
  {
    ghost var s := p.Rest();
    var n := p.ReadCount();
    if n.Failed? { return Failed(n.error); }
    assert p.Rest() == s[Framing.ReadCount(s).used..];
    var payload := p.ReadBytes(n.value);
    if payload.Failed? { return Failed(payload.error); }
    var cut := Framing.Cut(payload.value);
    if cut.None? { return Failed(ErrMalformed); }
    return Returned(VerbatimString(cut.value.0, cut.value.1));
  }

  lemma ItemsLoop(ft: FloatText, done: seq<Type>, used: nat, n: nat, s: bytes)
    ensures n == 0 ==> Then(done, used, DecodeItems(ft, n, s)) == Ok(done, used)
    ensures n > 0 ==>
              match Decode(ft, s)
              case Ok(v, k) =>
                Then(done, used, DecodeItems(ft, n, s)) == Then(done + [v], used + k, DecodeItems(ft, n - 1, s[k..]))
              case Incomplete => Then(done, used, DecodeItems(ft, n, s)).Incomplete?
              case Malformed => Then(done, used, DecodeItems(ft, n, s)).Malformed?
  {
    hide Decode;
    assert done + [] == done;
    if n > 0 && Decode(ft, s).Ok? {
      var k := Decode(ft, s).used;
      ThenOne(done, used, Decode(ft, s).value, k, DecodeItems(ft, n - 1, s[k..]));
    }
  }

  lemma PairsLoop(ft: FloatText, done: seq<KeyValue>, used: nat, n: nat, s: bytes)
    ensures n == 0 ==> Then(done, used, DecodePairs(ft, n, s)) == Ok(done, used)
    ensures n > 0 ==>
              match Decode(ft, s)
              case Incomplete => Then(done, used, DecodePairs(ft, n, s)).Incomplete?
              case Malformed => Then(done, used, DecodePairs(ft, n, s)).Malformed?
              case Ok(key, k) =>
                match Decode(ft, s[k..])
                case Incomplete => Then(done, used, DecodePairs(ft, n, s)).Incomplete?
                case Malformed => Then(done, used, DecodePairs(ft, n, s)).Malformed?
                case Ok(value, j) =>
                  Then(done, used, DecodePairs(ft, n, s))
                  == Then(done + [KeyValue(key, value)], used + k + j, DecodePairs(ft, n - 1, s[k + j..]))
  {
    hide Decode;
    assert done + [] == done;
    if n > 0 && DecodePair(ft, s).Ok? {
      var k := DecodePair(ft, s).used;
      ThenOne(done, used, DecodePair(ft, s).value, k, DecodePairs(ft, n - 1, s[k..]));
    }
  }

  method ParseItems(ft: FloatText, p: Reader) returns (r: Result<seq<Type>>)
    requires p.Valid()
    modifies p`pos
    ensures p.Valid() && Agrees(r, DecodeAggregate(ft, old(p.Rest())), p.pos - old(p.pos))
    decreases |p.data| - p.pos, 1
  {
    hide Decode, DecodeItems, Framing.ReadCount, Then;
    ghost var s := p.Rest();
    var n := p.ReadCount();
    if n.Failed? { return Failed(n.error); }
    ghost var start, body := p.pos, p.Rest();
    assert body == s[Framing.ReadCount(s).used..];
    var items: seq<Type> := [];
    ThenNothing(DecodeItems(ft, n.value, body));
    for i := 0 to n.value
      invariant p.Valid() && start <= p.pos
      invariant DecodeItems(ft, n.value, body) == Then(items, p.pos - start, DecodeItems(ft, n.value - i, p.Rest()))
    {
      ghost var rest, before := p.Rest(), p.pos;
      ItemsLoop(ft, items, before - start, n.value - i, rest);
      var item := ParseValue(ft, p);
      if item.Failed? { return Failed(item.error); }
      assert p.Rest() == rest[p.pos - before..];
      items := items + [item.value];
    }
    ItemsLoop(ft, items, p.pos - start, 0, p.Rest());
    return Returned(items);
  }

  method ParsePairs(ft: FloatText, p: Reader) returns (r: Result<seq<KeyValue>>)
    requires p.Valid()
    modifies p`pos
    ensures p.Valid() && Agrees(r, DecodePairList(ft, old(p.Rest())), p.pos - old(p.pos))
    decreases |p.data| - p.pos, 1
  {
    hide Decode, DecodePair, DecodePairs, Framing.ReadCount, Then;
    ghost var s := p.Rest();
    var n := p.ReadCount();
    if n.Failed? { return Failed(n.error); }
    ghost var start, body := p.pos, p.Rest();
    assert body == s[Framing.ReadCount(s).used..];
    var pairs: seq<KeyValue> := [];
    ThenNothing(DecodePairs(ft, n.value, body));
    for i := 0 to n.value
      invariant p.Valid() && start <= p.pos
      invariant DecodePairs(ft, n.value, body) == Then(pairs, p.pos - start, DecodePairs(ft, n.value - i, p.Rest()))
    {
      ghost var rest, before := p.Rest(), p.pos;
      PairsLoop(ft, pairs, before - start, n.value - i, rest);
      var k := ParseValue(ft, p);
      if k.Failed? { return Failed(k.error); }
      assert p.Rest() == rest[p.pos - before..];
      var v := ParseValue(ft, p);
      if v.Failed? { return Failed(v.error); }
      assert p.Rest() == rest[p.pos - before..];
      pairs := pairs + [KeyValue(k.value, v.value)];
    }
    PairsLoop(ft, pairs, p.pos - start, 0, p.Rest());
    return Returned(pairs);
  }
}
