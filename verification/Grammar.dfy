/** A declarative grammar of RESP3, and the proof that the parser recognizes exactly it. */
module Grammar {
  import opened Wire
  import opened Decimal
  import opened Floats
  import opened Framing
  import opened Resp3

  /** `b` is a marker followed by one line. */
  predicate MarkedLine(b: bytes, marker: byte) {
    b != [] && b[0] == marker && IsLine(b[1..])
  }

  /** `b` is a marker followed by one length-prefixed payload. */
  predicate MarkedBlob(b: bytes, marker: byte, payload: bytes) {
    b != [] && b[0] == marker && IsBlob(b[1..], payload)
  }

  /** The bytes `b`, all of them, are an encoding of `v`. A value has many encodings: a line may
      end with a bare newline, a number may have a sign and leading zeros, and the line of a
      null may hold anything. */
  ghost predicate Encodes(ft: FloatText, v: Type, b: bytes)
    decreases v, 1
  {
    match v
    case SimpleString(s) => MarkedLine(b, PLUS) && LineText(b[1..]) == s
    case ErrorReply(s) => MarkedLine(b, MINUS) && LineText(b[1..]) == s
    case Integer(n) => MarkedLine(b, COLON_MARK) && ParseInt(LineText(b[1..])) == Some(n)
    case BigNumber(s) => MarkedLine(b, PAREN) && LineText(b[1..]) == s
    case Double(f) => MarkedLine(b, COMMA) && ParseDouble(ft, LineText(b[1..])) == Some(f)
    case Boolean(x) => MarkedLine(b, HASH) && LineText(b[1..]) == if x then TRUE_TEXT else FALSE_TEXT
    case Null => MarkedLine(b, UNDERSCORE)
    case BulkString(s) => MarkedBlob(b, DOLLAR, s)
    case BlobError(s) => MarkedBlob(b, BANG, s)
    case VerbatimString(format, s) => MarkedBlob(b, EQUALS, format + [COLON] + s) && COLON !in format
    case Array(items) => b != [] && b[0] == STAR && EncodesAggregate(ft, items, b[1..])
    case Set(items) => b != [] && b[0] == TILDE && EncodesAggregate(ft, items, b[1..])
    case Push(items) => b != [] && b[0] == GREATER && EncodesAggregate(ft, items, b[1..])
    case Map(pairs) => b != [] && b[0] == PERCENT && EncodesPairList(ft, pairs, b[1..])
    case Attribute(pairs, inner) => b != [] && b[0] == BAR && inner.Some? && EncodesAttribute(ft, v, b[1..])
  }

  ghost predicate EncodesAttribute(ft: FloatText, v: Type, b: bytes)
    requires v.Attribute? && v.inner.Some?
    decreases v, 0
  {
    exists k :: 0 <= k <= |b| && EncodesPairList(ft, v.pairs, b[..k]) && Encodes(ft, v.inner.value, b[k..])
  }

  ghost predicate EncodesAggregate(ft: FloatText, items: seq<Type>, b: bytes)
    decreases items, 1
  {
    exists h :: 0 <= h <= |b| && IsCount(b[..h], |items|) && EncodesItems(ft, items, b[h..])
  }

  ghost predicate EncodesItems(ft: FloatText, items: seq<Type>, b: bytes)
    decreases items, 0
  {
    if items == [] then b == []
    else exists k :: 0 <= k <= |b| && Encodes(ft, items[0], b[..k]) && EncodesItems(ft, items[1..], b[k..])
  }

  ghost predicate EncodesPairList(ft: FloatText, pairs: seq<KeyValue>, b: bytes)
    decreases pairs, 1
  {
    exists h :: 0 <= h <= |b| && IsCount(b[..h], |pairs|) && EncodesPairs(ft, pairs, b[h..])
  }

  ghost predicate EncodesPairs(ft: FloatText, pairs: seq<KeyValue>, b: bytes)
    decreases pairs, 0
  {
    if pairs == [] then b == []
    else exists k :: 0 <= k <= |b| && EncodesPair(ft, pairs[0], b[..k]) && EncodesPairs(ft, pairs[1..], b[k..])
  }

  ghost predicate EncodesPair(ft: FloatText, p: KeyValue, b: bytes)
    decreases p, 0
  {
    exists k :: 0 <= k <= |b| && Encodes(ft, p.key, b[..k]) && Encodes(ft, p.value, b[k..])
  }

  // Monotonicity: a definite answer never changes as the buffer grows.

  lemma {:induction false} DecodeExtends(ft: FloatText, s: bytes, t: bytes)
    requires !Decode(ft, s).Incomplete?
    ensures Decode(ft, s + t) == Decode(ft, s)
    decreases |s|, 0
  {
    hide DecodeAggregate, DecodePairList, DecodeAttribute, ReadLine, ReadBlob, LineValue, BlobValue;
    var m, rest := s[0], s[1..];
    assert (s + t)[0] == m && (s + t)[1..] == rest + t;
    if IsLineMarker(m) {
      ReadLineExtends(rest, t);
    } else if IsBlobMarker(m) {
      ReadBlobExtends(rest, t);
    } else if IsAggregateMarker(m) {
      DecodeAggregateExtends(ft, rest, t);
    } else if m == PERCENT {
      DecodePairListExtends(ft, rest, t);
    } else if m == BAR {
      DecodeAttributeExtends(ft, rest, t);
    }
  }

  lemma {:induction false} DecodeAttributeExtends(ft: FloatText, s: bytes, t: bytes)
    requires !DecodeAttribute(ft, s).Incomplete?
    ensures DecodeAttribute(ft, s + t) == DecodeAttribute(ft, s)
    decreases |s|, 1
  {
    hide Decode, DecodePairList;
    DecodePairListExtends(ft, s, t);
    if DecodePairList(ft, s).Ok? {
      var k := DecodePairList(ft, s).used;
      assert (s + t)[k..] == s[k..] + t;
      DecodeExtends(ft, s[k..], t);
    }
  }

  lemma {:induction false} DecodeAggregateExtends(ft: FloatText, s: bytes, t: bytes)
    requires !DecodeAggregate(ft, s).Incomplete?
    ensures DecodeAggregate(ft, s + t) == DecodeAggregate(ft, s)
    decreases |s|, 0
  {
    hide DecodeItems;
    ReadCountExtends(s, t);
    if ReadCount(s).Ok? {
      var h := ReadCount(s).used;
      assert (s + t)[h..] == s[h..] + t;
      DecodeItemsExtends(ft, ReadCount(s).value, s[h..], t);
    }
  }

  lemma {:induction false} DecodeItemsExtends(ft: FloatText, n: nat, s: bytes, t: bytes)
    requires !DecodeItems(ft, n, s).Incomplete?
    ensures DecodeItems(ft, n, s + t) == DecodeItems(ft, n, s)
    decreases |s|, n + 1
  {
    hide Decode;
    if n == 0 {
    } else {
      DecodeExtends(ft, s, t);
      if Decode(ft, s).Ok? {
        var k := Decode(ft, s).used;
        assert (s + t)[k..] == s[k..] + t;
        DecodeItemsExtends(ft, n - 1, s[k..], t);
      }
    }
  }

  lemma {:induction false} DecodePairListExtends(ft: FloatText, s: bytes, t: bytes)
    requires !DecodePairList(ft, s).Incomplete?
    ensures DecodePairList(ft, s + t) == DecodePairList(ft, s)
    decreases |s|, 0
  {
    hide DecodePairs;
    ReadCountExtends(s, t);
    if ReadCount(s).Ok? {
      var h := ReadCount(s).used;
      assert (s + t)[h..] == s[h..] + t;
      DecodePairsExtends(ft, ReadCount(s).value, s[h..], t);
    }
  }

  lemma {:induction false} DecodePairsExtends(ft: FloatText, n: nat, s: bytes, t: bytes)
    requires !DecodePairs(ft, n, s).Incomplete?
    ensures DecodePairs(ft, n, s + t) == DecodePairs(ft, n, s)
    decreases |s|, n + 2
  {
    hide DecodePair;
    if n == 0 {
    } else {
      DecodePairExtends(ft, s, t);
      if DecodePair(ft, s).Ok? {
        var k := DecodePair(ft, s).used;
        assert (s + t)[k..] == s[k..] + t;
        DecodePairsExtends(ft, n - 1, s[k..], t);
      }
    }
  }

  lemma {:induction false} DecodePairExtends(ft: FloatText, s: bytes, t: bytes)
    requires !DecodePair(ft, s).Incomplete?
    ensures DecodePair(ft, s + t) == DecodePair(ft, s)
    decreases |s|, 1
  {
    hide Decode;
    DecodeExtends(ft, s, t);
    if Decode(ft, s).Ok? {
      var k := Decode(ft, s).used;
      assert (s + t)[k..] == s[k..] + t;
      DecodeExtends(ft, s[k..], t);
    }
  }

  // Soundness: what the parser consumes encodes what it returns.

  lemma {:induction false} DecodeSound(ft: FloatText, s: bytes)
    requires Decode(ft, s).Ok?
    ensures Encodes(ft, Decode(ft, s).value, s[..Decode(ft, s).used])
    decreases |s|, 0
  {
    hide DecodeAggregate, DecodePairList, DecodeAttribute, EncodesAggregate, EncodesPairList, EncodesAttribute;
    hide ReadLine, ReadBlob, IsBlob, Cut;
    hide IsLine, LineText, ParseInt, ParseDouble, IndexByte;
    var m, rest := s[0], s[1..];
    var b := s[..Decode(ft, s).used];
    assert b[0] == m && b[1..] == rest[..|b| - 1];
    if IsLineMarker(m) {
      ReadLineIff(rest, |b| - 1);
    } else if IsBlobMarker(m) {
      var payload := ReadBlob(rest).value;
      ReadBlobSound(rest, payload, |b| - 1);
      if m == EQUALS {
        CutIff(payload, Cut(payload).value.0, Cut(payload).value.1);
      }
    } else if IsAggregateMarker(m) {
      DecodeAggregateSound(ft, rest);
    } else if m == PERCENT {
      DecodePairListSound(ft, rest);
    } else if m == BAR {
      DecodeAttributeSound(ft, rest);
    }
  }

  lemma {:induction false} DecodeAttributeSound(ft: FloatText, s: bytes)
    requires DecodeAttribute(ft, s).Ok?
    ensures var v := DecodeAttribute(ft, s).value;
            v.Attribute? && v.inner.Some? && EncodesAttribute(ft, v, s[..DecodeAttribute(ft, s).used])
    decreases |s|, 1
  {
    hide Decode, DecodePairList, Encodes, EncodesPairList;
    DecodePairListSound(ft, s);
    var k := DecodePairList(ft, s).used;
    DecodeSound(ft, s[k..]);
    var b := s[..DecodeAttribute(ft, s).used];
    assert b[..k] == s[..k];
    assert b[k..] == s[k..][..|b| - k];
  }

  lemma {:induction false} DecodeAggregateSound(ft: FloatText, s: bytes)
    requires DecodeAggregate(ft, s).Ok?
    ensures EncodesAggregate(ft, DecodeAggregate(ft, s).value, s[..DecodeAggregate(ft, s).used])
    decreases |s|, 0
  {
    hide DecodeItems, EncodesItems;
    var n, h := ReadCount(s).value, ReadCount(s).used;
    ReadCountIff(s, n, h);
    DecodeItemsSound(ft, n, s[h..]);
    var b := s[..DecodeAggregate(ft, s).used];
    assert b[..h] == s[..h];
    assert b[h..] == s[h..][..DecodeItems(ft, n, s[h..]).used];
  }

  lemma {:induction false} DecodeItemsSound(ft: FloatText, n: nat, s: bytes)
    requires DecodeItems(ft, n, s).Ok?
    ensures EncodesItems(ft, DecodeItems(ft, n, s).value, s[..DecodeItems(ft, n, s).used])
    decreases |s|, n + 1
  {
    hide Decode, Encodes;
    if n == 0 {
    } else {
      DecodeSound(ft, s);
      var k := Decode(ft, s).used;
      DecodeItemsSound(ft, n - 1, s[k..]);
      var b := s[..DecodeItems(ft, n, s).used];
      assert b[..k] == s[..k];
      assert b[k..] == s[k..][..DecodeItems(ft, n - 1, s[k..]).used];
      assert DecodeItems(ft, n, s).value[1..] == DecodeItems(ft, n - 1, s[k..]).value;
    }
  }

  lemma {:induction false} DecodePairListSound(ft: FloatText, s: bytes)
    requires DecodePairList(ft, s).Ok?
    ensures EncodesPairList(ft, DecodePairList(ft, s).value, s[..DecodePairList(ft, s).used])
    decreases |s|, 0
  {
    hide DecodePairs, EncodesPairs;
    var n, h := ReadCount(s).value, ReadCount(s).used;
    ReadCountIff(s, n, h);
    DecodePairsSound(ft, n, s[h..]);
    var b := s[..DecodePairList(ft, s).used];
    assert b[..h] == s[..h];
    assert b[h..] == s[h..][..DecodePairs(ft, n, s[h..]).used];
  }

  lemma {:induction false} DecodePairsSound(ft: FloatText, n: nat, s: bytes)
    requires DecodePairs(ft, n, s).Ok?
    ensures EncodesPairs(ft, DecodePairs(ft, n, s).value, s[..DecodePairs(ft, n, s).used])
    decreases |s|, n + 2
  {
    hide DecodePair, EncodesPair;
    if n == 0 {
    } else {
      DecodePairSound(ft, s);
      var k := DecodePair(ft, s).used;
      DecodePairsSound(ft, n - 1, s[k..]);
      var b := s[..DecodePairs(ft, n, s).used];
      assert b[..k] == s[..k];
      assert b[k..] == s[k..][..DecodePairs(ft, n - 1, s[k..]).used];
      assert DecodePairs(ft, n, s).value[1..] == DecodePairs(ft, n - 1, s[k..]).value;
    }
  }

  lemma {:induction false} DecodePairSound(ft: FloatText, s: bytes)
    requires DecodePair(ft, s).Ok?
    ensures EncodesPair(ft, DecodePair(ft, s).value, s[..DecodePair(ft, s).used])
    decreases |s|, 1
  {
    hide Decode, Encodes;
    DecodeSound(ft, s);
    var k := Decode(ft, s).used;
    DecodeSound(ft, s[k..]);
    var b := s[..DecodePair(ft, s).used];
    assert b[..k] == s[..k];
    assert b[k..] == s[k..][..|b| - k];
  }

  // Completeness: every encoding of a value parses to that value, and to its very end.

  lemma {:induction false} DecodeComplete(ft: FloatText, v: Type, b: bytes)
    requires Encodes(ft, v, b)
    ensures Decode(ft, b) == Ok(v, |b|)
    decreases v, 1
  {
    hide DecodeAggregate, DecodePairList, DecodeAttribute, EncodesAggregate, EncodesPairList, EncodesAttribute;
    hide ReadLine, ReadBlob, IsBlob, Cut;
    var rest := b[1..];
    assert rest[..|rest|] == rest;
    ReadLineIff(rest, |rest|);
    match v
    case BulkString(s) => ReadBlobComplete(rest, s, |rest|);
    case BlobError(s) => ReadBlobComplete(rest, s, |rest|);
    case VerbatimString(format, s) =>
      var payload := format + [COLON] + s;
      ReadBlobComplete(rest, payload, |rest|);
      CutIff(payload, format, s);
    case Array(items) => DecodeAggregateComplete(ft, items, rest);
    case Set(items) => DecodeAggregateComplete(ft, items, rest);
    case Push(items) => DecodeAggregateComplete(ft, items, rest);
    case Map(pairs) => DecodePairListComplete(ft, pairs, rest);
    case Attribute(pairs, inner) => DecodeAttributeComplete(ft, v, rest);
    case _ =>
  }

  lemma {:induction false} DecodeAttributeComplete(ft: FloatText, v: Type, b: bytes)
    requires v.Attribute? && v.inner.Some? && EncodesAttribute(ft, v, b)
    ensures DecodeAttribute(ft, b) == Ok(v, |b|)
    decreases v, 0
  {
    hide Decode, DecodePairList, Encodes, EncodesPairList;
    var k :| 0 <= k <= |b| && EncodesPairList(ft, v.pairs, b[..k]) && Encodes(ft, v.inner.value, b[k..]);
    DecodePairListComplete(ft, v.pairs, b[..k]);
    assert b == b[..k] + b[k..];
    DecodePairListExtends(ft, b[..k], b[k..]);
    DecodeComplete(ft, v.inner.value, b[k..]);
  }

  lemma {:induction false} DecodeAggregateComplete(ft: FloatText, items: seq<Type>, b: bytes)
    requires EncodesAggregate(ft, items, b)
    ensures DecodeAggregate(ft, b) == Ok(items, |b|)
    decreases items, 1
  {
    hide DecodeItems, EncodesItems, ReadCount, IsCount, Decode, Encodes;
    var h :| 0 <= h <= |b| && IsCount(b[..h], |items|) && EncodesItems(ft, items, b[h..]);
    ReadCountIff(b, |items|, h);
    DecodeItemsComplete(ft, items, b[h..]);
  }

  lemma {:induction false} DecodeItemsComplete(ft: FloatText, items: seq<Type>, b: bytes)
    requires EncodesItems(ft, items, b)
    ensures DecodeItems(ft, |items|, b) == Ok(items, |b|)
    decreases items, 0
  {
    hide Decode, Encodes;
    if items == [] {
    } else {
      var k :| 0 <= k <= |b| && Encodes(ft, items[0], b[..k]) && EncodesItems(ft, items[1..], b[k..]);
      DecodeComplete(ft, items[0], b[..k]);
      assert b == b[..k] + b[k..];
      DecodeExtends(ft, b[..k], b[k..]);
      DecodeItemsComplete(ft, items[1..], b[k..]);
      assert items == [items[0]] + items[1..];
    }
  }

  lemma {:induction false} DecodePairListComplete(ft: FloatText, pairs: seq<KeyValue>, b: bytes)
    requires EncodesPairList(ft, pairs, b)
    ensures DecodePairList(ft, b) == Ok(pairs, |b|)
    decreases pairs, 1
  {
    hide DecodePairs, EncodesPairs, ReadCount, IsCount, Decode, Encodes;
    var h :| 0 <= h <= |b| && IsCount(b[..h], |pairs|) && EncodesPairs(ft, pairs, b[h..]);
    ReadCountIff(b, |pairs|, h);
    DecodePairsComplete(ft, pairs, b[h..]);
  }

  lemma {:induction false} DecodePairsComplete(ft: FloatText, pairs: seq<KeyValue>, b: bytes)
    requires EncodesPairs(ft, pairs, b)
    ensures DecodePairs(ft, |pairs|, b) == Ok(pairs, |b|)
    decreases pairs, 0
  {
    hide DecodePair, EncodesPair;
    if pairs == [] {
    } else {
      var k :| 0 <= k <= |b| && EncodesPair(ft, pairs[0], b[..k]) && EncodesPairs(ft, pairs[1..], b[k..]);
      DecodePairComplete(ft, pairs[0], b[..k]);
      assert b == b[..k] + b[k..];
      DecodePairExtends(ft, b[..k], b[k..]);
      DecodePairsComplete(ft, pairs[1..], b[k..]);
      assert pairs == [pairs[0]] + pairs[1..];
    }
  }

  lemma {:induction false} DecodePairComplete(ft: FloatText, p: KeyValue, b: bytes)
    requires EncodesPair(ft, p, b)
    ensures DecodePair(ft, b) == Ok(p, |b|)
    decreases p, 0
  {
    hide Decode, Encodes;
    var k :| 0 <= k <= |b| && Encodes(ft, p.key, b[..k]) && Encodes(ft, p.value, b[k..]);
    DecodeComplete(ft, p.key, b[..k]);
    assert b == b[..k] + b[k..];
    DecodeExtends(ft, b[..k], b[k..]);
    DecodeComplete(ft, p.value, b[k..]);
  }

  /** The parser is an exact recognizer of the grammar. */
  lemma DecodeIff(ft: FloatText, s: bytes, v: Type, k: nat)
    ensures Decode(ft, s) == Ok(v, k) <==> k <= |s| && Encodes(ft, v, s[..k])
  {
    if Decode(ft, s) == Ok(v, k) {
      DecodeSound(ft, s);
    }
    if k <= |s| && Encodes(ft, v, s[..k]) {
      DecodeComplete(ft, v, s[..k]);
      DecodeExtends(ft, s[..k], s[k..]);
      assert s == s[..k] + s[k..];
    }
  }

  /** The grammar is unambiguous, and no encoding is a proper prefix of another. */
  lemma EncodesUnambiguous(ft: FloatText, v: Type, b: bytes, w: Type, c: bytes)
    requires Encodes(ft, v, b) && Encodes(ft, w, c) && b <= c
    ensures v == w && b == c
  {
    assert c[..|b|] == b && c[..|c|] == c;
    DecodeIff(ft, c, v, |b|);
    DecodeIff(ft, c, w, |c|);
  }
}
