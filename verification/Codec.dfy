/** The laws of the codec: round trip, streaming, prefix code, normal form and size. */
module Codec {
  import opened Wire
  import opened Decimal
  import opened Floats
  import opened Framing
  import opened Resp3
  import opened Grammar

  // The canonical encoding is an encoding.

  lemma {:induction false} CanonicalEncodes(ft: FloatText, v: Type)
    requires Faithful(ft) && WellFormed(v)
    ensures Encodes(ft, v, Canonical(ft, v))
    decreases v, 1
  {
    hide EncodesAggregate, EncodesPairList, IsLine, IsBlob, ParseInt, ParseDouble, FormatDouble, LineText;
    match v
    case SimpleString(s) => LineEncodes(PLUS, s);
    case ErrorReply(s) => LineEncodes(MINUS, s);
    case Integer(n) => FormatIntParses(n); LineEncodes(COLON_MARK, FormatInt(n));
    case BigNumber(s) => LineEncodes(PAREN, s);
    case Double(f) => FormatDoubleParses(ft, f); LineEncodes(COMMA, FormatDouble(ft, f));
    case Boolean(b) => LineEncodes(HASH, if b then TRUE_TEXT else FALSE_TEXT);
    case Null => LineEncodes(UNDERSCORE, []);
    case BulkString(s) => BlobEncodes(DOLLAR, s);
    case BlobError(s) => BlobEncodes(BANG, s);
    case VerbatimString(format, s) => BlobEncodes(EQUALS, format + [COLON] + s);
    case Array(items) => AggregateEncodes(ft, STAR, items);
    case Set(items) => AggregateEncodes(ft, TILDE, items);
    case Push(items) => AggregateEncodes(ft, GREATER, items);
    case Map(pairs) => PairListEncodes(ft, PERCENT, pairs);
    case Attribute(pairs, inner) =>
      PairListEncodes(ft, BAR, pairs);
      CanonicalEncodes(ft, inner.value);
      var head := CountOf(BAR, |pairs|) + CanonicalPairs(ft, pairs);
      var b := Canonical(ft, v);
      assert b == head + Canonical(ft, inner.value);
      assert b[1..][..|head| - 1] == head[1..] && b[1..][|head| - 1..] == Canonical(ft, inner.value);
  }

  lemma LineEncodes(marker: byte, text: bytes)
    requires LF !in text
    ensures MarkedLine(LineOf(marker, text), marker)
    ensures LineText(LineOf(marker, text)[1..]) == text
  {
    WrittenLine(text);
    assert LineOf(marker, text)[1..] == text + CRLF;
  }

  lemma BlobEncodes(marker: byte, s: bytes)
    requires FitsInt(|s|)
    ensures MarkedBlob(BlobOf(marker, s), marker, s)
  {
    WrittenBlob(s);
    assert BlobOf(marker, s)[1..] == FormatInt(|s|) + CRLF + s + CRLF;
  }

  lemma {:induction false} AggregateEncodes(ft: FloatText, marker: byte, items: seq<Type>)
    requires Faithful(ft) && FitsInt(|items|) && WellFormedItems(items)
    ensures EncodesAggregate(ft, items, (CountOf(marker, |items|) + CanonicalItems(ft, items))[1..])
    decreases items, 1
  {
    hide EncodesItems, CanonicalItems;
    WrittenCount(|items|);
    var count := FormatInt(|items|) + CRLF;
    var b := (CountOf(marker, |items|) + CanonicalItems(ft, items))[1..];
    assert b == count + CanonicalItems(ft, items);
    assert b[..|count|] == count && b[|count|..] == CanonicalItems(ft, items);
    ItemsEncode(ft, items);
  }

  lemma {:induction false} ItemsEncode(ft: FloatText, items: seq<Type>)
    requires Faithful(ft) && WellFormedItems(items)
    ensures EncodesItems(ft, items, CanonicalItems(ft, items))
    decreases items, 0
  {
    hide Encodes, Canonical;
    if items == [] {
    } else {
      CanonicalEncodes(ft, items[0]);
      ItemsEncode(ft, items[1..]);
      var first, b := Canonical(ft, items[0]), CanonicalItems(ft, items);
      assert b[..|first|] == first && b[|first|..] == CanonicalItems(ft, items[1..]);
    }
  }

  lemma {:induction false} PairListEncodes(ft: FloatText, marker: byte, pairs: seq<KeyValue>)
    requires Faithful(ft) && FitsInt(|pairs|) && WellFormedPairs(pairs)
    ensures EncodesPairList(ft, pairs, (CountOf(marker, |pairs|) + CanonicalPairs(ft, pairs))[1..])
    decreases pairs, 1
  {
    hide EncodesPairs, CanonicalPairs;
    WrittenCount(|pairs|);
    var count := FormatInt(|pairs|) + CRLF;
    var b := (CountOf(marker, |pairs|) + CanonicalPairs(ft, pairs))[1..];
    assert b == count + CanonicalPairs(ft, pairs);
    assert b[..|count|] == count && b[|count|..] == CanonicalPairs(ft, pairs);
    PairsEncode(ft, pairs);
  }

  lemma {:induction false} PairsEncode(ft: FloatText, pairs: seq<KeyValue>)
    requires Faithful(ft) && WellFormedPairs(pairs)
    ensures EncodesPairs(ft, pairs, CanonicalPairs(ft, pairs))
    decreases pairs, 0
  {
    hide EncodesPair, CanonicalPair;
    if pairs == [] {
    } else {
      PairEncodes(ft, pairs[0]);
      PairsEncode(ft, pairs[1..]);
      var first, b := CanonicalPair(ft, pairs[0]), CanonicalPairs(ft, pairs);
      assert b[..|first|] == first && b[|first|..] == CanonicalPairs(ft, pairs[1..]);
    }
  }

  lemma {:induction false} PairEncodes(ft: FloatText, p: KeyValue)
    requires Faithful(ft) && WellFormedPair(p)
    ensures EncodesPair(ft, p, CanonicalPair(ft, p))
    decreases p, 0
  {
    hide Encodes, Canonical;
    CanonicalEncodes(ft, p.key);
    CanonicalEncodes(ft, p.value);
    var k, b := Canonical(ft, p.key), CanonicalPair(ft, p);
    assert b[..|k|] == k && b[|k|..] == Canonical(ft, p.value);
  }

  // Whatever has an encoding is well formed.

  lemma {:induction false} EncodesWellFormed(ft: FloatText, v: Type, b: bytes)
    requires Encodes(ft, v, b)
    ensures WellFormed(v)
    decreases v, 1
  {
    hide EncodesItems, EncodesPairs, WellFormedItems, WellFormedPairs;
    match v
    case Array(items) => ItemsWellFormed(ft, items, b[1..]);
    case Set(items) => ItemsWellFormed(ft, items, b[1..]);
    case Push(items) => ItemsWellFormed(ft, items, b[1..]);
    case Map(pairs) => PairsWellFormed(ft, pairs, b[1..]);
    case Attribute(pairs, inner) =>
      var rest := b[1..];
      var k :| 0 <= k <= |rest| && EncodesPairList(ft, pairs, rest[..k]) && Encodes(ft, inner.value, rest[k..]);
      PairsWellFormed(ft, pairs, rest[..k]);
      EncodesWellFormed(ft, inner.value, rest[k..]);
    case _ =>
  }

  lemma ItemsWellFormed(ft: FloatText, items: seq<Type>, b: bytes)
    requires EncodesAggregate(ft, items, b)
    ensures FitsInt(|items|) && WellFormedItems(items)
    decreases items, 1
  {
    var h :| 0 <= h <= |b| && IsCount(b[..h], |items|) && EncodesItems(ft, items, b[h..]);
    EachWellFormed(ft, items, b[h..]);
  }

  lemma {:induction false} EachWellFormed(ft: FloatText, items: seq<Type>, b: bytes)
    requires EncodesItems(ft, items, b)
    ensures WellFormedItems(items)
    decreases items, 0
  {
    hide Encodes, WellFormed;
    if items == [] {
    } else {
      var k :| 0 <= k <= |b| && Encodes(ft, items[0], b[..k]) && EncodesItems(ft, items[1..], b[k..]);
      EncodesWellFormed(ft, items[0], b[..k]);
      EachWellFormed(ft, items[1..], b[k..]);
    }
  }

  lemma PairsWellFormed(ft: FloatText, pairs: seq<KeyValue>, b: bytes)
    requires EncodesPairList(ft, pairs, b)
    ensures FitsInt(|pairs|) && WellFormedPairs(pairs)
    decreases pairs, 1
  {
    var h :| 0 <= h <= |b| && IsCount(b[..h], |pairs|) && EncodesPairs(ft, pairs, b[h..]);
    EachPairWellFormed(ft, pairs, b[h..]);
  }

  lemma {:induction false} EachPairWellFormed(ft: FloatText, pairs: seq<KeyValue>, b: bytes)
    requires EncodesPairs(ft, pairs, b)
    ensures WellFormedPairs(pairs)
    decreases pairs, 0
  {
    hide EncodesPair, WellFormedPair;
    if pairs == [] {
    } else {
      var k :| 0 <= k <= |b| && EncodesPair(ft, pairs[0], b[..k]) && EncodesPairs(ft, pairs[1..], b[k..]);
      PairWellFormed(ft, pairs[0], b[..k]);
      EachPairWellFormed(ft, pairs[1..], b[k..]);
    }
  }

  lemma {:induction false} PairWellFormed(ft: FloatText, p: KeyValue, b: bytes)
    requires EncodesPair(ft, p, b)
    ensures WellFormedPair(p)
    decreases p, 0
  {
    hide Encodes, WellFormed;
    var k :| 0 <= k <= |b| && Encodes(ft, p.key, b[..k]) && Encodes(ft, p.value, b[k..]);
    EncodesWellFormed(ft, p.key, b[..k]);
    EncodesWellFormed(ft, p.value, b[k..]);
  }

  // Round trip.

  /** A well-formed value of any depth, written and followed by anything, is read back, and the
      reader stops exactly where the rest begins. */
  lemma RoundTrip(ft: FloatText, v: Type, rest: bytes)
    requires Faithful(ft) && WellFormed(v)
    ensures Decode(ft, Canonical(ft, v) + rest) == Ok(v, |Canonical(ft, v)|)
  {
    hide Decode, Encodes, Canonical, WellFormed, Faithful;
    CanonicalEncodes(ft, v);
    DecodeComplete(ft, v, Canonical(ft, v));
    DecodeExtends(ft, Canonical(ft, v), rest);
  }

  lemma DecodedWellFormed(ft: FloatText, s: bytes)
    requires Decode(ft, s).Ok?
    ensures WellFormed(Decode(ft, s).value)
  {
    hide Decode, Encodes, WellFormed;
    DecodeSound(ft, s);
    EncodesWellFormed(ft, Decode(ft, s).value, s[..Decode(ft, s).used]);
  }

  /** The round trip holds on the well-formed values and on no others. */
  lemma RoundTripIff(ft: FloatText, v: Type)
    requires Faithful(ft)
    ensures WellFormed(v) <==> Decode(ft, Canonical(ft, v)) == Ok(v, |Canonical(ft, v)|)
  {
    hide Decode, Canonical, WellFormed, Faithful;
    if WellFormed(v) {
      RoundTrip(ft, v, []);
      assert Canonical(ft, v) + [] == Canonical(ft, v);
    }
    if Decode(ft, Canonical(ft, v)) == Ok(v, |Canonical(ft, v)|) {
      DecodedWellFormed(ft, Canonical(ft, v));
    }
  }

  /** Parsing and then serializing normalizes: the result means the same value, and normalizing
      it again changes nothing. */
  lemma NormalizerIdempotent(ft: FloatText, s: bytes)
    requires Faithful(ft) && Decode(ft, s).Ok?
    ensures var c := Canonical(ft, Decode(ft, s).value);
            Decode(ft, c) == Ok(Decode(ft, s).value, |c|) && Canonical(ft, Decode(ft, c).value) == c
  {
    hide Decode, Canonical, WellFormed, Faithful;
    DecodedWellFormed(ft, s);
    RoundTripIff(ft, Decode(ft, s).value);
  }

  // Prefixes and streams.

  /** Cutting an accepted input short never looks like an error or like another value. */
  lemma PrefixIncomplete(ft: FloatText, s: bytes, k: nat)
    requires Decode(ft, s).Ok? && k < Decode(ft, s).used
    ensures Decode(ft, s[..k]).Incomplete?
  {
    hide Decode;
    assert s == s[..k] + s[k..];
    if !Decode(ft, s[..k]).Incomplete? {
      DecodeExtends(ft, s[..k], s[k..]);
    }
  }

  /** Canonical encodings form a prefix code: none is a prefix of another value's. */
  lemma CanonicalPrefixCode(ft: FloatText, v: Type, w: Type)
    requires Faithful(ft) && WellFormed(v) && WellFormed(w)
    requires Canonical(ft, v) <= Canonical(ft, w)
    ensures v == w
  {
    hide Encodes, Canonical, WellFormed, Faithful;
    CanonicalEncodes(ft, v);
    CanonicalEncodes(ft, w);
    EncodesUnambiguous(ft, v, Canonical(ft, v), w, Canonical(ft, w));
  }

  /** Reading values off a buffer until it is empty; None when something does not parse. */
  function DecodeAll(ft: FloatText, s: bytes): Option<seq<Type>>
    decreases |s|
  {
    if s == [] then Some([])
    else
      var r := Decode(ft, s);
      if !r.Ok? then None
      else
        var others := DecodeAll(ft, s[r.used..]);
        if others.None? then None else Some([r.value] + others.value)
  }

  /** Reading until the end gives `vs` exactly when the buffer is encodings of `vs` back to back. */
  lemma {:induction false} DecodeAllIff(ft: FloatText, s: bytes, vs: seq<Type>)
    ensures DecodeAll(ft, s) == Some(vs) <==> EncodesItems(ft, vs, s)
    decreases |s|, |vs|
  {
    hide Decode, Encodes;
    if s == [] {
      if vs != [] && EncodesItems(ft, vs, s) {
        var k :| 0 <= k <= |s| && Encodes(ft, vs[0], s[..k]) && EncodesItems(ft, vs[1..], s[k..]);
        DecodeComplete(ft, vs[0], s[..k]);
        assert false;
      }
    } else if vs != [] {
      forall k | 0 <= k <= |s| && Encodes(ft, vs[0], s[..k]) ensures Decode(ft, s) == Ok(vs[0], k) {
        DecodeIff(ft, s, vs[0], k);
      }
      if Decode(ft, s).Ok? {
        var k := Decode(ft, s).used;
        DecodeIff(ft, s, Decode(ft, s).value, k);
        DecodeAllIff(ft, s[k..], vs[1..]);
        assert vs == [vs[0]] + vs[1..];
      }
    }
  }

  /** Any number of values written back to back is split into exactly those values. */
  lemma DecodeAllSplits(ft: FloatText, vs: seq<Type>)
    requires Faithful(ft) && WellFormedItems(vs)
    ensures DecodeAll(ft, CanonicalItems(ft, vs)) == Some(vs)
  {
    ItemsEncode(ft, vs);
    DecodeAllIff(ft, CanonicalItems(ft, vs), vs);
  }

  function Concat(chunks: seq<bytes>): bytes {
    if chunks == [] then [] else chunks[0] + Concat(chunks[1..])
  }

  /** A reader that parses its buffer again whenever a chunk arrives, and answers as soon as
      the answer is definite. */
  function Feed(ft: FloatText, buffer: bytes, chunks: seq<bytes>): Outcome<Type>
    decreases |chunks|
  {
    var r := Decode(ft, buffer);
    if !r.Incomplete? || chunks == [] then r else Feed(ft, buffer + chunks[0], chunks[1..])
  }

  /** However a stream is cut into chunks, the reader gives the answer for the whole stream. */
  lemma {:induction false} ChunkingIrrelevant(ft: FloatText, buffer: bytes, chunks: seq<bytes>)
    ensures Feed(ft, buffer, chunks) == Decode(ft, buffer + Concat(chunks))
    decreases |chunks|
  {
    hide Decode;
    if chunks == [] {
      assert buffer + Concat(chunks) == buffer;
    } else {
      assert buffer + Concat(chunks) == buffer + chunks[0] + Concat(chunks[1..]);
      ChunkingIrrelevant(ft, buffer + chunks[0], chunks[1..]);
      if !Decode(ft, buffer).Incomplete? {
        DecodeExtends(ft, buffer, Concat(chunks));
      }
    }
  }
}
