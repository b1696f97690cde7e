/** The tagged codec against the sealed one: the values correspond, the writers write the same
    bytes and the parsers agree on every input, so the laws of the sealed codec carry over. */
module TaggedLaws {
  import opened Wire
  import opened Decimal
  import opened Floats
  import opened Framing
  import opened Resp3
  import opened Tagged
  import Codec
  import Grammar

  // From sealed values to tagged ones.

  function Embed(t: Type): Value
    decreases t, 1
  {
    match t
    case SimpleString(s) => NewSimpleString(s)
    case ErrorReply(s) => NewError(s)
    case Integer(n) => NewInteger(n)
    case BigNumber(s) => NewBigNumber(s)
    case Double(f) => NewDouble(f)
    case Boolean(b) => NewBoolean(b)
    case Null => NewNull()
    case BulkString(s) => NewBulkString(s)
    case BlobError(s) => NewBlobError(s)
    case VerbatimString(format, s) => NewVerbatimString(format, s)
    case Array(items) => NewArray(EmbedItems(items))
    case Set(items) => NewSet(EmbedItems(items))
    case Push(items) => NewPush(EmbedItems(items))
    case Map(pairs) => NewMap(EmbedPairs(pairs))
    case Attribute(pairs, inner) =>
      if inner.None? then Blank(KindAttribute).(pairs := EmbedPairs(pairs))
      else NewAttribute(EmbedPairs(pairs), Embed(inner.value))
  }

  function EmbedItems(items: seq<Type>): (r: seq<Value>)
    ensures |r| == |items|
    decreases items, 0
  {
    if items == [] then [] else [Embed(items[0])] + EmbedItems(items[1..])
  }

  function EmbedPairs(pairs: seq<KeyValue>): (r: seq<Pair>)
    ensures |r| == |pairs|
    decreases pairs, 0
  {
    if pairs == [] then [] else [EmbedPair(pairs[0])] + EmbedPairs(pairs[1..])
  }

  function EmbedPair(p: KeyValue): Pair
    decreases p, 0
  {
    Pair(Embed(p.key), Embed(p.value))
  }

  // From tagged values to sealed ones, when every kind that matters is a kind.

  predicate Known(v: Value)
    decreases v, 1
  {
    match v.kind
    case KindArray => KnownItems(v.items)
    case KindSet => KnownItems(v.items)
    case KindPush => KnownItems(v.items)
    case KindMap => KnownPairs(v.pairs)
    case KindAttribute => KnownPairs(v.pairs) && (v.inner.Some? ==> Known(v.inner.value))
    case KindOther(_) => false
    case _ => true
  }

  predicate KnownItems(items: seq<Value>)
    decreases items, 0
  {
    items != [] ==> Known(items[0]) && KnownItems(items[1..])
  }

  predicate KnownPairs(pairs: seq<Pair>)
    decreases pairs, 0
  {
    pairs != [] ==> KnownPair(pairs[0]) && KnownPairs(pairs[1..])
  }

  predicate KnownPair(p: Pair)
    decreases p, 0
  {
    Known(p.key) && Known(p.value)
  }

  function Abs(v: Value): Type
    requires Known(v)
    decreases v, 1
  {
    match v.kind
    case KindSimpleString => SimpleString(v.str)
    case KindError => ErrorReply(v.str)
    case KindInteger => Integer(v.num)
    case KindBigNumber => BigNumber(v.str)
    case KindDouble => Double(v.flt)
    case KindBoolean => Boolean(v.flag)
    case KindNull => Null
    case KindBulkString => BulkString(v.str)
    case KindBlobError => BlobError(v.str)
    case KindVerbatimString => VerbatimString(v.format, v.str)
    case KindArray => Array(AbsItems(v.items))
    case KindSet => Set(AbsItems(v.items))
    case KindPush => Push(AbsItems(v.items))
    case KindMap => Map(AbsPairs(v.pairs))
    case KindAttribute => Attribute(AbsPairs(v.pairs), if v.inner.None? then None else Some(Abs(v.inner.value)))
  }

  function AbsItems(items: seq<Value>): (r: seq<Type>)
    requires KnownItems(items)
    ensures |r| == |items|
    decreases items, 0
  {
    if items == [] then [] else [Abs(items[0])] + AbsItems(items[1..])
  }

  function AbsPairs(pairs: seq<Pair>): (r: seq<KeyValue>)
    requires KnownPairs(pairs)
    ensures |r| == |pairs|
    decreases pairs, 0
  {
    if pairs == [] then [] else [AbsPair(pairs[0])] + AbsPairs(pairs[1..])
  }

  function AbsPair(p: Pair): KeyValue
    requires KnownPair(p)
    decreases p, 0
  {
    KeyValue(Abs(p.key), Abs(p.value))
  }

  /** Only the fields that belong to the kind are set, here and in every child. */
  predicate Normal(v: Value)
    decreases v, 1
  {
    match v.kind
    case KindInteger => v == Blank(v.kind).(num := v.num)
    case KindDouble => v == Blank(v.kind).(flt := v.flt)
    case KindBoolean => v == Blank(v.kind).(flag := v.flag)
    case KindNull => v == Blank(v.kind)
    case KindVerbatimString => v == Blank(v.kind).(format := v.format, str := v.str)
    case KindArray => v == Blank(v.kind).(items := v.items) && NormalItems(v.items)
    case KindSet => v == Blank(v.kind).(items := v.items) && NormalItems(v.items)
    case KindPush => v == Blank(v.kind).(items := v.items) && NormalItems(v.items)
    case KindMap => v == Blank(v.kind).(pairs := v.pairs) && NormalPairs(v.pairs)
    case KindAttribute =>
      v == Blank(v.kind).(pairs := v.pairs, inner := v.inner) && NormalPairs(v.pairs)
      && (v.inner.Some? ==> Normal(v.inner.value))
    case _ => v == Blank(v.kind).(str := v.str)
  }

  /** A field that does not belong to the kind holds Go's zero value. */
  lemma NormalFields(v: Value)
    requires Normal(v)
    ensures v.num != 0 ==> v.kind.KindInteger?
    ensures v.flt != Finite(0) ==> v.kind.KindDouble?
    ensures v.flag ==> v.kind.KindBoolean?
    ensures v.format != [] ==> v.kind.KindVerbatimString?
    ensures v.items != [] ==> v.kind.KindArray? || v.kind.KindSet? || v.kind.KindPush?
    ensures v.pairs != [] ==> v.kind.KindMap? || v.kind.KindAttribute?
    ensures v.inner.Some? ==> v.kind.KindAttribute?
    ensures v.str != [] ==>
              || v.kind.KindSimpleString? || v.kind.KindError? || v.kind.KindBigNumber? || v.kind.KindBulkString?
              || v.kind.KindBlobError? || v.kind.KindVerbatimString? || v.kind.KindOther?
  {
  }

  predicate NormalItems(items: seq<Value>)
    decreases items, 0
  {
    items != [] ==> Normal(items[0]) && NormalItems(items[1..])
  }

  predicate NormalPairs(pairs: seq<Pair>)
    decreases pairs, 0
  {
    pairs != [] ==> NormalPair(pairs[0]) && NormalPairs(pairs[1..])
  }

  predicate NormalPair(p: Pair)
    decreases p, 0
  {
    Normal(p.key) && Normal(p.value)
  }

  // Sealed values correspond one to one to the known tagged values in normal form.

  lemma {:induction false} AbsEmbed(t: Type)
    ensures Known(Embed(t)) && Normal(Embed(t)) && Abs(Embed(t)) == t
    decreases t, 1
  {
    hide EmbedItems, EmbedPairs, AbsItems, AbsPairs, KnownItems, KnownPairs, NormalItems, NormalPairs;
    match t
    case Array(items) => AbsEmbedItems(items);
    case Set(items) => AbsEmbedItems(items);
    case Push(items) => AbsEmbedItems(items);
    case Map(pairs) => AbsEmbedPairs(pairs);
    case Attribute(pairs, inner) =>
      AbsEmbedPairs(pairs);
      if inner.Some? {
        AbsEmbed(inner.value);
      }
    case _ =>
  }

  lemma {:induction false} AbsEmbedItems(items: seq<Type>)
    ensures KnownItems(EmbedItems(items)) && NormalItems(EmbedItems(items)) && AbsItems(EmbedItems(items)) == items
    decreases items, 0
  {
    hide Embed, Abs, Known, Normal;
    if items == [] {
    } else {
      AbsEmbed(items[0]);
      AbsEmbedItems(items[1..]);
      assert EmbedItems(items)[1..] == EmbedItems(items[1..]);
    }
  }

  lemma {:induction false} AbsEmbedPairs(pairs: seq<KeyValue>)
    ensures KnownPairs(EmbedPairs(pairs)) && NormalPairs(EmbedPairs(pairs)) && AbsPairs(EmbedPairs(pairs)) == pairs
    decreases pairs, 0
  {
    hide EmbedPair, AbsPair, KnownPair, NormalPair;
    if pairs == [] {
    } else {
      AbsEmbedPair(pairs[0]);
      AbsEmbedPairs(pairs[1..]);
      assert EmbedPairs(pairs)[1..] == EmbedPairs(pairs[1..]);
    }
  }

  lemma {:induction false} AbsEmbedPair(p: KeyValue)
    ensures KnownPair(EmbedPair(p)) && NormalPair(EmbedPair(p)) && AbsPair(EmbedPair(p)) == p
    decreases p, 0
  {
    hide Embed, Abs, Known, Normal;
    AbsEmbed(p.key);
    AbsEmbed(p.value);
  }

  lemma {:induction false} EmbedAbs(v: Value)
    requires Known(v) && Normal(v)
    ensures Embed(Abs(v)) == v
    decreases v, 1
  {
    hide EmbedItems, EmbedPairs, AbsItems, AbsPairs, KnownItems, KnownPairs, NormalItems, NormalPairs;
    match v.kind
    case KindArray => EmbedAbsItems(v.items);
    case KindSet => EmbedAbsItems(v.items);
    case KindPush => EmbedAbsItems(v.items);
    case KindMap => EmbedAbsPairs(v.pairs);
    case KindAttribute =>
      EmbedAbsPairs(v.pairs);
      if v.inner.Some? {
        EmbedAbs(v.inner.value);
      }
    case _ =>
  }

  lemma {:induction false} EmbedAbsItems(items: seq<Value>)
    requires KnownItems(items) && NormalItems(items)
    ensures EmbedItems(AbsItems(items)) == items
    decreases items, 0
  {
    hide Embed, Abs, Known, Normal;
    if items == [] {
    } else {
      EmbedAbs(items[0]);
      EmbedAbsItems(items[1..]);
      var r := AbsItems(items);
      assert r[0] == Abs(items[0]) && r[1..] == AbsItems(items[1..]);
      assert EmbedItems(r) == [items[0]] + items[1..];
    }
  }

  lemma {:induction false} EmbedAbsPairs(pairs: seq<Pair>)
    requires KnownPairs(pairs) && NormalPairs(pairs)
    ensures EmbedPairs(AbsPairs(pairs)) == pairs
    decreases pairs, 0
  {
    hide EmbedPair, AbsPair, KnownPair, NormalPair;
    if pairs == [] {
    } else {
      EmbedAbsPair(pairs[0]);
      EmbedAbsPairs(pairs[1..]);
      var r := AbsPairs(pairs);
      assert r[0] == AbsPair(pairs[0]) && r[1..] == AbsPairs(pairs[1..]);
      assert EmbedPairs(r) == [pairs[0]] + pairs[1..];
    }
  }

  lemma {:induction false} EmbedAbsPair(p: Pair)
    requires KnownPair(p) && NormalPair(p)
    ensures EmbedPair(AbsPair(p)) == p
    decreases p, 0
  {
    hide Embed, Abs, Known, Normal;
    EmbedAbs(p.key);
    EmbedAbs(p.value);
  }

  // Both writers write the same bytes.

  lemma {:induction false} WrittenCanonical(ft: FloatText, v: Value)
    requires Known(v)
    ensures Written(ft, v) == Canonical(ft, Abs(v))
    decreases v, 1
  {
    hide LineOf, BlobOf, CountOf, FormatInt, FormatDouble, WrittenItems, WrittenPairs, CanonicalItems, CanonicalPairs;
    hide AbsItems, AbsPairs, KnownItems, KnownPairs;
    match v.kind
    case KindArray => WrittenItemsCanonical(ft, v.items);
    case KindSet => WrittenItemsCanonical(ft, v.items);
    case KindPush => WrittenItemsCanonical(ft, v.items);
    case KindMap => WrittenPairsCanonical(ft, v.pairs);
    case KindAttribute =>
      WrittenPairsCanonical(ft, v.pairs);
      if v.inner.Some? {
        WrittenCanonical(ft, v.inner.value);
      }
    case _ =>
  }

  lemma {:induction false} WrittenItemsCanonical(ft: FloatText, items: seq<Value>)
    requires KnownItems(items)
    ensures WrittenItems(ft, items) == CanonicalItems(ft, AbsItems(items))
    decreases items, 0
  {
    hide Written, Canonical, Abs, Known;
    if items == [] {
    } else {
      WrittenCanonical(ft, items[0]);
      WrittenItemsCanonical(ft, items[1..]);
      assert AbsItems(items)[1..] == AbsItems(items[1..]);
    }
  }

  lemma {:induction false} WrittenPairsCanonical(ft: FloatText, pairs: seq<Pair>)
    requires KnownPairs(pairs)
    ensures WrittenPairs(ft, pairs) == CanonicalPairs(ft, AbsPairs(pairs))
    decreases pairs, 0
  {
    hide WrittenPair, CanonicalPair, AbsPair, KnownPair;
    if pairs == [] {
    } else {
      WrittenPairCanonical(ft, pairs[0]);
      WrittenPairsCanonical(ft, pairs[1..]);
      assert AbsPairs(pairs)[1..] == AbsPairs(pairs[1..]);
    }
  }

  lemma {:induction false} WrittenPairCanonical(ft: FloatText, p: Pair)
    requires KnownPair(p)
    ensures WrittenPair(ft, p) == CanonicalPair(ft, AbsPair(p))
    decreases p, 0
  {
    hide Written, Canonical, Abs, Known;
    WrittenCanonical(ft, p.key);
    WrittenCanonical(ft, p.value);
  }

  // Both parsers agree on every byte string: the same class of answer, the same position, and
  // the tagged value is the image of the sealed one.

  function Lift(o: Outcome<Type>): Outcome<Value> {
    match o
    case Ok(v, k) => Ok(Embed(v), k)
    case Incomplete => Incomplete
    case Malformed => Malformed
  }

  function LiftItems(o: Outcome<seq<Type>>): Outcome<seq<Value>> {
    match o
    case Ok(vs, k) => Ok(EmbedItems(vs), k)
    case Incomplete => Incomplete
    case Malformed => Malformed
  }

  function LiftPairs(o: Outcome<seq<KeyValue>>): Outcome<seq<Pair>> {
    match o
    case Ok(ps, k) => Ok(EmbedPairs(ps), k)
    case Incomplete => Incomplete
    case Malformed => Malformed
  }

  function LiftPair(o: Outcome<KeyValue>): Outcome<Pair> {
    match o
    case Ok(p, k) => Ok(EmbedPair(p), k)
    case Incomplete => Incomplete
    case Malformed => Malformed
  }

  lemma {:induction false} ParsersAgree(ft: FloatText, s: bytes)
    ensures ReadTagged(ft, s) == Lift(Decode(ft, s))
    decreases |s|, 0
  {
    hide ReadLine, ReadBlob, LineTagged, LineValue, BlobAs, BlobValue, Verbatim, DecodeAggregate, DecodePairList;
    hide AggregateAs, ReadMap, ReadAttribute, DecodeAttribute, AggregateValue, Embed;
    if s == [] {
    } else {
      var m, rest := s[0], s[1..];
      if IsLineMarker(m) {
        if ReadLine(rest).Ok? {
          LinesAgree(ft, m, ReadLine(rest).value);
        }
      } else if IsBlobMarker(m) {
        BlobsAgree(rest);
      } else if IsAggregateMarker(m) {
        AggregatesAgree(ft, m, rest);
      } else if m == PERCENT {
        MapsAgree(ft, rest);
      } else if m == BAR {
        AttributesAgree(ft, rest);
      }
    }
  }

  lemma LinesAgree(ft: FloatText, m: byte, line: bytes)
    requires IsLineMarker(m)
    ensures var v := LineValue(ft, m, line);
            LineTagged(ft, m, line) == if v.None? then None else Some(Embed(v.value))
  {
    hide ParseInt, ParseDouble;
  }

  lemma BlobsAgree(s: bytes)
    ensures match ReadBlob(s)
            case Ok(payload, k) =>
              && BlobAs(KindBulkString, s) == Lift(OrMalformed(BlobValue(DOLLAR, payload), k))
              && BlobAs(KindBlobError, s) == Lift(OrMalformed(BlobValue(BANG, payload), k))
              && Verbatim(s) == Lift(OrMalformed(BlobValue(EQUALS, payload), k))
            case Incomplete =>
              BlobAs(KindBulkString, s).Incomplete? && BlobAs(KindBlobError, s).Incomplete? && Verbatim(s).Incomplete?
            case Malformed =>
              BlobAs(KindBulkString, s).Malformed? && BlobAs(KindBlobError, s).Malformed? && Verbatim(s).Malformed?
  {
    hide ReadBlob, Cut;
  }

  lemma {:induction false} AggregatesAgree(ft: FloatText, m: byte, s: bytes)
    requires IsAggregateMarker(m)
    ensures AggregateAs(ft, if m == STAR then KindArray else if m == TILDE then KindSet else KindPush, s) ==
            match DecodeAggregate(ft, s)
            case Ok(items, k) => Ok(Embed(AggregateValue(m, items)), k)
            case Incomplete => Incomplete
            case Malformed => Malformed
    decreases |s|, 0
  {
    hide ReadCount, ReadItems, DecodeItems, EmbedItems;
    var n := ReadCount(s);
    if n.Ok? {
      ItemsAgree(ft, n.value, s[n.used..]);
    }
  }

  lemma {:induction false} ItemsAgree(ft: FloatText, n: nat, s: bytes)
    ensures ReadItems(ft, n, s) == LiftItems(DecodeItems(ft, n, s))
    decreases |s|, n + 1
  {
    hide ReadTagged, Decode, Embed;
    if n == 0 {
    } else {
      ParsersAgree(ft, s);
      if Decode(ft, s).Ok? {
        var k := Decode(ft, s).used;
        ItemsAgree(ft, n - 1, s[k..]);
        if DecodeItems(ft, n, s).Ok? {
          assert DecodeItems(ft, n, s).value[1..] == DecodeItems(ft, n - 1, s[k..]).value;
        }
      }
    }
  }

  lemma {:induction false} MapsAgree(ft: FloatText, s: bytes)
    ensures ReadMap(ft, s) ==
            match DecodePairList(ft, s)
            case Ok(pairs, k) => Ok(Embed(Map(pairs)), k)
            case Incomplete => Incomplete
            case Malformed => Malformed
    decreases |s|, 0
  {
    hide ReadCount, ReadPairs, DecodePairs, EmbedPairs;
    var n := ReadCount(s);
    if n.Ok? {
      PairsAgree(ft, n.value, s[n.used..]);
    }
  }

  lemma {:induction false} AttributesAgree(ft: FloatText, s: bytes)
    ensures ReadAttribute(ft, s) == Lift(DecodeAttribute(ft, s))
    decreases |s|, 0
  {
    hide ReadCount, ReadPairs, DecodePairs, EmbedPairs, ReadTagged, Decode;
    var n := ReadCount(s);
    if n.Ok? {
      PairsAgree(ft, n.value, s[n.used..]);
      var pairs := DecodePairs(ft, n.value, s[n.used..]);
      if pairs.Ok? {
        ParsersAgree(ft, s[n.used + pairs.used..]);
      }
    }
  }

  lemma {:induction false} PairsAgree(ft: FloatText, n: nat, s: bytes)
    ensures ReadPairs(ft, n, s) == LiftPairs(DecodePairs(ft, n, s))
    decreases |s|, n + 2
  {
    hide ReadPair, DecodePair, EmbedPair;
    if n == 0 {
    } else {
      PairAgrees(ft, s);
      if DecodePair(ft, s).Ok? {
        var k := DecodePair(ft, s).used;
        PairsAgree(ft, n - 1, s[k..]);
        if DecodePairs(ft, n, s).Ok? {
          assert DecodePairs(ft, n, s).value[1..] == DecodePairs(ft, n - 1, s[k..]).value;
        }
      }
    }
  }

  lemma {:induction false} PairAgrees(ft: FloatText, s: bytes)
    ensures ReadPair(ft, s) == LiftPair(DecodePair(ft, s))
    decreases |s|, 1
  {
    hide ReadTagged, Decode, Embed;
    ParsersAgree(ft, s);
    if Decode(ft, s).Ok? {
      ParsersAgree(ft, s[Decode(ft, s).used..]);
    }
  }

  // The laws of the sealed codec, carried over.

  /** `v` with every field that its kind ignores set to zero, at every level. */
  function Normalize(v: Value): Value
    requires Known(v)
  {
    Embed(Abs(v))
  }

  /** A well-formed tagged value, whatever its ignored fields hold, is read back normalized. */
  lemma TaggedRoundTrip(ft: FloatText, v: Value, rest: bytes)
    requires Faithful(ft) && Known(v) && WellFormed(Abs(v))
    ensures ReadTagged(ft, Written(ft, v) + rest) == Ok(Normalize(v), |Written(ft, v)|)
  {
    hide ReadTagged, Decode, Written, Canonical, Known, Abs, Embed, WellFormed, Faithful;
    WrittenCanonical(ft, v);
    Codec.RoundTrip(ft, Abs(v), rest);
    ParsersAgree(ft, Written(ft, v) + rest);
  }

  /** Whatever the tagged parser returns is of known kinds, well formed and in normal form. */
  lemma ReadTaggedNormal(ft: FloatText, s: bytes)
    requires ReadTagged(ft, s).Ok?
    ensures var v := ReadTagged(ft, s).value; Known(v) && Normal(v) && WellFormed(Abs(v))
  {
    hide ReadTagged, Decode, Known, Normal, Abs, Embed, WellFormed;
    ParsersAgree(ft, s);
    Codec.DecodedWellFormed(ft, s);
    AbsEmbed(Decode(ft, s).value);
  }

  /** The tagged parser, too, is an exact recognizer of the grammar, and gives the one value in
      normal form that the consumed bytes encode. */
  lemma ReadTaggedIff(ft: FloatText, s: bytes, v: Value, k: nat)
    ensures ReadTagged(ft, s) == Ok(v, k)
            <==> k <= |s| && Known(v) && Normal(v) && Grammar.Encodes(ft, Abs(v), s[..k])
  {
    hide ReadTagged, Decode, Known, Normal, Abs, Embed, WellFormed, Grammar.Encodes;
    ParsersAgree(ft, s);
    if ReadTagged(ft, s) == Ok(v, k) {
      AbsEmbed(Decode(ft, s).value);
      Grammar.DecodeIff(ft, s, Decode(ft, s).value, k);
    }
    if k <= |s| && Known(v) && Normal(v) && Grammar.Encodes(ft, Abs(v), s[..k]) {
      Grammar.DecodeIff(ft, s, Abs(v), k);
      EmbedAbs(v);
    }
  }

  /** The tagged round trip returns the very value it was given on exactly these values. */
  lemma TaggedRoundTripIff(ft: FloatText, v: Value)
    requires Faithful(ft)
    ensures ReadTagged(ft, Written(ft, v)) == Ok(v, |Written(ft, v)|)
            <==> Known(v) && WellFormed(Abs(v)) && Normal(v)
  {
    hide ReadTagged, Written, Known, Abs, Embed, Normal, WellFormed, Faithful;
    if ReadTagged(ft, Written(ft, v)) == Ok(v, |Written(ft, v)|) {
      ReadTaggedNormal(ft, Written(ft, v));
    }
    if Known(v) && WellFormed(Abs(v)) && Normal(v) {
      TaggedRoundTrip(ft, v, []);
      EmbedAbs(v);
      assert Written(ft, v) + [] == Written(ft, v);
    }
  }
}
