/** Size bounds: how many bytes an accepted value must have taken, whatever counts it declares,
    and how much normalizing can lengthen it. */
module Sizes {
  import opened Wire
  import opened Decimal
  import opened Floats
  import opened Framing
  import opened Resp3
  import opened Grammar

  /** The number of values in a tree, the root included. */
  function Nodes(v: Type): nat
    decreases v, 1
  {
    match v
    case Array(items) => 1 + NodesOfItems(items)
    case Set(items) => 1 + NodesOfItems(items)
    case Push(items) => 1 + NodesOfItems(items)
    case Map(pairs) => 1 + NodesOfPairs(pairs)
    case Attribute(pairs, inner) => 1 + NodesOfPairs(pairs) + if inner.None? then 0 else Nodes(inner.value)
    case _ => 1
  }

  function NodesOfItems(items: seq<Type>): nat
    decreases items, 0
  {
    if items == [] then 0 else Nodes(items[0]) + NodesOfItems(items[1..])
  }

  function NodesOfPairs(pairs: seq<KeyValue>): nat
    decreases pairs, 0
  {
    if pairs == [] then 0 else NodesOfPair(pairs[0]) + NodesOfPairs(pairs[1..])
  }

  function NodesOfPair(p: KeyValue): nat
    decreases p, 0
  {
    Nodes(p.key) + Nodes(p.value)
  }

  /** No value in the tree is a double. */
  predicate DoubleFree(v: Type)
    decreases v, 1
  {
    match v
    case Double(_) => false
    case Array(items) => DoubleFreeItems(items)
    case Set(items) => DoubleFreeItems(items)
    case Push(items) => DoubleFreeItems(items)
    case Map(pairs) => DoubleFreePairs(pairs)
    case Attribute(pairs, inner) => DoubleFreePairs(pairs) && (inner.Some? ==> DoubleFree(inner.value))
    case _ => true
  }

  predicate DoubleFreeItems(items: seq<Type>)
    decreases items, 0
  {
    items != [] ==> DoubleFree(items[0]) && DoubleFreeItems(items[1..])
  }

  predicate DoubleFreePairs(pairs: seq<KeyValue>)
    decreases pairs, 0
  {
    pairs != [] ==> DoubleFreePair(pairs[0]) && DoubleFreePairs(pairs[1..])
  }

  predicate DoubleFreePair(p: KeyValue)
    decreases p, 0
  {
    DoubleFree(p.key) && DoubleFree(p.value)
  }

  /** An encoding `bytes` long, of `nodes` values, whose canonical form is `canonical` long. */
  predicate WithinBounds(bytes: nat, nodes: nat, doubleFree: bool, canonical: nat) {
    2 * nodes <= bytes && (doubleFree ==> canonical <= bytes + nodes)
  }

  lemma {:induction false} EncodingBounds(ft: FloatText, v: Type, b: bytes)
    requires Encodes(ft, v, b)
    ensures WithinBounds(|b|, Nodes(v), DoubleFree(v), |Canonical(ft, v)|)
    decreases v, 1
  {
    hide EncodesAggregate, EncodesPairList, CanonicalItems, CanonicalPairs, FormatInt, ParseInt, IsBlob, BlobOf;
    hide LineText, IsLine, LineOf, CountOf, NodesOfItems, NodesOfPairs, DoubleFreeItems, DoubleFreePairs;
    match v
    case SimpleString(s) => LineBounds(PLUS, s, b);
    case ErrorReply(s) => LineBounds(MINUS, s, b);
    case Integer(n) => FormatIntShortest(LineText(b[1..])); LineBounds(COLON_MARK, FormatInt(n), b);
    case BigNumber(s) => LineBounds(PAREN, s, b);
    case Double(f) => LineBounds(COMMA, [], b);
    case Boolean(x) => LineBounds(HASH, if x then TRUE_TEXT else FALSE_TEXT, b);
    case Null => LineBounds(UNDERSCORE, [], b);
    case BulkString(s) => BlobBounds(DOLLAR, s, b);
    case BlobError(s) => BlobBounds(BANG, s, b);
    case VerbatimString(format, s) => BlobBounds(EQUALS, format + [COLON] + s, b);
    case Array(items) => AggregateBounds(ft, STAR, items, b[1..]);
    case Set(items) => AggregateBounds(ft, TILDE, items, b[1..]);
    case Push(items) => AggregateBounds(ft, GREATER, items, b[1..]);
    case Map(pairs) => PairListBounds(ft, PERCENT, pairs, b[1..]);
    case Attribute(pairs, inner) =>
      var rest := b[1..];
      var k :| 0 <= k <= |rest| && EncodesPairList(ft, pairs, rest[..k]) && Encodes(ft, inner.value, rest[k..]);
      PairListBounds(ft, BAR, pairs, rest[..k]);
      EncodingBounds(ft, inner.value, rest[k..]);
  }

  lemma LineBounds(marker: byte, text: bytes, b: bytes)
    requires MarkedLine(b, marker) && |text| <= |LineText(b[1..])|
    ensures 2 <= |b| && |LineOf(marker, text)| <= |b| + 1
  {
  }

  lemma CountBounds(marker: byte, n: nat, header: bytes)
    requires IsCount(header, n)
    ensures 2 <= |header| && |CountOf(marker, n)| <= |header| + 2
  {
    FormatIntShortest(LineText(header));
  }

  lemma BlobBounds(marker: byte, s: bytes, b: bytes)
    requires MarkedBlob(b, marker, s)
    ensures 5 <= |b| && |BlobOf(marker, s)| <= |b| + 1
  {
    CountBounds(marker, |s|, b[1..][..|b| - 1 - |s| - 2]);
  }

  lemma {:induction false} AggregateBounds(ft: FloatText, marker: byte, items: seq<Type>, b: bytes)
    requires EncodesAggregate(ft, items, b)
    ensures WithinBounds(1 + |b|, 1 + NodesOfItems(items), DoubleFreeItems(items),
                         |CountOf(marker, |items|) + CanonicalItems(ft, items)|)
    decreases items, 1
  {
    hide EncodesItems, CanonicalItems, NodesOfItems, DoubleFreeItems, IsCount, CountOf;
    var h :| 0 <= h <= |b| && IsCount(b[..h], |items|) && EncodesItems(ft, items, b[h..]);
    CountBounds(marker, |items|, b[..h]);
    ItemsBounds(ft, items, b[h..]);
  }

  lemma {:induction false} ItemsBounds(ft: FloatText, items: seq<Type>, b: bytes)
    requires EncodesItems(ft, items, b)
    ensures WithinBounds(|b|, NodesOfItems(items), DoubleFreeItems(items), |CanonicalItems(ft, items)|)
    decreases items, 0
  {
    hide Encodes, Canonical, Nodes, DoubleFree;
    if items == [] {
    } else {
      var k :| 0 <= k <= |b| && Encodes(ft, items[0], b[..k]) && EncodesItems(ft, items[1..], b[k..]);
      EncodingBounds(ft, items[0], b[..k]);
      ItemsBounds(ft, items[1..], b[k..]);
    }
  }

  lemma {:induction false} PairListBounds(ft: FloatText, marker: byte, pairs: seq<KeyValue>, b: bytes)
    requires EncodesPairList(ft, pairs, b)
    ensures WithinBounds(1 + |b|, 1 + NodesOfPairs(pairs), DoubleFreePairs(pairs),
                         |CountOf(marker, |pairs|) + CanonicalPairs(ft, pairs)|)
    decreases pairs, 1
  {
    hide EncodesPairs, CanonicalPairs, NodesOfPairs, DoubleFreePairs, IsCount, CountOf;
    var h :| 0 <= h <= |b| && IsCount(b[..h], |pairs|) && EncodesPairs(ft, pairs, b[h..]);
    CountBounds(marker, |pairs|, b[..h]);
    PairsBounds(ft, pairs, b[h..]);
  }

  lemma {:induction false} PairsBounds(ft: FloatText, pairs: seq<KeyValue>, b: bytes)
    requires EncodesPairs(ft, pairs, b)
    ensures WithinBounds(|b|, NodesOfPairs(pairs), DoubleFreePairs(pairs), |CanonicalPairs(ft, pairs)|)
    decreases pairs, 0
  {
    hide EncodesPair, CanonicalPair, NodesOfPair, DoubleFreePair;
    if pairs == [] {
    } else {
      var k :| 0 <= k <= |b| && EncodesPair(ft, pairs[0], b[..k]) && EncodesPairs(ft, pairs[1..], b[k..]);
      PairBounds(ft, pairs[0], b[..k]);
      PairsBounds(ft, pairs[1..], b[k..]);
    }
  }

  lemma {:induction false} PairBounds(ft: FloatText, p: KeyValue, b: bytes)
    requires EncodesPair(ft, p, b)
    ensures WithinBounds(|b|, NodesOfPair(p), DoubleFreePair(p), |CanonicalPair(ft, p)|)
    decreases p, 0
  {
    hide Encodes, Canonical, Nodes, DoubleFree;
    var k :| 0 <= k <= |b| && Encodes(ft, p.key, b[..k]) && Encodes(ft, p.value, b[k..]);
    EncodingBounds(ft, p.key, b[..k]);
    EncodingBounds(ft, p.value, b[k..]);
  }

  /** Parsing takes at least two bytes per value it returns, whatever counts the input declares;
      and writing a double-free result back adds at most one byte per value. */
  lemma DecodeBounds(ft: FloatText, s: bytes, v: Type, k: nat)
    requires Decode(ft, s) == Ok(v, k)
    ensures 2 * Nodes(v) <= k
    ensures DoubleFree(v) ==> |Canonical(ft, v)| <= k + Nodes(v)
  {
    hide Decode, Encodes, Canonical, Nodes, DoubleFree;
    DecodeIff(ft, s, v, k);
    EncodingBounds(ft, v, s[..k]);
  }
}
