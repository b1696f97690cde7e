/** When an incomplete answer is final: the inputs on which the parser asks for more data and no
    more data can bring any other answer, and that there are no others. */
module Permanent {
  import opened Wire
  import opened Decimal
  import opened Floats
  import opened Framing
  import opened Resp3
  import opened Grammar

  // The place the parser has reached, and whether a payload's terminator is already wrong there.

  predicate Stuck(ft: FloatText, s: bytes)
    decreases |s|, 0
  {
    s != [] &&
    var m, rest := s[0], s[1..];
    if IsBlobMarker(m) then StuckBlob(rest)
    else if IsAggregateMarker(m) then StuckAggregate(ft, rest)
    else if m == PERCENT then StuckPairList(ft, rest)
    else m == BAR && StuckAttribute(ft, rest)
  }

  predicate StuckBlob(s: bytes) {
    var n := ReadCount(s);
    n.Ok? && WrongTerminator(s[n.used..], n.value)
  }

  predicate StuckAggregate(ft: FloatText, s: bytes)
    decreases |s|, 0
  {
    var n := ReadCount(s);
    n.Ok? && StuckItems(ft, n.value, s[n.used..])
  }

  predicate StuckItems(ft: FloatText, n: nat, s: bytes)
    decreases |s|, n + 1
  {
    n > 0 &&
    var r := Decode(ft, s);
    if r.Ok? then StuckItems(ft, n - 1, s[r.used..]) else Stuck(ft, s)
  }

  predicate StuckPairList(ft: FloatText, s: bytes)
    decreases |s|, 0
  {
    var n := ReadCount(s);
    n.Ok? && StuckPairs(ft, n.value, s[n.used..])
  }

  predicate StuckPairs(ft: FloatText, n: nat, s: bytes)
    decreases |s|, n + 2
  {
    n > 0 &&
    var r := DecodePair(ft, s);
    if r.Ok? then StuckPairs(ft, n - 1, s[r.used..]) else StuckPair(ft, s)
  }

  predicate StuckPair(ft: FloatText, s: bytes)
    decreases |s|, 1
  {
    var r := Decode(ft, s);
    if r.Ok? then Stuck(ft, s[r.used..]) else Stuck(ft, s)
  }

  predicate StuckAttribute(ft: FloatText, s: bytes)
    decreases |s|, 1
  {
    var r := DecodePairList(ft, s);
    if r.Ok? then Stuck(ft, s[r.used..]) else StuckPairList(ft, s)
  }

  // Stuck inputs stay incomplete.

  lemma {:induction false} StuckStays(ft: FloatText, s: bytes, t: bytes)
    requires Stuck(ft, s)
    ensures Decode(ft, s + t).Incomplete?
    decreases |s|, 0
  {
    hide ReadBlob, DecodeAggregate, DecodePairList, DecodeAttribute;
    hide StuckBlob, StuckAggregate, StuckPairList, StuckAttribute;
    var m, rest := s[0], s[1..];
    assert (s + t)[0] == m && (s + t)[1..] == rest + t;
    if IsBlobMarker(m) {
      StuckBlobStays(rest, t);
    } else if IsAggregateMarker(m) {
      StuckAggregateStays(ft, rest, t);
    } else if m == PERCENT {
      StuckPairListStays(ft, rest, t);
    } else {
      StuckAttributeStays(ft, rest, t);
    }
  }

  lemma StuckBlobStays(s: bytes, t: bytes)
    requires StuckBlob(s)
    ensures ReadBlob(s + t).Incomplete?
  {
    hide ReadCount, ReadBytes, WrongTerminator;
    var n := ReadCount(s);
    ReadCountExtends(s, t);
    assert (s + t)[n.used..] == s[n.used..] + t;
    ReadBytesStuckIff(s[n.used..], n.value, t);
  }

  lemma {:induction false} StuckAggregateStays(ft: FloatText, s: bytes, t: bytes)
    requires StuckAggregate(ft, s)
    ensures DecodeAggregate(ft, s + t).Incomplete?
    decreases |s|, 0
  {
    hide ReadCount, DecodeItems, StuckItems;
    var n := ReadCount(s);
    ReadCountExtends(s, t);
    assert (s + t)[n.used..] == s[n.used..] + t;
    StuckItemsStay(ft, n.value, s[n.used..], t);
  }

  lemma {:induction false} StuckItemsStay(ft: FloatText, n: nat, s: bytes, t: bytes)
    requires StuckItems(ft, n, s)
    ensures DecodeItems(ft, n, s + t).Incomplete?
    decreases |s|, n + 1
  {
    hide Decode, Stuck;
    var r := Decode(ft, s);
    if r.Ok? {
      DecodeExtends(ft, s, t);
      assert (s + t)[r.used..] == s[r.used..] + t;
      StuckItemsStay(ft, n - 1, s[r.used..], t);
    } else {
      StuckStays(ft, s, t);
    }
  }

  lemma {:induction false} StuckPairListStays(ft: FloatText, s: bytes, t: bytes)
    requires StuckPairList(ft, s)
    ensures DecodePairList(ft, s + t).Incomplete?
    decreases |s|, 0
  {
    hide ReadCount, DecodePairs, StuckPairs;
    var n := ReadCount(s);
    ReadCountExtends(s, t);
    assert (s + t)[n.used..] == s[n.used..] + t;
    StuckPairsStay(ft, n.value, s[n.used..], t);
  }

  lemma {:induction false} StuckPairsStay(ft: FloatText, n: nat, s: bytes, t: bytes)
    requires StuckPairs(ft, n, s)
    ensures DecodePairs(ft, n, s + t).Incomplete?
    decreases |s|, n + 2
  {
    hide DecodePair, StuckPair;
    var r := DecodePair(ft, s);
    if r.Ok? {
      DecodePairExtends(ft, s, t);
      assert (s + t)[r.used..] == s[r.used..] + t;
      StuckPairsStay(ft, n - 1, s[r.used..], t);
    } else {
      StuckPairStays(ft, s, t);
    }
  }

  lemma {:induction false} StuckPairStays(ft: FloatText, s: bytes, t: bytes)
    requires StuckPair(ft, s)
    ensures DecodePair(ft, s + t).Incomplete?
    decreases |s|, 1
  {
    hide Decode, Stuck;
    var r := Decode(ft, s);
    if r.Ok? {
      DecodeExtends(ft, s, t);
      assert (s + t)[r.used..] == s[r.used..] + t;
      StuckStays(ft, s[r.used..], t);
    } else {
      StuckStays(ft, s, t);
    }
  }

  lemma {:induction false} StuckAttributeStays(ft: FloatText, s: bytes, t: bytes)
    requires StuckAttribute(ft, s)
    ensures DecodeAttribute(ft, s + t).Incomplete?
    decreases |s|, 1
  {
    hide Decode, DecodePairList, Stuck, StuckPairList;
    var r := DecodePairList(ft, s);
    if r.Ok? {
      DecodePairListExtends(ft, s, t);
      assert (s + t)[r.used..] == s[r.used..] + t;
      StuckStays(ft, s[r.used..], t);
    } else {
      StuckPairListStays(ft, s, t);
    }
  }

  // Other inputs can be continued to a definite answer. The continuation ends a line or a payload
  // where the input breaks off and then adds a byte that marks no type, so that whatever is still
  // to be read is malformed.

  const NO_MARKER: byte := 0

  /** Reading `s` gave a definite answer: malformed, or a success that leaves that one byte. */
  predicate Settled<T>(o: Outcome<T>, s: bytes) {
    o.Malformed? || (o.Ok? && o.used <= |s| && s[o.used..] == [NO_MARKER])
  }

  lemma SettledAfter<T, U>(o: Outcome<T>, s: bytes, whole: Outcome<U>, k: nat, all: bytes)
    requires Settled(o, s) && k <= |all| && all[k..] == s
    requires o.Malformed? ==> whole.Malformed?
    requires o.Ok? ==> whole.Malformed? || (whole.Ok? && whole.used == k + o.used)
    ensures Settled(whole, all)
  {
    if o.Ok? {
      assert all[k + o.used..] == s[o.used..];
    }
  }

  /** A line that has not ended yet ends with a newline. */
  lemma LineEnds(s: bytes, t: bytes)
    requires ReadLine(s).Incomplete?
    ensures ReadLine(s + [LF] + t).Ok? && ReadLine(s + [LF] + t).used == |s| + 1
  {
    var b := s + [LF];
    assert b[..|s|] == s && (b + t)[..|s| + 1] == b;
    ReadLineIff(b + t, |s| + 1);
  }

  /** So does the line of a count, which then may turn out to be no count. */
  lemma CountEnds(s: bytes, t: bytes)
    requires ReadCount(s).Incomplete?
    ensures var n := ReadCount(s + [LF] + t);
            n.Malformed? || (n.Ok? && n.used == |s| + 1 && (s + [LF] + t)[n.used..] == t)
  {
    LineEnds(s, t);
  }

  lemma NoMarkerMalformed(ft: FloatText)
    ensures Decode(ft, [NO_MARKER]).Malformed? && DecodePair(ft, [NO_MARKER]).Malformed?
  {
  }

  lemma {:induction false} Continue(ft: FloatText, s: bytes) returns (t: bytes)
    requires Decode(ft, s).Incomplete? && !Stuck(ft, s)
    ensures Settled(Decode(ft, s + t), s + t)
    decreases |s|, 0
  {
    hide ReadLine, ReadBlob, LineValue, BlobValue, DecodeAggregate, DecodePairList, DecodeAttribute, Settled;
    hide StuckBlob, StuckAggregate, StuckPairList, StuckAttribute;
    if s == [] {
      t := [NO_MARKER];
      assert s + t == t;
      NoMarkerMalformed(ft);
      SettledAfter(Decode(ft, t), t, Decode(ft, t), 0, t);
    } else {
      var m, rest := s[0], s[1..];
      if IsLineMarker(m) {
        t := ContinueLine(rest);
        SettledAfter(ReadLine(rest + t), rest + t, Decode(ft, s + t), 1, s + t);
      } else if IsBlobMarker(m) {
        t := ContinueBlob(rest);
        SettledAfter(ReadBlob(rest + t), rest + t, Decode(ft, s + t), 1, s + t);
      } else if IsAggregateMarker(m) {
        t := ContinueAggregate(ft, rest);
        SettledAfter(DecodeAggregate(ft, rest + t), rest + t, Decode(ft, s + t), 1, s + t);
      } else if m == PERCENT {
        t := ContinuePairList(ft, rest);
        SettledAfter(DecodePairList(ft, rest + t), rest + t, Decode(ft, s + t), 1, s + t);
      } else {
        t := ContinueAttribute(ft, rest);
        SettledAfter(DecodeAttribute(ft, rest + t), rest + t, Decode(ft, s + t), 1, s + t);
      }
    }
  }

  lemma ContinueLine(s: bytes) returns (t: bytes)
    requires ReadLine(s).Incomplete?
    ensures Settled(ReadLine(s + t), s + t)
  {
    t := [LF, NO_MARKER];
    LineEnds(s, [NO_MARKER]);
    assert s + t == s + [LF] + [NO_MARKER];
  }

  lemma ContinueBlob(s: bytes) returns (t: bytes)
    requires ReadBlob(s).Incomplete? && !StuckBlob(s)
    ensures Settled(ReadBlob(s + t), s + t)
  {
    hide ReadCount, Missing, Settled;
    if ReadCount(s).Incomplete? {
      CountEnds(s, []);
      var ended := s + [LF];
      assert ended + [] == ended;
      var n := ReadCount(ended);
      if n.Ok? {
        var more := ContinuePayload([], n.value);
        t := [LF] + more;
        assert s + t == ended + more && (s + t)[n.used..] == more == [] + more;
        ReadCountExtends(ended, more);
        SettledAfter(ReadBytes(more, n.value), more, ReadBlob(s + t), n.used, s + t);
      } else {
        t := [LF];
        SettledAfter(n, ended, ReadBlob(ended), 0, ended);
      }
    } else {
      var n := ReadCount(s);
      t := ContinuePayload(s[n.used..], n.value);
      ReadCountExtends(s, t);
      assert (s + t)[n.used..] == s[n.used..] + t;
      SettledAfter(ReadBytes(s[n.used..] + t, n.value), s[n.used..] + t, ReadBlob(s + t), n.used, s + t);
    }
  }

  lemma ContinuePayload(s: bytes, n: nat) returns (t: bytes)
    requires ReadBytes(s, n).Incomplete? && !WrongTerminator(s, n)
    ensures Settled(ReadBytes(s + t, n), s + t)
  {
    var whole := s + Missing(s, n);
    t := Missing(s, n) + [NO_MARKER];
    ReadBytesStuckIff(s, n, []);
    assert |whole| == n + 2;
    assert s + t == whole + [NO_MARKER];
  }

  lemma {:induction false} ContinueAggregate(ft: FloatText, s: bytes) returns (t: bytes)
    requires DecodeAggregate(ft, s).Incomplete? && !StuckAggregate(ft, s)
    ensures Settled(DecodeAggregate(ft, s + t), s + t)
    decreases |s|, 0
  {
    hide ReadCount, StuckItems, Decode;
    if ReadCount(s).Incomplete? {
      t := [LF, NO_MARKER];
      CountEnds(s, [NO_MARKER]);
      assert s + t == s + [LF] + [NO_MARKER];
      NoMarkerMalformed(ft);
    } else {
      hide DecodeItems, Settled;
      var n := ReadCount(s);
      t := ContinueItems(ft, n.value, s[n.used..]);
      ReadCountExtends(s, t);
      assert (s + t)[n.used..] == s[n.used..] + t;
      SettledAfter(DecodeItems(ft, n.value, s[n.used..] + t), s[n.used..] + t,
                   DecodeAggregate(ft, s + t), n.used, s + t);
    }
  }

  lemma {:induction false} ContinueItems(ft: FloatText, n: nat, s: bytes) returns (t: bytes)
    requires DecodeItems(ft, n, s).Incomplete? && !StuckItems(ft, n, s)
    ensures Settled(DecodeItems(ft, n, s + t), s + t)
    decreases |s|, n + 1
  {
    hide Decode, Stuck;
    var r := Decode(ft, s);
    if r.Ok? {
      t := ContinueItems(ft, n - 1, s[r.used..]);
      DecodeExtends(ft, s, t);
      assert (s + t)[r.used..] == s[r.used..] + t;
      SettledAfter(DecodeItems(ft, n - 1, s[r.used..] + t), s[r.used..] + t, DecodeItems(ft, n, s + t), r.used, s + t);
    } else {
      t := Continue(ft, s);
      NoMarkerMalformed(ft);
    }
  }

  lemma {:induction false} ContinuePairList(ft: FloatText, s: bytes) returns (t: bytes)
    requires DecodePairList(ft, s).Incomplete? && !StuckPairList(ft, s)
    ensures Settled(DecodePairList(ft, s + t), s + t)
    decreases |s|, 0
  {
    hide ReadCount, StuckPairs, DecodePair;
    if ReadCount(s).Incomplete? {
      t := [LF, NO_MARKER];
      CountEnds(s, [NO_MARKER]);
      assert s + t == s + [LF] + [NO_MARKER];
      NoMarkerMalformed(ft);
    } else {
      hide DecodePairs, Settled;
      var n := ReadCount(s);
      t := ContinuePairs(ft, n.value, s[n.used..]);
      ReadCountExtends(s, t);
      assert (s + t)[n.used..] == s[n.used..] + t;
      SettledAfter(DecodePairs(ft, n.value, s[n.used..] + t), s[n.used..] + t,
                   DecodePairList(ft, s + t), n.used, s + t);
    }
  }

  lemma {:induction false} ContinuePairs(ft: FloatText, n: nat, s: bytes) returns (t: bytes)
    requires DecodePairs(ft, n, s).Incomplete? && !StuckPairs(ft, n, s)
    ensures Settled(DecodePairs(ft, n, s + t), s + t)
    decreases |s|, n + 2
  {
    hide DecodePair, StuckPair;
    var r := DecodePair(ft, s);
    if r.Ok? {
      t := ContinuePairs(ft, n - 1, s[r.used..]);
      DecodePairExtends(ft, s, t);
      assert (s + t)[r.used..] == s[r.used..] + t;
      SettledAfter(DecodePairs(ft, n - 1, s[r.used..] + t), s[r.used..] + t, DecodePairs(ft, n, s + t), r.used, s + t);
    } else {
      t := ContinuePair(ft, s);
      NoMarkerMalformed(ft);
    }
  }

  lemma {:induction false} ContinuePair(ft: FloatText, s: bytes) returns (t: bytes)
    requires DecodePair(ft, s).Incomplete? && !StuckPair(ft, s)
    ensures Settled(DecodePair(ft, s + t), s + t)
    decreases |s|, 1
  {
    hide Decode, Stuck;
    var r := Decode(ft, s);
    if r.Ok? {
      t := Continue(ft, s[r.used..]);
      DecodeExtends(ft, s, t);
      assert (s + t)[r.used..] == s[r.used..] + t;
      SettledAfter(Decode(ft, s[r.used..] + t), s[r.used..] + t, DecodePair(ft, s + t), r.used, s + t);
    } else {
      t := Continue(ft, s);
      NoMarkerMalformed(ft);
    }
  }

  lemma {:induction false} ContinueAttribute(ft: FloatText, s: bytes) returns (t: bytes)
    requires DecodeAttribute(ft, s).Incomplete? && !StuckAttribute(ft, s)
    ensures Settled(DecodeAttribute(ft, s + t), s + t)
    decreases |s|, 1
  {
    hide Decode, DecodePairList, Stuck, StuckPairList;
    var r := DecodePairList(ft, s);
    if r.Ok? {
      t := Continue(ft, s[r.used..]);
      DecodePairListExtends(ft, s, t);
      assert (s + t)[r.used..] == s[r.used..] + t;
      SettledAfter(Decode(ft, s[r.used..] + t), s[r.used..] + t, DecodeAttribute(ft, s + t), r.used, s + t);
    } else {
      t := ContinuePairList(ft, s);
      NoMarkerMalformed(ft);
    }
  }

  /** More data can bring another answer than Incomplete, unless the input is stuck: then, and only
      then, the answer is Incomplete for every continuation. */
  lemma StuckIff(ft: FloatText, s: bytes)
    ensures Stuck(ft, s) <==> forall t :: Decode(ft, s + t).Incomplete?
  {
    hide Decode, Stuck;
    if Stuck(ft, s) {
      forall t ensures Decode(ft, s + t).Incomplete? {
        StuckStays(ft, s, t);
      }
    } else if Decode(ft, s).Incomplete? {
      var t := Continue(ft, s);
      assert !Decode(ft, s + t).Incomplete?;
    } else {
      assert s + [] == s;
    }
  }

  /** For instance, an array whose one bulk string is not followed by CR LF: "*1", "$1", "aXX". */
  const NESTED_STUCK: bytes := [STAR, 49, CR, LF, DOLLAR, 49, CR, LF, 97, 88, 88]

  lemma NestedStuck(ft: FloatText, t: bytes)
    ensures Decode(ft, NESTED_STUCK + t).Incomplete?
  {
    var rest := NESTED_STUCK[1..];
    var item := rest[3..];
    OneCount(rest);
    OneCount(item[1..]);
    assert item[1..][3..] == [97, 88, 88] && [97, 88, 88][1..] == [88 as byte, 88];
    assert Stuck(ft, item);
    StuckStays(ft, item, []);
    assert item + [] == item;
    assert StuckItems(ft, 1, item);
    StuckStays(ft, NESTED_STUCK, t);
  }

  lemma OneCount(s: bytes)
    requires [49, CR, LF] <= s
    ensures ReadCount(s) == Ok(1, 3)
  {
    assert s[..3] == [49, CR, LF];
    assert LineText([49, CR, LF]) == [49] == FormatInt(1);
    FormatIntParses(1);
    ReadCountIff(s, 1, 3);
  }
}
