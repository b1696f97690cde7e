/** The wire format spelled out in ASCII: what each kind of value is written as, and which texts
    are read though never written, or refused. */
module Spelling {
  import opened Wire
  import opened Decimal
  import opened Floats
  import opened Framing
  import opened Resp3
  import opened Codec
  import Tagged

  function Ascii(text: string): bytes {
    seq(|text|, i requires 0 <= i < |text| => if text[i] < 128 as char then text[i] as byte else 0)
  }

  const EOL: bytes := Ascii("\r\n")

  // What is written.

  lemma LinesSpelled(ft: FloatText, text: bytes, n: int64)
    ensures Canonical(ft, SimpleString(text)) == Ascii("+") + text + EOL
    ensures Canonical(ft, ErrorReply(text)) == Ascii("-") + text + EOL
    ensures Canonical(ft, BigNumber(text)) == Ascii("(") + text + EOL
    ensures Canonical(ft, Integer(n))
         == Ascii(":") + (if n < 0 then Ascii("-") + FormatNat(-(n as int)) else FormatNat(n)) + EOL
    ensures Canonical(ft, Boolean(true)) == Ascii("#t\r\n")
    ensures Canonical(ft, Boolean(false)) == Ascii("#f\r\n")
    ensures Canonical(ft, Null) == Ascii("_\r\n")
  {
  }

  lemma DoublesSpelled(ft: FloatText, bits: FiniteBits)
    ensures Canonical(ft, Double(PosInf)) == Ascii(",inf\r\n")
    ensures Canonical(ft, Double(NegInf)) == Ascii(",-inf\r\n")
    ensures Canonical(ft, Double(NaN)) == Ascii(",nan\r\n")
    ensures Canonical(ft, Double(Finite(bits))) == Ascii(",") + ft.format(bits) + EOL
  {
  }

  lemma BlobsSpelled(ft: FloatText, s: bytes, format: bytes)
    ensures Canonical(ft, BulkString(s)) == Ascii("$") + FormatNat(|s|) + EOL + s + EOL
    ensures Canonical(ft, BlobError(s)) == Ascii("!") + FormatNat(|s|) + EOL + s + EOL
    ensures var payload := format + Ascii(":") + s;
            Canonical(ft, VerbatimString(format, s)) == Ascii("=") + FormatNat(|payload|) + EOL + payload + EOL
  {
    hide FormatNat;
    assert EOL == CRLF && Ascii(":") == [COLON];
    assert Ascii("$") == [DOLLAR] && Ascii("!") == [BANG] && Ascii("=") == [EQUALS];
  }

  /** What each value is written as. */
  function Texts(ft: FloatText, vs: seq<Type>): seq<bytes> {
    seq(|vs|, i requires 0 <= i < |vs| => Canonical(ft, vs[i]))
  }

  /** All keys and values, each key before its value. */
  function Sides(pairs: seq<KeyValue>): seq<Type> {
    seq(2 * |pairs|, i requires 0 <= i < 2 * |pairs| => if i % 2 == 0 then pairs[i / 2].key else pairs[i / 2].value)
  }

  lemma {:induction false} ItemsConcat(ft: FloatText, items: seq<Type>)
    ensures CanonicalItems(ft, items) == Concat(Texts(ft, items))
  {
    hide Canonical;
    if items == [] {
    } else {
      ItemsConcat(ft, items[1..]);
      assert Texts(ft, items)[1..] == Texts(ft, items[1..]);
    }
  }

  lemma {:induction false} PairsConcat(ft: FloatText, pairs: seq<KeyValue>)
    ensures CanonicalPairs(ft, pairs) == Concat(Texts(ft, Sides(pairs)))
  {
    hide Canonical;
    if pairs == [] {
    } else {
      PairsConcat(ft, pairs[1..]);
      var texts := Texts(ft, Sides(pairs));
      assert texts[1..][1..] == Texts(ft, Sides(pairs[1..]));
      assert Concat(texts) == texts[0] + (texts[1] + Concat(texts[1..][1..]));
    }
  }

  lemma AggregatesSpelled(ft: FloatText, items: seq<Type>)
    ensures var rest := FormatNat(|items|) + EOL + Concat(Texts(ft, items));
            && Canonical(ft, Array(items)) == Ascii("*") + rest
            && Canonical(ft, Set(items)) == Ascii("~") + rest
            && Canonical(ft, Push(items)) == Ascii(">") + rest
  {
    hide CanonicalItems, Concat, FormatNat;
    ItemsConcat(ft, items);
  }

  lemma PairsSpelled(ft: FloatText, pairs: seq<KeyValue>, inner: Type)
    ensures var rest := FormatNat(|pairs|) + EOL + Concat(Texts(ft, Sides(pairs)));
            && Canonical(ft, Map(pairs)) == Ascii("%") + rest
            && Canonical(ft, Attribute(pairs, None)) == Ascii("|") + rest
            && Canonical(ft, Attribute(pairs, Some(inner))) == Ascii("|") + rest + Canonical(ft, inner)
  {
    hide CanonicalPairs, Concat, FormatNat;
    PairsConcat(ft, pairs);
  }

  // Tagged records are spelled in the same way, each by its kind, even those that no sealed value
  // corresponds to: one of an unknown kind is counted by what holds it and adds no text.

  function TaggedTexts(ft: FloatText, vs: seq<Tagged.Value>): seq<bytes> {
    seq(|vs|, i requires 0 <= i < |vs| => Tagged.Written(ft, vs[i]))
  }

  function TaggedSides(pairs: seq<Tagged.Pair>): seq<Tagged.Value> {
    seq(2 * |pairs|, i requires 0 <= i < 2 * |pairs| => if i % 2 == 0 then pairs[i / 2].key else pairs[i / 2].value)
  }

  lemma {:induction false} TaggedItemsConcat(ft: FloatText, items: seq<Tagged.Value>)
    ensures Tagged.WrittenItems(ft, items) == Concat(TaggedTexts(ft, items))
  {
    hide Tagged.Written;
    if items == [] {
    } else {
      TaggedItemsConcat(ft, items[1..]);
      assert TaggedTexts(ft, items)[1..] == TaggedTexts(ft, items[1..]);
    }
  }

  lemma {:induction false} TaggedPairsConcat(ft: FloatText, pairs: seq<Tagged.Pair>)
    ensures Tagged.WrittenPairs(ft, pairs) == Concat(TaggedTexts(ft, TaggedSides(pairs)))
  {
    hide Tagged.Written;
    if pairs == [] {
    } else {
      TaggedPairsConcat(ft, pairs[1..]);
      var texts := TaggedTexts(ft, TaggedSides(pairs));
      assert texts[1..][1..] == TaggedTexts(ft, TaggedSides(pairs[1..]));
      assert Concat(texts) == texts[0] + (texts[1] + Concat(texts[1..][1..]));
    }
  }

  lemma TaggedItemsSpelled(ft: FloatText, v: Tagged.Value)
    ensures v.kind.KindOther? ==> Tagged.Written(ft, v) == []
    ensures var rest := FormatNat(|v.items|) + EOL + Concat(TaggedTexts(ft, v.items));
            && (v.kind.KindArray? ==> Tagged.Written(ft, v) == Ascii("*") + rest)
            && (v.kind.KindSet? ==> Tagged.Written(ft, v) == Ascii("~") + rest)
            && (v.kind.KindPush? ==> Tagged.Written(ft, v) == Ascii(">") + rest)
  {
    hide Tagged.WrittenItems, Tagged.WrittenPairs, Concat, TaggedTexts, FormatNat;
    TaggedItemsConcat(ft, v.items);
    assert EOL == CRLF;
    assert Ascii("*") == [STAR] && Ascii("~") == [TILDE] && Ascii(">") == [GREATER];
  }

  lemma TaggedPairsSpelled(ft: FloatText, v: Tagged.Value)
    ensures var rest := FormatNat(|v.pairs|) + EOL + Concat(TaggedTexts(ft, TaggedSides(v.pairs)));
            && (v.kind.KindMap? ==> Tagged.Written(ft, v) == Ascii("%") + rest)
            && (v.kind.KindAttribute? ==>
                  Tagged.Written(ft, v)
                  == Ascii("|") + rest + if v.inner.None? then [] else Tagged.Written(ft, v.inner.value))
  {
    hide Tagged.WrittenItems, Tagged.WrittenPairs, Concat, TaggedTexts, TaggedSides, FormatNat;
    TaggedPairsConcat(ft, v.pairs);
    assert EOL == CRLF;
    assert Ascii("%") == [PERCENT] && Ascii("|") == [BAR];
  }

  // What is read though never written, and what is refused.

  /** A value on one line is incomplete exactly until its newline comes. */
  lemma LinesRead(ft: FloatText, marker: byte, s: bytes)
    requires marker in Ascii("+-:(,#_")
    ensures Decode(ft, [marker] + s).Incomplete? <==> LF !in s
  {
    hide ReadLine;
    assert ([marker] + s)[1..] == s;
    IncompleteLineIff(s);
  }

  /** A boolean is "t" or "f", an integer is any text of one, and the line of a null may hold
      anything; whatever else ends in a newline is malformed. */
  lemma LineAnswers(ft: FloatText, text: bytes)
    requires LF !in text
    ensures var r := Decode(ft, Ascii("#") + text + EOL);
            if text == Ascii("t") then r == Ok(Boolean(true), 4)
            else if text == Ascii("f") then r == Ok(Boolean(false), 4)
            else r.Malformed?
    ensures var r := Decode(ft, Ascii(":") + text + EOL);
            || (exists n: int64 :: IsText(text, n) && r == Ok(Integer(n), |text| + 3))
            || ((forall n: int64 :: !IsText(text, n)) && r.Malformed?)
    ensures Decode(ft, Ascii("_") + text + EOL) == Ok(Null, |text| + 3)
  {
    hide ReadLine, ParseInt, IsText;
    LineRead(HASH, text);
    LineRead(COLON_MARK, text);
    LineRead(UNDERSCORE, text);
    assert Ascii("t") == TRUE_TEXT && Ascii("f") == FALSE_TEXT;
    assert Ascii("#") == [HASH] && Ascii(":") == [COLON_MARK] && Ascii("_") == [UNDERSCORE];
    forall n: int64 ensures ParseInt(text) == Some(n) <==> IsText(text, n) {
      ParseIntIff(text, n);
    }
  }

  lemma LineRead(marker: byte, text: bytes)
    requires LF !in text
    ensures var s := [marker] + text + EOL;
            s[0] == marker && ReadLine(s[1..]) == Ok(text, |text| + 2)
  {
    var s := [marker] + text + EOL;
    WrittenLine(text);
    assert s[1..] == text + CRLF;
    assert s[1..][..|text| + 2] == text + CRLF;
    ReadLineIff(s[1..], |text| + 2);
  }

  /** A verbatim string whose payload has no colon is malformed. */
  lemma VerbatimNeedsColon(ft: FloatText, payload: bytes, rest: bytes)
    requires COLON !in payload && FitsInt(|payload|)
    ensures Decode(ft, Ascii("=") + FormatNat(|payload|) + EOL + payload + EOL + rest).Malformed?
  {
    hide ReadBlob, IsBlob, FormatNat;
    var blob := FormatInt(|payload|) + CRLF + payload + CRLF;
    var s := Ascii("=") + FormatNat(|payload|) + EOL + payload + EOL + rest;
    WrittenBlob(payload);
    assert s[1..] == blob + rest;
    assert s[1..][..|blob|] == blob;
    ReadBlobComplete(s[1..], payload, |blob|);
  }

  /** No input is incomplete, and nothing starts with anything but the fifteen markers. */
  lemma MarkersOnly(ft: FloatText, s: bytes)
    ensures s == [] ==> Decode(ft, s).Incomplete?
    ensures s != [] && s[0] !in Ascii("+-:(,#_$!=*~>%|") ==> Decode(ft, s).Malformed?
  {
    var markers := Ascii("+-:(,#_$!=*~>%|");
    assert markers[0] == PLUS && markers[1] == MINUS && markers[2] == COLON_MARK && markers[3] == PAREN;
    assert markers[4] == COMMA && markers[5] == HASH && markers[6] == UNDERSCORE && markers[7] == DOLLAR;
    assert markers[8] == BANG && markers[9] == EQUALS && markers[10] == STAR && markers[11] == TILDE;
    assert markers[12] == GREATER && markers[13] == PERCENT && markers[14] == BAR;
  }
}
