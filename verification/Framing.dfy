/** The lexical layer shared by both RESP3 parsers: lines, counts and length-prefixed payloads.
    Each reader is a function of the bytes that remain at the parser's position. */
module Framing {
  import opened Wire
  import opened Decimal

  /** Drops one trailing carriage return. */
  function StripCR(line: bytes): bytes {
    if line != [] && line[|line| - 1] == CR then line[..|line| - 1] else line
  }

  function ReadLine(s: bytes): (r: Outcome<bytes>)
    ensures r.Ok? ==> 1 <= r.used <= |s|
  {
    var i := IndexByte(s, LF);
    if i < 0 then Incomplete else Ok(StripCR(s[..i]), i + 1)
  }

  /** A count line: a non-negative integer that fits the machine's int. */
  function ReadCount(s: bytes): (r: Outcome<nat>)
    ensures r.Ok? ==> 1 <= r.used <= |s|
  {
    var (line, used) :- ReadLine(s);
    var n := ParseInt(line);
    if n.None? || n.value < 0 then Malformed else Ok(n.value, used)
  }

  /** Exactly `n` bytes and a CR LF. A wrong terminator is reported as incomplete data. */
  function ReadBytes(s: bytes, n: nat): (r: Outcome<bytes>)
    ensures r.Ok? ==> 2 <= r.used <= |s|
  {
    if n > |s| then Incomplete
    else if n + 2 > |s| || s[n] != CR || s[n + 1] != LF then Incomplete
    else Ok(s[..n], n + 2)
  }

  function ReadBlob(s: bytes): (r: Outcome<bytes>)
    ensures r.Ok? ==> 3 <= r.used <= |s|
  {
    var (n, header) :- ReadCount(s);
    var (payload, used) :- ReadBytes(s[header..], n);
    Ok(payload, header + used)
  }

  /** strings.Cut around the first colon. */
  function Cut(payload: bytes): Option<(bytes, bytes)> {
    var i := IndexByte(payload, COLON);
    if i < 0 then None else Some((payload[..i], payload[i + 1..]))
  }

  // What these readers accept, said without them.

  /** `b` is one line with its end: its only newline is its last byte. */
  predicate IsLine(b: bytes) {
    b != [] && b[|b| - 1] == LF && LF !in b[..|b| - 1]
  }

  function LineText(b: bytes): bytes
    requires IsLine(b)
  {
    StripCR(b[..|b| - 1])
  }

  predicate IsCount(b: bytes, n: nat) {
    IsLine(b) && ParseInt(LineText(b)) == Some(n)
  }

  predicate IsBlob(b: bytes, payload: bytes) {
    |payload| + 2 <= |b| &&
    var header := |b| - |payload| - 2;
    b[header..] == payload + CRLF && IsCount(b[..header], |payload|)
  }

  lemma ReadLineIff(s: bytes, k: nat)
    ensures k <= |s| && IsLine(s[..k]) ==> ReadLine(s) == Ok(LineText(s[..k]), k)
    ensures ReadLine(s).Ok? && ReadLine(s).used == k ==>
              IsLine(s[..k]) && ReadLine(s).value == LineText(s[..k])
  {
    if k <= |s| && IsLine(s[..k]) {
      assert s[..k][..k - 1] == s[..k - 1];
      IndexByteAt(s, LF, k - 1);
    }
    var i := IndexByte(s, LF);
    if i >= 0 {
      assert s[..i + 1][..i] == s[..i];
    }
  }

  /** A line's text is what stands before its newline, less one carriage return just before it. */
  lemma LineTextIff(b: bytes, text: bytes)
    ensures IsLine(b) && LineText(b) == text
            <==> LF !in text
                 && (|| b == text + [CR, LF]
                     || (b == text + [LF] && (text == [] || text[|text| - 1] != CR)))
  {
    if IsLine(b) && LineText(b) == text {
      var line := b[..|b| - 1];
      assert b == line + [LF];
      assert line == text + [CR] ==> b == text + [CR, LF];
      assert line == text || line == text + [CR];
    }
    if LF !in text && b == text + [CR, LF] {
      assert b[..|b| - 1] == text + [CR];
    }
    if LF !in text && b == text + [LF] {
      assert b[..|b| - 1] == text;
    }
  }

  /** A line is incomplete exactly while its newline has not come, and nothing else is wrong with
      a line; a count line that has ended is either a count or malformed. */
  lemma IncompleteLineIff(s: bytes)
    ensures ReadLine(s).Incomplete? <==> LF !in s
    ensures !ReadLine(s).Malformed?
    ensures ReadCount(s).Incomplete? <==> LF !in s
  {
  }

  lemma ReadCountIff(s: bytes, n: nat, k: nat)
    ensures ReadCount(s) == Ok(n, k) <==> k <= |s| && IsCount(s[..k], n)
  {
    ReadLineIff(s, k);
  }

  lemma ReadBytesIff(s: bytes, payload: bytes)
    ensures ReadBytes(s, |payload|).Ok? && ReadBytes(s, |payload|).value == payload
            <==> payload + CRLF <= s
  {
    var n := |payload|;
    if payload + CRLF <= s {
      assert s[..n] == (payload + CRLF)[..n] == payload;
      assert s[n] == (payload + CRLF)[n] && s[n + 1] == (payload + CRLF)[n + 1];
    }
  }

  lemma ReadBlobSound(s: bytes, payload: bytes, k: nat)
    requires ReadBlob(s) == Ok(payload, k)
    ensures k <= |s| && IsBlob(s[..k], payload)
  {
    hide ReadCount, IsCount;
    var header := ReadCount(s).used;
    ReadCountIff(s, |payload|, header);
    ReadBytesIff(s[header..], payload);
    assert s[..k][..header] == s[..header];
    assert s[..k][header..] == s[header..][..|payload| + 2];
  }

  lemma ReadBlobComplete(s: bytes, payload: bytes, k: nat)
    requires k <= |s| && IsBlob(s[..k], payload)
    ensures ReadBlob(s) == Ok(payload, k)
  {
    hide ReadCount, IsCount;
    var header := k - |payload| - 2;
    assert s[..k][..header] == s[..header];
    ReadCountIff(s, |payload|, header);
    assert s[header..][..|payload| + 2] == s[..k][header..] == payload + CRLF;
    ReadBytesIff(s[header..], payload);
  }

  // More input never changes an answer that is already definite.

  lemma ReadLineExtends(s: bytes, t: bytes)
    requires !ReadLine(s).Incomplete?
    ensures ReadLine(s + t) == ReadLine(s)
  {
    var k := ReadLine(s).used;
    assert (s + t)[..k] == s[..k];
    ReadLineIff(s, k);
    ReadLineIff(s + t, k);
  }

  lemma ReadCountExtends(s: bytes, t: bytes)
    requires !ReadCount(s).Incomplete?
    ensures ReadCount(s + t) == ReadCount(s)
  {
    ReadLineExtends(s, t);
  }

  lemma ReadBlobExtends(s: bytes, t: bytes)
    requires !ReadBlob(s).Incomplete?
    ensures ReadBlob(s + t) == ReadBlob(s)
  {
    hide ReadCount;
    ReadCountExtends(s, t);
    if ReadCount(s).Ok? {
      var header := ReadCount(s).used;
      var n := ReadCount(s).value;
      assert (s + t)[header..] == s[header..] + t;
      assert (s[header..] + t)[..n] == s[header..][..n];
    }
  }

  // A wrong terminator is reported as incomplete data, and no further data can mend it.

  /** The bytes already present after the payload rule out CR LF. */
  predicate WrongTerminator(s: bytes, n: nat) {
    n < |s| && !(s[n..] <= CRLF) && !(CRLF <= s[n..])
  }

  /** Bytes that finish a payload of `n` whose terminator is not already wrong. */
  function Missing(s: bytes, n: nat): bytes
    requires !WrongTerminator(s, n)
  {
    if |s| <= n then seq(n - |s|, _ => 0) + CRLF else if |s| == n + 1 then [LF] else []
  }

  lemma ReadBytesStuckIff(s: bytes, n: nat, t: bytes)
    ensures WrongTerminator(s, n) ==> ReadBytes(s + t, n).Incomplete?
    ensures !WrongTerminator(s, n) ==> ReadBytes(s + Missing(s, n), n).Ok?
  {
    if n < |s| {
      assert s[n] == s[n..][0];
      assert s[n..] == [s[n]] + s[n + 1..];
      if n + 1 < |s| {
        assert s[n..] == [s[n], s[n + 1]] + s[n + 2..];
      }
    }
  }

  // What the serializers write is accepted.

  lemma WrittenLine(text: bytes)
    requires LF !in text
    ensures IsLine(text + CRLF) && LineText(text + CRLF) == text
  {
    assert (text + CRLF)[..|text| + 1] == text + [CR];
    assert (text + [CR])[..|text|] == text;
  }

  lemma WrittenCount(n: nat)
    ensures IsLine(FormatInt(n) + CRLF)
    ensures IsCount(FormatInt(n) + CRLF, n) <==> n <= MAX_INT64
  {
    FormatIntParses(n);
    WrittenLine(FormatInt(n));
  }

  lemma WrittenBlob(payload: bytes)
    requires |payload| <= MAX_INT64
    ensures IsBlob(FormatInt(|payload|) + CRLF + payload + CRLF, payload)
  {
    WrittenCount(|payload|);
    var count := FormatInt(|payload|) + CRLF;
    var b := count + payload + CRLF;
    assert b == count + (payload + CRLF);
    assert b[..|count|] == count;
    assert b[|count|..] == payload + CRLF;
  }

  lemma CutIff(payload: bytes, format: bytes, text: bytes)
    ensures Cut(payload) == Some((format, text)) <==> payload == format + [COLON] + text && COLON !in format
  {
    var i := IndexByte(payload, COLON);
    if payload == format + [COLON] + text && COLON !in format {
      assert payload[..|format|] == format && payload[|format| + 1..] == text;
      IndexByteAt(payload, COLON, |format|);
    }
    if i >= 0 {
      assert payload == payload[..i] + [COLON] + payload[i + 1..];
    }
  }
}
