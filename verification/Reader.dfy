/** The cursor both parsers move over their input. The two packages carry the same code for
    lines, counts and payloads; it is modelled once. */
module ByteReader {
  import opened Wire
  import opened Decimal
  import Framing

  datatype ParseError = ErrIncomplete | ErrMalformed

  /** A value, or an error in place of one. */
  datatype Result<+T> = Returned(value: T) | Failed(error: ParseError)

  /** The method that returned `r` after moving the position by `moved` did what `spec` says. */
  ghost predicate Agrees<T>(r: Result<T>, spec: Outcome<T>, moved: int) {
    match spec
    case Ok(value, used) => r == Returned(value) && moved == used
    case Incomplete => r == Failed(ErrIncomplete)
    case Malformed => r == Failed(ErrMalformed)
  }

  /** What a loop that already holds `done`, read from `used` bytes, returns when the rest of
      its input reads as `o`. */
  ghost function Then<T>(done: seq<T>, used: nat, o: Outcome<seq<T>>): Outcome<seq<T>> {
    match o
    case Ok(more, k) => Ok(done + more, used + k)
    case _ => o
  }

  /** The outcomes of the loop's three places: before it, after one turn, and at its end. */
  lemma ThenNothing<T>(o: Outcome<seq<T>>)
    ensures Then([], 0, o) == o
  {
    assert o.Ok? ==> [] + o.value == o.value;
  }

  lemma ThenOne<T>(done: seq<T>, used: nat, x: T, k: nat, o: Outcome<seq<T>>)
    ensures Then(done, used, Then([x], k, o)) == Then(done + [x], used + k, o)
  {
    assert o.Ok? ==> done + ([x] + o.value) == done + [x] + o.value;
  }

  class Reader {
    const data: bytes
    var pos: nat

    constructor (data: bytes)
      ensures this.data == data && pos == 0 && Valid()
    {
      this.data := data;
      pos := 0;
    }

    ghost predicate Valid()
      reads this
    {
      pos <= |data|
    }

    ghost function Rest(): bytes
      requires Valid()
      reads this
    {
      data[pos..]
    }

    method ReadLine() returns (r: Result<bytes>)
      requires Valid()
      modifies this`pos
      ensures Valid() && Agrees(r, Framing.ReadLine(old(Rest())), pos - old(pos))
    {
      var start := pos;
      var idx := IndexByte(data[start..], LF);
      if idx < 0 {
        return Failed(ErrIncomplete);
      }
      var end := start + idx;
      var line := data[start..end];
      assert line == data[start..][..idx];
      if |line| > 0 && line[|line| - 1] == CR {
        line := line[..|line| - 1];
      }
      pos := end + 1;
      return Returned(line);
    }

    method ReadCount() returns (r: Result<nat>)
      requires Valid()
      modifies this`pos
      ensures Valid() && Agrees(r, Framing.ReadCount(old(Rest())), pos - old(pos))
    {
      var line := ReadLine();
      if line.Failed? {
        return Failed(line.error);
      }
      var n := ParseInt(line.value);
      if n.None? {
        return Failed(ErrMalformed);
      }
      if n.value < 0 {
        return Failed(ErrMalformed);
      }
      return Returned(n.value);
    }

    method ReadBytes(n: nat) returns (r: Result<bytes>)
      requires Valid()
      modifies this`pos
      ensures Valid() && Agrees(r, Framing.ReadBytes(old(Rest()), n), pos - old(pos))
    {
      if pos + n > |data| {
        return Failed(ErrIncomplete);
      }
      var b := data[pos..pos + n];
      assert b == Rest()[..n];
      pos := pos + n;
      var err := ConsumeCRLF();
      if err.Failed? {
        return Failed(err.error);
      }
      return Returned(b);
    }

    /** Anything but CR LF is reported as incomplete data. */
    method ConsumeCRLF() returns (r: Result<()>)
      requires Valid()
      modifies this`pos
      ensures Valid()
      ensures if CRLF <= old(Rest()) then r == Returned(()) && pos == old(pos) + 2
              else r == Failed(ErrIncomplete) && pos == old(pos)
    {
      if pos + 2 > |data| || data[pos] != CR || data[pos + 1] != LF {
        return Failed(ErrIncomplete);
      }
      assert data[pos..][..2] == CRLF;
      pos := pos + 2;
      return Returned(());
    }
  }
}
