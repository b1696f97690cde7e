/** Bytes, and the three-way result of reading a value off the front of a byte string. */
module Wire {

  newtype byte = b: int | 0 <= b < 256
  type bytes = seq<byte>

  const LF: byte := 10
  const CR: byte := 13
  const COLON: byte := 58
  const CRLF: bytes := [CR, LF]

  datatype Option<+T> = None | Some(value: T)

  /** What reading from a byte string gives: a value and how many bytes it took, or one of
      the two ways to fail. The value that accompanies an error in Go carries no meaning and
      is not represented. */
  datatype Outcome<+T> = Ok(value: T, used: nat) | Incomplete | Malformed {

    predicate IsFailure() {
      !Ok?
    }

    function PropagateFailure<U>(): Outcome<U>
      requires IsFailure()
    {
      if Incomplete? then Incomplete else Malformed
    }

    function Extract(): (T, nat)
      requires Ok?
    {
      (value, used)
    }
  }

  /** The index of the first occurrence of `c`, or -1: bytes.IndexByte. */
  function IndexByte(s: bytes, c: byte): (i: int)
    ensures -1 <= i < |s|
    ensures i >= 0 ==> s[i] == c && c !in s[..i]
    ensures i < 0 ==> c !in s
  {
    if s == [] then -1
    else if s[0] == c then 0
    else
      var j := IndexByte(s[1..], c);
      if j < 0 then -1
      else
        assert s[..j + 1] == [s[0]] + s[1..][..j];
        j + 1
  }

  /** The first occurrence is the only one with none before it. */
  lemma {:induction false} IndexByteAt(s: bytes, c: byte, i: nat)
    requires i < |s| && s[i] == c && c !in s[..i]
    ensures IndexByte(s, c) == i
  {
    if i == 0 {
    } else {
      assert s[0] in s[..i];
      assert forall x :: x in s[1..][..i - 1] ==> x in s[..i];
      IndexByteAt(s[1..], c, i - 1);
    }
  }
}
