/** Bytes, C strings and optional values, shared by every other module. */
module Bytes {

  type byte = b: int | 0 <= b < 256

  /** The characters of a C string, without its terminating NUL. */
  type Text = seq<byte>

  datatype Option<+T> = None | Some(value: T)

  type Uint16 = v: int | 0 <= v < 0x1_0000

  type Uint32 = v: int | 0 <= v < 0x1_0000_0000

  const DOT: byte := 46
  const BACKSLASH: byte := 92
  const UNDERSCORE: byte := 95

  /** A C string cannot hold a zero byte. */
  predicate NulFree(s: Text) {
    forall i :: 0 <= i < |s| ==> s[i] != 0
  }

  /** What a C program sees at position i: the terminator once past the end. */
  function At(s: Text, i: nat): byte {
    if i < |s| then s[i] else 0
  }

  predicate IsDigit(b: byte) {
    48 <= b <= 57
  }

  /** tolower() in the C locale. */
  function Lower(b: byte): byte {
    if 65 <= b <= 90 then b + 32 else b
  }

  lemma Regroup<T>(a: seq<T>, b: seq<T>, c: seq<T>)
    ensures (a + b) + c == a + (b + c)
  {
  }

  lemma EmptySides<T>(a: seq<T>)
    ensures a + [] == a && [] + a == a
  {
  }

  lemma HeadAndTail<T>(a: seq<T>, b: seq<T>)
    requires a != []
    ensures [a[0]] + (a[1..] + b) == a + b
  {
  }
}
