/** Characters as the UART driver delivers them, and C strings over them. */
module Chars {

  /** One `unsigned char` read from or written to a UART. */
  newtype byte = x: int | 0 <= x < 256

  const NUL: byte := 0
  const LF: byte := 10
  const CR: byte := 13

  /** Size of every message buffer (`MSG_SIZE`). */
  const MsgSize: nat := 32

  /** The result of one non-blocking poll: a character, or nothing available. */
  datatype Option<+T> = None | Some(value: T)

  /** `'\n'` and `'\r'` both end a line. */
  predicate IsTerminator(c: byte) {
    c == LF || c == CR
  }

  predicate NoTerminator(s: seq<byte>) {
    forall i :: 0 <= i < |s| ==> !IsTerminator(s[i])
  }

  /** The C string stored in `s`: the bytes before its first NUL (all of `s` if it holds none). */
  function CString(s: seq<byte>): (r: seq<byte>)
    ensures |r| <= |s| && r == s[..|r|]
    ensures NUL !in r
    ensures |r| < |s| ==> s[|r|] == NUL
  {
    if s == [] || s[0] == NUL then [] else [s[0]] + CString(s[1..])
  }

  /** A NUL at index `k` with none before it ends the C string there. */
  lemma CStringAt(s: seq<byte>, k: nat)
    requires k < |s| && s[k] == NUL && NUL !in s[..k]
    ensures CString(s) == s[..k]
  {
  }

  /** A C string ends at the first NUL, so nothing after it matters. */
  lemma {:induction false} CStringTruncates(a: seq<byte>, b: seq<byte>)
    ensures CString(a + [NUL] + b) == CString(a)
  {
    if a != [] {
      assert (a + [NUL] + b)[1..] == a[1..] + [NUL] + b;
      CStringTruncates(a[1..], b);
    }
  }

  /** The C string of a buffer free of CR and LF is free of them too. */
  lemma CStringNoTerminator(s: seq<byte>)
    requires NoTerminator(s)
    ensures NoTerminator(CString(s))
  {
  }

  /** A buffer without a NUL is its own C string. */
  lemma CStringWhole(s: seq<byte>)
    requires NUL !in s
    ensures CString(s) == s
  {
  }
}
