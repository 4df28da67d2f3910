/**
  NUL-terminated character buffers as the C library sees them: a fixed-size
  array whose string is everything before the first NUL, and `strcat`, which
  is only defined while the appended text and its terminator stay inside the
  array.
 */
module CStrings {
  import opened Maybe

  const NUL: char := '\0'

  /** A text that can be stored as a C string: it holds no NUL. */
  predicate NoNul(s: string)
  {
    forall i :: 0 <= i < |s| ==> s[i] != NUL
  }

  /** The C string stored at the start of `buf`: its characters before the first NUL. */
  function CString(buf: seq<char>): (r: string)
    ensures NoNul(r)
    ensures r <= buf
    ensures |r| < |buf| ==> buf[|r|] == NUL
  {
    if |buf| == 0 || buf[0] == NUL then [] else [buf[0]] + CString(buf[1..])
  }

  /** A C string followed by a NUL reads back as itself, whatever lies after the NUL. */
  lemma {:induction false} CStringOfTerminated(s: string, rest: seq<char>)
    requires NoNul(s)
    requires 0 < |rest| && rest[0] == NUL
    ensures CString(s + rest) == s
  {
    if |s| == 0 {
      assert s + rest == rest;
    } else {
      assert (s + rest)[0] == s[0];
      assert (s + rest)[1..] == s[1..] + rest;
      CStringOfTerminated(s[1..], rest);
    }
  }

  /** A `char[size]` array initialised from the literal `lit`: the rest of the array is NUL. */
  function Initialized(lit: string, size: nat): (buf: seq<char>)
    requires NoNul(lit) && |lit| < size
    ensures |buf| == size
    ensures CString(buf) == lit
  {
    var tail := seq(size - |lit|, _ => NUL);
    CStringOfTerminated(lit, tail);
    lit + tail
  }

  /**
    `strcat(dst, src)`: copies `src` and a terminating NUL over the NUL that ends
    the string in `dst`. When that write would run past the end of the array the
    C behaviour is undefined, and the result is None.
   */
  function StrCat(dst: seq<char>, src: string): (r: Option<seq<char>>)
    requires NoNul(src)
    ensures r.Some? <==> |CString(dst)| + |src| < |dst|
    ensures r.Some? ==> |r.value| == |dst| && CString(r.value) == CString(dst) + src
    ensures r.Some? ==> r.value[|CString(dst)| + |src| + 1..] == dst[|CString(dst)| + |src| + 1..]
  {
    var n := |CString(dst)|;
    if n + |src| < |dst| then
      var head := dst[..n];
      var rest := [NUL] + dst[n + |src| + 1..];
      assert head == CString(dst);
      assert NoNul(head + src);
      CStringOfTerminated(head + src, rest);
      assert head + src + [NUL] + dst[n + |src| + 1..] == (head + src) + rest;
      Some(head + src + [NUL] + dst[n + |src| + 1..])
    else
      None
  }
}
