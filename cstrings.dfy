/** C strings as the client sees them.

    A `char*` argument such as the URL is modelled by the sequence of the
    characters in front of its NUL terminator, so a well-formed one holds no
    NUL. A freshly filled `char` buffer is modelled by all of its cells,
    terminator included, and is read back the way every C routine reads it:
    up to the first NUL.
 */
module CStrings {

  datatype Option<+T> = None | Some(value: T)

  /** The characters of a NUL-terminated string, without the terminator. */
  predicate IsCString(s: string) {
    '\0' !in s
  }

  /** `strchr(p, c)` for a pointer `p` at index `from` of the string `s`:
      the index of the first `c` at or after `from`, or `None` (NULL) when
      the scan reaches the terminator first. The terminator itself sits at
      index `|s|`, so `from == |s|` is a valid (empty) start and anything
      past it is not. Only a visible character `c` is searched for; the
      client never searches for NUL. */
  function Strchr(s: string, from: nat, c: char): (r: Option<nat>)
    requires from <= |s|
    requires c != '\0'
    ensures r.Some? ==> from <= r.value < |s| && s[r.value] == c
    ensures r.Some? ==> forall j :: from <= j < r.value ==> s[j] != c
    ensures r.None? ==> forall j :: from <= j < |s| ==> s[j] != c
    decreases |s| - from
  {
    if from == |s| then None
    else if s[from] == c then Some(from)
    else Strchr(s, from + 1, c)
  }

  /** The converse of Strchr's contract: any first occurrence at or after
      `from` is the one Strchr finds. */
  lemma StrchrFindsFirst(s: string, from: nat, c: char, k: nat)
    requires c != '\0'
    requires from <= k < |s| && s[k] == c
    requires forall j :: from <= j < k ==> s[j] != c
    ensures Strchr(s, from, c) == Some(k)
  {
  }

  /** The string a C routine reads out of the buffer `buf`: its cells up to
      (not including) the first NUL. A buffer without a NUL reads as all of
      its cells (C would read on past its end). */
  function CStringAt(buf: seq<char>): (r: string)
    ensures |r| <= |buf| && r == buf[..|r|]
    ensures IsCString(r)
    ensures |r| < |buf| ==> buf[|r|] == '\0'
  {
    if |buf| == 0 then []
    else if buf[0] == '\0' then []
    else [buf[0]] + CStringAt(buf[1..])
  }

  /** Terminating a C string with NUL and reading it back gives the string. */
  lemma {:induction false} TerminatedReadsBack(s: string)
    requires IsCString(s)
    ensures CStringAt(s + ['\0']) == s
  {
    if s != [] {
      assert (s + ['\0'])[1..] == s[1..] + ['\0'];
      TerminatedReadsBack(s[1..]);
    }
  }
}
