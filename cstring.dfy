/**
 * NUL-terminated character buffers, as the daemon fills them with
 * `strcpy` and `strcat` when it builds the front-end's argument strings.
 * A buffer is an `array<char>`; the C string it holds is everything before
 * its first NUL.
 */
module CString {

  const Nul: char := '\0'

  /** A string that can be stored as a C string: it contains no NUL. */
  predicate IsCString(s: seq<char>) {
    Nul !in s
  }

  /** The C string a buffer holds: the characters before the first NUL. */
  function CStr(s: seq<char>): (r: seq<char>)
    ensures |r| <= |s| && r == s[..|r|]
    ensures IsCString(r)
    ensures |r| < |s| ==> s[|r|] == Nul
  {
    if s == [] || s[0] == Nul then [] else [s[0]] + CStr(s[1..])
  }

  /** Whatever follows the terminating NUL does not belong to the C string. */
  lemma CStrOfTerminated(u: seq<char>, rest: seq<char>)
    requires IsCString(u)
    ensures CStr(u + [Nul] + rest) == u
  {
    var s := u + [Nul] + rest;
    assert s[|u|] == Nul;
  }

  /** `strlen`: the index of the first NUL, which is the C string's length. */
  method StrLen(s: array<char>) returns (n: nat)
    requires Nul in s[..]
    ensures n < s.Length && s[n] == Nul
    ensures CStr(s[..]) == s[..n]
  {
    n := 0;
    while s[n] != Nul
      invariant n < s.Length
      invariant Nul in s[n..]
      invariant IsCString(s[..n])
      decreases s.Length - n
    {
      assert s[n..] == [s[n]] + s[n + 1..];
      assert s[..n + 1] == s[..n] + [s[n]];
      n := n + 1;
    }
    assert s[..] == s[..n] + [Nul] + s[n + 1..];
    CStrOfTerminated(s[..n], s[n + 1..]);
  }

  /** Copies `src` and its terminating NUL into `dst` from index `k` on. */
  method CopyAt(dst: array<char>, k: nat, src: seq<char>)
    requires IsCString(src) && k + |src| < dst.Length
    modifies dst
    ensures dst[..] == old(dst[..])[..k] + src + [Nul] + old(dst[..])[k + |src| + 1..]
  {
    var i := 0;
    while i < |src|
      invariant 0 <= i <= |src|
      invariant forall j :: 0 <= j < dst.Length ==>
        dst[j] == if k <= j < k + i then src[j - k] else old(dst[j])
    {
      dst[k + i] := src[i];
      i := i + 1;
    }
    dst[k + |src|] := Nul;
  }

  /** `strcpy`: afterwards the buffer holds exactly `src`. */
  method StrCpy(dst: array<char>, src: seq<char>)
    requires IsCString(src) && |src| < dst.Length
    modifies dst
    ensures dst[..] == src + [Nul] + old(dst[..])[|src| + 1..]
    ensures CStr(dst[..]) == src
  {
    CopyAt(dst, 0, src);
    CStrOfTerminated(src, old(dst[..])[|src| + 1..]);
  }

  /**
   * `strcat`: afterwards the buffer holds its old C string followed by
   * `src`; the caller must leave room for both and the NUL.
   */
  method StrCat(dst: array<char>, src: seq<char>)
    requires Nul in dst[..] && IsCString(src)
    requires |CStr(dst[..])| + |src| < dst.Length
    modifies dst
    ensures CStr(dst[..]) == old(CStr(dst[..])) + src
    ensures dst[..] == old(CStr(dst[..])) + src + [Nul]
                       + old(dst[..])[|old(CStr(dst[..]))| + |src| + 1..]
  {
    var k := StrLen(dst);
    CopyAt(dst, k, src);
    CStrOfTerminated(old(CStr(dst[..])) + src, old(dst[..])[k + |src| + 1..]);
  }
}
