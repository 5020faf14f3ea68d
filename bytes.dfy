/**
 * Byte strings as the remote control handles them: Python `bytes` values and the
 * three operations the protocol code applies to them (`startswith`, `endswith`
 * and the substring test `pat in s`), plus the concatenation of received chunks.
 */
module Bytes {

  /** One octet on the wire. */
  type byte = b: int | 0 <= b < 256

  /** `s.startswith(prefix)` */
  predicate StartsWith(s: seq<byte>, prefix: seq<byte>) {
    |prefix| <= |s| && s[..|prefix|] == prefix
  }

  /** `s.endswith(suffix)` */
  predicate EndsWith(s: seq<byte>, suffix: seq<byte>) {
    |suffix| <= |s| && s[|s| - |suffix|..] == suffix
  }

  /** `pat` occurs in `s` starting at offset `k`. */
  predicate OccursAt(s: seq<byte>, pat: seq<byte>, k: nat) {
    k + |pat| <= |s| && s[k..k + |pat|] == pat
  }

  /** `pat in s`: `pat` is a contiguous part of `s`. */
  predicate Contains(s: seq<byte>, pat: seq<byte>) {
    exists k: nat | k <= |s| :: OccursAt(s, pat, k)
  }

  /** The chunks laid end to end, as `buffer += chunk` accumulates them. */
  function Concat(chunks: seq<seq<byte>>): seq<byte>
  {
    if chunks == [] then [] else Concat(chunks[..|chunks| - 1]) + chunks[|chunks| - 1]
  }

  /** Appending one more chunk appends its bytes: `buffer += chunk`. */
  lemma ConcatAppend(chunks: seq<seq<byte>>, c: seq<byte>)
    ensures Concat(chunks + [c]) == Concat(chunks) + c
  {
    assert (chunks + [c])[..|chunks|] == chunks;
  }

  /** Anything found in a byte string is still found once more bytes are appended. */
  lemma ContainsInPrefix(s: seq<byte>, t: seq<byte>, pat: seq<byte>)
    requires s <= t && Contains(s, pat)
    ensures Contains(t, pat)
  {
    var k: nat :| k <= |s| && OccursAt(s, pat, k);
    assert t[k..k + |pat|] == s[k..k + |pat|];
    assert OccursAt(t, pat, k);
  }

  /** The concatenation of the first `n` chunks is a prefix of that of the first `m >= n`. */
  lemma {:induction false} ConcatPrefix(chunks: seq<seq<byte>>, n: nat, m: nat)
    requires n <= m <= |chunks|
    ensures Concat(chunks[..n]) <= Concat(chunks[..m])
    decreases m - n
  {
    if n < m {
      ConcatPrefix(chunks, n, m - 1);
      assert chunks[..m][..m - 1] == chunks[..m - 1];
    }
  }
}
