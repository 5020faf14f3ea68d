/** The part of Python's `str.lower()` the remote control relies on. */
module Text {

  /** Lower-cases one ASCII capital letter and leaves every other character alone. */
  function LowerChar(c: char): char {
    if 'A' <= c <= 'Z' then (c as int + 32) as char else c
  }

  /** `s.lower()` restricted to ASCII letters. */
  function Lower(s: string): (r: string)
    ensures |r| == |s|
    ensures forall i :: 0 <= i < |r| ==> !('A' <= r[i] <= 'Z')
    ensures (forall i :: 0 <= i < |s| ==> !('A' <= s[i] <= 'Z')) ==> r == s
    ensures forall i :: 0 <= i < |s| ==> r[i] == s[i] || ('A' <= s[i] <= 'Z' && r[i] as int == s[i] as int + 32)
  {
    seq(|s|, i requires 0 <= i < |s| => LowerChar(s[i]))
  }

  /** A name matches a lower-case name `t` under any capitalisation: `s` lower-cases to `t`
    * whenever each of its characters is the one in `t` or, for a small letter, its capital. */
  lemma LowerIsCaseInsensitiveMatch(s: string, t: string)
    requires |s| == |t|
    requires forall i :: 0 <= i < |t| ==> !('A' <= t[i] <= 'Z')
    requires forall i :: 0 <= i < |s| ==> s[i] == t[i] || ('a' <= t[i] <= 'z' && s[i] as int + 32 == t[i] as int)
    ensures Lower(s) == t
  {
  }

  /** Lower-casing twice is lower-casing once. */
  lemma LowerIdempotent(s: string)
    ensures Lower(Lower(s)) == Lower(s)
  {
  }
}
