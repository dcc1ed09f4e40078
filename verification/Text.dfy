/** The string operations of the standard library that the discovery and trace code rely on, for ASCII. */
module Text {

  function LowerChar(c: char): char {
    if 'A' <= c <= 'Z' then c + ('a' - 'A') else c
  }

  function ToLower(s: string): (t: string)
    ensures |t| == |s|
    ensures forall i | 0 <= i < |s| && 'A' <= s[i] <= 'Z' :: t[i] as int == s[i] as int + 32
    ensures forall i | 0 <= i < |s| && !('A' <= s[i] <= 'Z') :: t[i] == s[i]
    ensures forall i | 0 <= i < |t| :: !('A' <= t[i] <= 'Z')
  {
    seq(|s|, i requires 0 <= i < |s| => LowerChar(s[i]))
  }

  /** Lower-casing leaves the string alone. */
  predicate Lower(s: string) { ToLower(s) == s }

  lemma ToLowerIsLower(s: string)
    ensures Lower(ToLower(s))
  {
  }

  lemma ToLowerAppend(s: string, t: string)
    ensures ToLower(s + t) == ToLower(s) + ToLower(t)
  {
  }

  lemma LowerAppend(s: string, t: string)
    ensures Lower(s + t) <==> Lower(s) && Lower(t)
  {
    ToLowerAppend(s, t);
    assert ToLower(s) + ToLower(t) == s + t ==> ToLower(s) == (s + t)[..|s|] && ToLower(t) == (s + t)[|s|..];
  }
}
