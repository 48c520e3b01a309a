/** Regrouping concatenations. */
module Sequences {
  lemma Assoc<T>(a: seq<T>, b: seq<T>, c: seq<T>)
    ensures a + (b + c) == (a + b) + c
  {
  }

  lemma HeadMoves<T>(kept: seq<T>, rest: seq<T>)
    requires rest != []
    ensures kept + rest == (kept + [rest[0]]) + rest[1..]
  {
  }

  lemma OneMore<T>(s: seq<T>, i: nat)
    requires i < |s|
    ensures s[..i + 1] == s[..i] + [s[i]] && s[i..][1..] == s[i + 1..] && s[i..][0] == s[i]
    ensures s[..i + 1][..i] == s[..i]
  {
  }

  lemma WholeSlice<T>(s: seq<T>)
    ensures s[..|s|] == s && s[|s|..] == []
  {
  }
}
