/** Facts about sequences that the other modules lean on. */
module Seqs {
  lemma Assoc<T>(a: seq<T>, b: seq<T>, c: seq<T>)
    ensures a + (b + c) == (a + b) + c
  {}

  lemma Cancel<T>(a: seq<T>, b: seq<T>, c: seq<T>)
    requires a + b == a + c
    ensures b == c
  {
    assert (a + b)[|a|..] == b && (a + c)[|a|..] == c;
  }

  /** Equal stretches have equal parts. */
  lemma SamePart<T>(s: seq<T>, t: seq<T>, a: nat, b: nat, c: nat, d: nat)
    requires a <= c <= d <= b <= |s| && b <= |t| && s[a..b] == t[a..b]
    ensures s[c..d] == t[c..d]
  {
    forall i | c <= i < d ensures s[i] == t[i] {
      assert s[a..b][i - a] == t[a..b][i - a];
    }
  }

  lemma Joined<T>(s: seq<T>, a: nat, b: nat, c: nat)
    requires a <= b <= c <= |s|
    ensures s[a..c] == s[a..b] + s[b..c]
  {}

  lemma BehindPrefix<T>(a: seq<T>, s: seq<T>, c: nat, d: nat)
    requires c <= d <= |s|
    ensures (a + s)[|a| + c..|a| + d] == s[c..d]
  {}
}
