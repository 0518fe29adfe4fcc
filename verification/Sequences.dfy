/** Sequences as multisets. */
module Sequences {
  lemma InsertedAll<T>(s: seq<T>, t: T, k: nat)
    requires k <= |s|
    ensures multiset(s[..k] + [t] + s[k..]) == multiset(s) + multiset{t}
  {
    assert s == s[..k] + s[k..];
  }
}
