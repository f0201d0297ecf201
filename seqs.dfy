/** Order-preserving subsequences, the shape every filtering step of the
    core (filterTasks, the store's delete, the board's columns) produces. */
module Seqs {

  /** `r` can be obtained from `s` by deleting elements, keeping order. */
  ghost predicate IsSubsequence<T>(r: seq<T>, s: seq<T>)
    decreases |s|
  {
    if r == [] then true
    else if s == [] then false
    else (r[0] == s[0] && IsSubsequence(r[1..], s[1..])) || IsSubsequence(r, s[1..])
  }

  /** The head and tail of a concatenation whose left part is non-empty. */
  lemma AppendHeadTail<T>(a: seq<T>, b: seq<T>)
    requires a != []
    ensures (a + b)[0] == a[0]
    ensures (a + b)[1..] == a[1..] + b
  {
  }

  /** The multiset of a non-empty sequence: its head plus its tail. */
  lemma MultisetHeadTail<T>(s: seq<T>)
    requires s != []
    ensures multiset(s) == multiset{s[0]} + multiset(s[1..])
  {
    assert s == [s[0]] + s[1..];
  }

  /** Two sequences that extend a common prefix by tails of different
      lengths differ. */
  lemma DistinctTails<T>(base: seq<T>, a: seq<T>, b: seq<T>)
    requires |a| != |b|
    ensures base + a != base + b
  {
    assert |base + a| != |base + b|;
  }

  /** Concatenation is associative. */
  lemma AppendAssoc<T>(a: seq<T>, b: seq<T>, c: seq<T>)
    ensures (a + b) + c == a + (b + c)
  {
  }
}
