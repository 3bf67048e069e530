/** Facts about sequences that the meshers, the cube scan and the spawn
    queue share. */
module SeqFacts {

  /** A sequence with no members is empty. */
  lemma NoMembersEmpty<T>(xs: seq<T>)
    requires forall x :: x !in xs
    ensures xs == []
  {
    if xs != [] {
      HeadIsMember(xs);
    }
  }

  lemma HeadIsMember<T>(xs: seq<T>)
    requires xs != []
    ensures xs[0] in xs
  {
  }

  lemma ConcatAssoc<T>(a: seq<T>, b: seq<T>, c: seq<T>)
    ensures (a + b) + c == a + (b + c)
  {
  }

  /** Occurrences in a concatenation add up. */
  lemma AppendCounts<T>(a: seq<T>, b: seq<T>, x: T)
    ensures multiset(a + b)[x] == multiset(a)[x] + multiset(b)[x]
  {
    assert multiset(a + b) == multiset(a) + multiset(b);
  }
}
