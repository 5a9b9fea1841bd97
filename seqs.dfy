/** Facts about sequence prefixes shared by both engines. */
module Seqs {

  /** The prefix order on sequences is transitive. */
  lemma {:induction false} PrefixTrans<T>(a: seq<T>, b: seq<T>, c: seq<T>)
    requires a <= b && b <= c
    ensures a <= c
  {
    assert c[..|a|] == b[..|a|];
  }

  /** Appending a prefix of `b` to `a` gives a prefix of `a + b`. */
  lemma {:induction false} PrefixAppend<T>(a: seq<T>, b: seq<T>, j: nat)
    requires j <= |b|
    ensures a + b[..j] <= a + b
  {
    assert a + b[..j] == (a + b)[..|a| + j];
  }

  /** A proper prefix of `b` is a prefix of `b` without its last element. */
  lemma {:induction false} PrefixFront<T>(a: seq<T>, b: seq<T>)
    requires a <= b && |a| < |b|
    ensures a <= b[..|b| - 1]
  {
    assert b[..|b| - 1][..|a|] == b[..|a|];
  }
}
