/** Facts about sequences that the solver should not have to find again and again. */
module Sequences {

  lemma Associative<T>(a: seq<T>, b: seq<T>, c: seq<T>)
    ensures a + (b + c) == a + b + c
  {
  }

  lemma DropConcat<T>(a: seq<T>, b: seq<T>, k: nat)
    requires k <= |a|
    ensures (a + b)[k..] == a[k..] + b
  {
  }

  /** One element in its place, kept or replaced. */
  lemma SplitAt<T>(s: seq<T>, i: nat, b: T)
    requires i < |s|
    ensures s[..i + 1] == s[..i] + [s[i]]
    ensures s == s[..i] + [s[i]] + s[i + 1..]
    ensures s[i := b] == s[..i] + [b] + s[i + 1..]
  {
  }
}
