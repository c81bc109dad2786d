/**
 * Generic facts about sequence concatenation and splitting that the tree and
 * document proofs use to rearrange sequences without unfolding them.
 */
module Seqs {
  lemma TailSplit<T>(s: seq<T>, k: nat)
    requires 1 <= k <= |s|
    ensures s[1..] == s[1..k] + s[k..]
  {
  }

  lemma SplitJoin<T>(s: seq<T>, k: nat)
    requires 1 <= k <= |s|
    ensures s == [s[0]] + s[1..k] + s[k..]
  {
    assert s == s[..1] + s[1..k] + s[k..];
  }

  lemma ConcatAssoc<T>(a: seq<T>, b: seq<T>, c: seq<T>)
    ensures a + (b + c) == (a + b) + c
  {
  }

  lemma SplitJoinAppend<T>(x: seq<T>, y: seq<T>, k: nat)
    requires 1 <= k <= |x|
    ensures x + y == [x[0]] + x[1..k] + (x[k..] + y)
  {
    SplitJoin(x, k);
  }

  lemma Join33<T>(b: T, c: T, d: T, e: T, f: T, g: T)
    ensures [b, c, d] + [e, f, g] == [b, c, d, e, f, g]
  {
  }

  lemma Prepend2<T>(a: T, b: T, c: T)
    ensures [a] + [b, c] == [a, b, c]
  {
  }

  lemma Prepend3<T>(a: T, b: T, c: T, d: T)
    ensures [a] + [b, c, d] == [a, b, c, d]
  {
  }

  lemma Prepend4<T>(a: T, b: T, c: T, d: T, e: T)
    ensures [a] + [b, c, d, e] == [a, b, c, d, e]
  {
  }

  lemma Prepend5<T>(a: T, b: T, c: T, d: T, e: T, f: T)
    ensures [a] + [b, c, d, e, f] == [a, b, c, d, e, f]
  {
  }

  lemma Prepend6<T>(a: T, b: T, c: T, d: T, e: T, f: T, g: T)
    ensures [a] + [b, c, d, e, f, g] == [a, b, c, d, e, f, g]
  {
  }

  lemma NothingAfter<T>(s: seq<T>)
    ensures s + [] == s
  {
  }

  lemma PairThenOne<T>(a: T, b: T, c: T)
    ensures [a, b] + [c] == [a, b, c]
  {
  }

  lemma PairThen<T>(a: T, b: T, rest: seq<T>)
    ensures [a] + [b] + rest == [a, b] + rest
  {
  }
}
