/**
 * Small facts about sequences that the proofs of the other modules use to
 * regroup concatenations and to split a sequence around one element.
 */
module Sequences {
  lemma AppendAssoc<T>(a: seq<T>, b: seq<T>, c: seq<T>)
    ensures a + b + c == a + (b + c)
  {
  }

  lemma SplitAfterHead<T>(h: seq<T>, a: seq<T>, b: seq<T>, c: seq<T>)
    ensures h + a + b + c == h + (a + b + c)
  {
  }

  lemma TakeSnoc<T>(s: seq<T>, j: nat)
    requires j < |s|
    ensures s[..j + 1] == s[..j] + [s[j]]
  {
  }

  lemma SplitAround<T>(s: seq<T>, i: nat)
    requires i < |s|
    ensures s == s[..i] + [s[i]] + s[i + 1..]
  {
  }

  /** A sequence framed by a first and a last element that occurs nowhere else. */
  lemma Framed<T>(first: T, a: seq<T>, b: seq<T>, x: T, c: seq<T>, last: T)
    requires first != last && x != last && last !in a && last !in b && last !in c
    ensures var s := [first] + a + (b + [x] + c + [last]);
      && s[0] == first
      && s[|s| - 1] == last
      && last !in s[..|s| - 1]
  {
    var s := [first] + a + (b + [x] + c + [last]);
    assert s[..|s| - 1] == [first] + a + b + [x] + c;
  }
}
