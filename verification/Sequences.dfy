/** Facts about sequences that many proofs need, each proved where nothing else is in sight. */
module Sequences {
  /** What a concatenation ends with. */
  lemma ConcatLast<T>(a: seq<T>, b: seq<T>)
    requires b != []
    ensures (a + b)[..|a + b| - 1] == a + b[..|b| - 1] && (a + b)[|a + b| - 1] == b[|b| - 1]
  {
  }

  lemma CutSplits<T>(a: seq<T>, b: seq<T>, n: nat)
    requires n <= |a + b|
    ensures (a + b)[..n] == if n <= |a| then a[..n] else a + b[..n - |a|]
  {
  }

  lemma FirstThree<T>(s: seq<T>, n: nat)
    requires |s| == 3 && n <= 3
    ensures [] + [s[0]] == [s[0]] && [s[0]] + [s[1]] == [s[0], s[1]] && [s[0], s[1]] + [s[2]] == s
    ensures s[..n] == if n == 0 then [] else if n == 1 then [s[0]] else if n == 2 then [s[0], s[1]] else s
  {
  }

  lemma FourJoined<T>(a: T, b: T, c: T, d: T)
    ensures [] + [a] == [a] && [a] + [b] == [a, b] && [a, b] + [c] == [a, b, c] && [a, b, c] + [d] == [a, b, c, d]
  {
  }

  lemma Joined<T>(s: seq<T>, a: T, b: T, c: T)
    ensures s + [a] + [b] == s + [a, b] && s + [a] + [b] + [c] == s + [a, b, c]
  {
  }

  lemma Reassociated<T>(a: seq<T>, b: seq<T>, c: seq<T>)
    ensures a + b + c == a + (b + c)
  {
  }

  lemma SliceSplits<T>(s: seq<T>, first: nat, m: nat)
    requires first <= m <= |s|
    ensures s[first..|s|] == s[first..m] + s[m..]
  {
  }

  lemma Regrouped<T>(all: seq<T>, a: seq<T>, b: seq<T>, c: seq<T>, bc: seq<T>)
    requires all == a + b && bc == b + c
    ensures all + c == a + bc
  {
  }

  lemma SliceOfConcat<T>(a: seq<T>, b: seq<T>, i: nat, j: nat)
    requires i <= j <= |a|
    ensures (a + b)[i..j] == a[i..j] && (a + b)[|a|..|a| + |b|] == b
  {
  }
}
