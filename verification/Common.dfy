/** Shared vocabulary: optional results, bytes, and the sum of a family of multisets. */
module Common {

  datatype Option<+T> = None | Some(value: T)

  newtype byte = b: int | 0 <= b < 256

  function Min(a: nat, b: nat): nat {
    if a <= b then a else b
  }

  /** The last `n` elements of `s`, or all of it when it is shorter. */
  function Last<T>(s: seq<T>, n: nat): (r: seq<T>)
    ensures |r| == Min(|s|, n)
  {
    if |s| <= n then s else s[|s| - n..]
  }

  /** Keeping only a suffix before appending loses nothing that the final suffix needs. */
  lemma LastAbsorbs<T>(s: seq<T>, t: seq<T>, n: nat)
    ensures Last(Last(s, n) + t, n) == Last(s + t, n)
  {
  }

  /** The second of two updates of one slot is the one that counts. */
  lemma UpdateTwice<T>(s: seq<T>, i: nat, a: T, b: T)
    requires i < |s|
    ensures s[i := a][i := b] == s[i := b]
  {
  }

  /** The multiset sum of `f` over the elements of `s`: who holds what in a table. */
  ghost function Flatten<T>(s: seq<T>, f: T -> multiset<int>): multiset<int> {
    if s == [] then multiset{} else f(s[0]) + Flatten(s[1..], f)
  }

  /** Rewriting one slot of a table exchanges exactly that slot's contribution. */
  lemma {:induction false} FlattenUpdate<T>(s: seq<T>, f: T -> multiset<int>, i: nat, x: T)
    requires i < |s|
    ensures f(s[i]) <= Flatten(s, f)
    ensures Flatten(s[i := x], f) == Flatten(s, f) - f(s[i]) + f(x)
  {
    if i == 0 {
      assert s[i := x][1..] == s[1..];
    } else {
      assert s[i := x][1..] == s[1..][i - 1 := x];
      FlattenUpdate(s[1..], f, i - 1, x);
    }
  }

  /** Rewriting a slot without changing its contribution changes nothing. */
  lemma FlattenSame<T>(s: seq<T>, f: T -> multiset<int>, i: nat, x: T)
    requires i < |s| && f(x) == f(s[i])
    ensures Flatten(s[i := x], f) == Flatten(s, f)
  {
    FlattenUpdate(s, f, i, x);
  }

  /** If the pages in use change by what one slot gave up and took, the books still balance. */
  lemma FlattenBalance<T>(s: seq<T>, f: T -> multiset<int>, i: nat, x: T, rest: multiset<int>,
                          live: multiset<int>, live': multiset<int>)
    requires i < |s| && live == Flatten(s, f) + rest && live' == live - f(s[i]) + f(x)
    ensures live' == Flatten(s[i := x], f) + rest
  {
    FlattenUpdate(s, f, i, x);
  }

  /** Two different slots contribute separately. */
  lemma {:induction false} FlattenPair<T>(s: seq<T>, f: T -> multiset<int>, i: nat, j: nat)
    requires i < j < |s|
    ensures f(s[i]) + f(s[j]) <= Flatten(s, f)
  {
    if i == 0 {
      FlattenUpdate(s[1..], f, j - 1, s[j]);
    } else {
      FlattenPair(s[1..], f, i - 1, j - 1);
    }
  }

  /** Whatever the table holds is held by some slot. */
  lemma {:induction false} FlattenHolder<T>(s: seq<T>, f: T -> multiset<int>, x: int) returns (i: nat)
    requires x in Flatten(s, f)
    ensures i < |s| && x in f(s[i])
  {
    if x in f(s[0]) {
      i := 0;
    } else {
      i := FlattenHolder(s[1..], f, x);
      i := i + 1;
    }
  }

  /** A table whose slots all hold nothing holds nothing. */
  lemma {:induction false} FlattenNothing<T>(s: seq<T>, f: T -> multiset<int>)
    requires forall i | 0 <= i < |s| :: f(s[i]) == multiset{}
    ensures Flatten(s, f) == multiset{}
  {
    if s != [] {
      forall i | 0 <= i < |s[1..]| ensures f(s[1..][i]) == multiset{} {
        assert s[1..][i] == s[i + 1];
      }
      FlattenNothing(s[1..], f);
    }
  }

  /** A table whose slots all hold something holds at least one thing per slot. */
  lemma {:induction false} FlattenAtLeast<T>(s: seq<T>, f: T -> multiset<int>)
    requires forall i | 0 <= i < |s| :: |f(s[i])| >= 1
    ensures |Flatten(s, f)| >= |s|
  {
    if s != [] {
      forall i | 0 <= i < |s[1..]| ensures |f(s[1..][i])| >= 1 {
        assert s[1..][i] == s[i + 1];
      }
      FlattenAtLeast(s[1..], f);
    }
  }

  /** A smaller multiset has the smaller size. */
  lemma SubsetSize(a: multiset<int>, b: multiset<int>)
    requires a <= b
    ensures |a| <= |b|
  {
    assert b == a + (b - a);
  }
}
