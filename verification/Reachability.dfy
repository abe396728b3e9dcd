/** What any machine can get to by steps of an allowed kind, whatever its states and steps are. */
module Reachability {

  ghost function Fold<S, T>(next: (S, T) -> S, s: S, ts: seq<T>): S
    decreases |ts|
  {
    if ts == [] then s else Fold(next, next(s, ts[0]), ts[1..])
  }

  ghost predicate All<T>(allowed: T -> bool, ts: seq<T>) {
    forall i | 0 <= i < |ts| :: allowed(ts[i])
  }

  ghost predicate Reaches<S(!new), T(!new)>(next: (S, T) -> S, allowed: T -> bool, s: S, s': S) {
    exists ts :: All(allowed, ts) && Fold(next, s, ts) == s'
  }

  lemma ReachesItself<S(!new), T(!new)>(next: (S, T) -> S, allowed: T -> bool, s: S)
    ensures Reaches(next, allowed, s, s)
  {
    assert Fold(next, s, []) == s && All(allowed, []);
  }

  lemma {:induction false} FoldOneMore<S, T>(next: (S, T) -> S, s: S, ts: seq<T>, t: T)
    ensures Fold(next, s, ts + [t]) == next(Fold(next, s, ts), t)
    decreases |ts|
  {
    if ts == [] {
      assert ([] + [t])[1..] == [];
      assert Fold(next, next(s, t), []) == next(s, t);
    } else {
      assert (ts + [t])[1..] == ts[1..] + [t];
      FoldOneMore(next, next(s, ts[0]), ts[1..], t);
    }
  }

  /** One more step from a state that is reached. */
  lemma ReachesOneMore<S(!new), T(!new)>(next: (S, T) -> S, allowed: T -> bool, s: S, s': S, t: T)
    requires Reaches(next, allowed, s, s') && allowed(t)
    ensures Reaches(next, allowed, s, next(s', t))
  {
    var ts :| All(allowed, ts) && Fold(next, s, ts) == s';
    FoldOneMore(next, s, ts, t);
    assert All(allowed, ts + [t]);
  }

  /** Where `ts` ends. */
  ghost function At<S, T>(next: (S, T) -> S, s: S, ts: seq<T>): S {
    Fold(next, s, ts)
  }

  /** Wherever the machine gets from `s`, `inv` holds. */
  ghost predicate Always<S, T(!new)>(next: (S, T) -> S, inv: S -> bool, s: S) {
    forall ts {:trigger At(next, s, ts)} :: inv(At(next, s, ts))
  }

  lemma {:induction false} FoldKeeps<S(!new), T(!new)>(next: (S, T) -> S, inv: S -> bool, s: S, ts: seq<T>)
    requires inv(s) && forall x, t :: inv(x) ==> inv(next(x, t))
    ensures inv(Fold(next, s, ts))
    decreases |ts|
  {
    if ts != [] {
      FoldKeeps(next, inv, next(s, ts[0]), ts[1..]);
    }
  }

  /** What every step keeps holds always. */
  lemma AlwaysKept<S(!new), T(!new)>(next: (S, T) -> S, inv: S -> bool, s: S)
    requires inv(s) && forall x, t :: inv(x) ==> inv(next(x, t))
    ensures Always(next, inv, s)
  {
    forall ts ensures inv(At(next, s, ts)) {
      FoldKeeps(next, inv, s, ts);
    }
  }

  lemma AlwaysThere<S(!new), T(!new)>(next: (S, T) -> S, allowed: T -> bool, inv: S -> bool, s: S, s': S)
    requires Always(next, inv, s) && Reaches(next, allowed, s, s')
    ensures inv(s')
  {
    var ts :| All(allowed, ts) && Fold(next, s, ts) == s';
    assert At(next, s, ts) == s';
  }
}
