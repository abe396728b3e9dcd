/** Byte-by-byte loops over a state that may fault, for any step: what the user copies are made of. */
module Loops {
  import opened Common

  /** Put the elements of `src` at consecutive addresses until a step refuses. */
  ghost function Feed<S, A>(step: (S, nat, A) -> (S, bool), s: S, at: nat, src: seq<A>): (S, bool)
    decreases |src|
  {
    if src == [] then (s, true)
    else
      var (s', ok) := step(s, at, src[0]);
      if !ok then (s', false) else Feed(step, s', at + 1, src[1..])
  }

  /** Take `n` elements from consecutive addresses until a step refuses. */
  ghost function Draw<S, A>(step: (S, nat) -> (S, Option<A>), s: S, at: nat, n: nat): (S, Option<seq<A>>)
    decreases n
  {
    if n == 0 then (s, Some([]))
    else
      var (s1, b) := step(s, at);
      if b.None? then (s1, None)
      else
        var (s2, rest) := Draw(step, s1, at + 1, n - 1);
        (s2, if rest.None? then None else Some([b.value] + rest.value))
  }

  /** One turn: an accepted step goes on with the rest, a refused one ends it. */
  lemma FeedTurn<S, A>(step: (S, nat, A) -> (S, bool), s: S, at: nat, src: seq<A>, i: nat, s': S, ok: bool)
    requires i < |src| && step(s, at + i, src[i]) == (s', ok)
    ensures Feed(step, s, at + i, src[i..]) == if ok then Feed(step, s', at + (i + 1), src[i + 1..]) else (s', false)
  {
    assert src[i..][1..] == src[i + 1..];
  }

  /** What has been drawn before the rest. */
  ghost function Resume<S, A>(got: seq<A>, rest: (S, Option<seq<A>>)): (S, Option<seq<A>>) {
    (rest.0, if rest.1.None? then None else Some(got + rest.1.value))
  }

  /** The whole draw is what has been drawn, and the rest drawn from here. */
  ghost predicate Draws<S, A>(step: (S, nat) -> (S, Option<A>), whole: (S, Option<seq<A>>), s: S, at: nat, n: nat,
                                          got: seq<A>) {
    |got| <= n && whole == Resume(got, Draw(step, s, at + |got|, n - |got|))
  }

  /** One turn: an element drawn is put behind those before it, a refusal ends the draw. */
  lemma DrawTurn<S, A>(step: (S, nat) -> (S, Option<A>), whole: (S, Option<seq<A>>), s: S, at: nat, n: nat,
                                   got: seq<A>, s': S, b: Option<A>)
    requires Draws(step, whole, s, at, n, got) && |got| < n && step(s, at + |got|) == (s', b)
    ensures if b.None? then whole == (s', None) else Draws(step, whole, s', at, n, got + [b.value])
  {
    if b.Some? {
      var rest := Draw(step, s', at + |got| + 1, n - |got| - 1).1;
      assert rest.Some? ==> got + ([b.value] + rest.value) == got + [b.value] + rest.value;
    }
  }

  lemma DrawStarts<S, A>(step: (S, nat) -> (S, Option<A>), s: S, at: nat, n: nat)
    ensures Draws(step, Draw(step, s, at, n), s, at, n, [])
  {
    var rest := Draw(step, s, at, n).1;
    assert rest.Some? ==> [] + rest.value == rest.value;
  }

  lemma DrawEnds<S, A>(step: (S, nat) -> (S, Option<A>), whole: (S, Option<seq<A>>), s: S, at: nat, got: seq<A>)
    requires Draws(step, whole, s, at, |got|, got)
    ensures whole == (s, Some(got))
  {
    assert got + [] == got;
  }
}
