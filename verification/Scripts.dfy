/** Runs of a step function, put together from pieces that are known to lead from one state to
    another. */
module Scripts {

  function Repeat<A>(a: A, n: nat): (actions: seq<A>)
    ensures |actions| == n
  {
    seq(n, _ => a)
  }

  /** These actions lead from `s` to `t`. */
  ghost predicate Leads<S, A>(step: (S, A) -> S, s: S, actions: seq<A>, t: S)
    decreases |actions|
  {
    if actions == [] then s == t else Leads(step, step(s, actions[0]), actions[1..], t)
  }

  lemma {:induction false} Then<S, A>(step: (S, A) -> S, s: S, a: seq<A>, t: S, b: seq<A>, u: S)
    requires Leads(step, s, a, t) && Leads(step, t, b, u)
    ensures Leads(step, s, a + b, u)
    decreases |a|
  {
    if a == [] {
      assert a + b == b;
    } else {
      assert (a + b)[1..] == a[1..] + b;
      Then(step, step(s, a[0]), a[1..], t, b, u);
    }
  }

  lemma First<S, A>(step: (S, A) -> S, s: S, a: A, t: S, b: seq<A>, u: S)
    requires step(s, a) == t && Leads(step, t, b, u)
    ensures Leads(step, s, [a] + b, u)
  {
    assert ([a] + b)[1..] == b;
  }

  lemma Once<S, A>(step: (S, A) -> S, s: S, a: A, t: S)
    requires step(s, a) == t
    ensures Leads(step, s, Repeat(a, 1), t)
  {
    assert Repeat(a, 1) == [a] + [];
    First(step, s, a, t, [], t);
  }

  /** The same action `m` times and then `n` times. */
  lemma Again<S, A>(step: (S, A) -> S, s: S, a: A, m: nat, t: S, n: nat, u: S)
    requires Leads(step, s, Repeat(a, m), t) && Leads(step, t, Repeat(a, n), u)
    ensures Leads(step, s, Repeat(a, m + n), u)
  {
    assert Repeat(a, m + n) == Repeat(a, m) + Repeat(a, n);
    Then(step, s, Repeat(a, m), t, Repeat(a, n), u);
  }

  lemma Twice<S, A>(step: (S, A) -> S, s: S, a: A, t: S, u: S)
    requires step(s, a) == t && step(t, a) == u
    ensures Leads(step, s, Repeat(a, 2), u)
  {
    Once(step, s, a, t);
    Once(step, t, a, u);
    Again(step, s, a, 1, t, 1, u);
  }

  lemma Thrice<S, A>(step: (S, A) -> S, s: S, a: A, t: S, u: S, v: S)
    requires step(s, a) == t && step(t, a) == u && step(u, a) == v
    ensures Leads(step, s, Repeat(a, 3), v)
  {
    Once(step, s, a, t);
    Twice(step, t, a, u, v);
    Again(step, s, a, 1, t, 2, v);
  }
}
