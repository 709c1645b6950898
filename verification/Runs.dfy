/** Runs of a machine given by its step function. */
module Runs {
  import opened Common

  function Steps<S, A>(step: (S, A) -> Option<S>, s: S, run: seq<A>): Option<S>
    decreases |run|
  {
    if run == [] then Some(s)
    else
      match step(s, run[0])
      case None => None
      case Some(s1) => Steps(step, s1, run[1..])
  }

  lemma StepsOne<S, A>(step: (S, A) -> Option<S>, s: S, a: A)
    ensures Steps(step, s, [a]) == step(s, a)
  {
    assert [a][1..] == [];
    match step(s, a)
    case None =>
    case Some(s1) => assert Steps(step, s1, []) == Some(s1);
  }

  lemma {:induction false} StepsConcat<S, A>(step: (S, A) -> Option<S>, s: S, a: seq<A>, b: seq<A>)
    ensures Steps(step, s, a + b)
         == match Steps(step, s, a) case None => None case Some(z) => Steps(step, z, b)
    decreases |a|
  {
    if a == [] {
      assert a + b == b;
    } else {
      assert (a + b)[1..] == a[1..] + b;
      match step(s, a[0])
      case None =>
      case Some(s1) => StepsConcat(step, s1, a[1..], b);
    }
  }
}
