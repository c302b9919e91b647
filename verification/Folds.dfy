/** Partial state machines run over a sequence of inputs. */
module Folds {
  import opened Wrappers

  /** The state after all of `inputs`; None as soon as one of them is refused. */
  function Run<S, E>(step: (S, E) -> Option<S>, state: S, inputs: seq<E>): Option<S>
    decreases |inputs|
  {
    if inputs == [] then Some(state)
    else
      var next := step(state, inputs[0]);
      if next.None? then None else Run(step, next.value, inputs[1..])
  }

  lemma {:induction false} RunConcat<S, E>(step: (S, E) -> Option<S>, state: S, inputs: seq<E>, more: seq<E>)
    ensures Run(step, state, inputs + more)
         == if Run(step, state, inputs).None? then None
            else Run(step, Run(step, state, inputs).value, more)
    decreases |inputs|
  {
    if inputs == [] {
      assert inputs + more == more;
    } else {
      assert (inputs + more)[1..] == inputs[1..] + more;
      var next := step(state, inputs[0]);
      if next.Some? {
        RunConcat(step, next.value, inputs[1..], more);
      }
    }
  }

  /** A loop's view: the inputs from position i on, and the first of them. */
  lemma RunFrom<S, E>(step: (S, E) -> Option<S>, state: S, inputs: seq<E>, i: nat)
    requires i < |inputs|
    ensures Run(step, state, inputs[i..])
         == if step(state, inputs[i]).None? then None
            else Run(step, step(state, inputs[i]).value, inputs[i + 1..])
  {
    assert inputs[i..][1..] == inputs[i + 1..];
  }

  lemma RunOne<S, E>(step: (S, E) -> Option<S>, state: S, input: E)
    ensures Run(step, state, [input]) == step(state, input)
  {
    RunFrom(step, state, [input], 0);
    assert [input][0..] == [input] && [input][1..] == [];
  }

  /** One more input at the end. */
  lemma RunSnoc<S, E>(step: (S, E) -> Option<S>, state: S, inputs: seq<E>, input: E)
    ensures Run(step, state, inputs + [input])
         == if Run(step, state, inputs).None? then None
            else step(Run(step, state, inputs).value, input)
  {
    RunConcat(step, state, inputs, [input]);
    if Run(step, state, inputs).Some? {
      RunOne(step, Run(step, state, inputs).value, input);
    }
  }

  /** What every step keeps holds after every run. */
  lemma {:induction false} RunKeeps<S(!new), E(!new)>(step: (S, E) -> Option<S>, keeps: S -> bool, state: S, inputs: seq<E>)
    requires keeps(state)
    requires forall s, e :: keeps(s) && step(s, e).Some? ==> keeps(step(s, e).value)
    ensures Run(step, state, inputs).Some? ==> keeps(Run(step, state, inputs).value)
    decreases |inputs|
  {
    if inputs != [] {
      var next := step(state, inputs[0]);
      if next.Some? {
        RunKeeps(step, keeps, next.value, inputs[1..]);
      }
    }
  }

  /** A run of a stricter machine is a run of the looser one. */
  lemma {:induction false} StricterRun<S(!new), E(!new)>(strict: (S, E) -> Option<S>, loose: (S, E) -> Option<S>,
                                         state: S, inputs: seq<E>)
    requires forall s, e :: strict(s, e).Some? ==> loose(s, e) == strict(s, e)
    ensures Run(strict, state, inputs).Some? ==> Run(loose, state, inputs) == Run(strict, state, inputs)
    decreases |inputs|
  {
    if inputs != [] {
      var next := strict(state, inputs[0]);
      if next.Some? {
        StricterRun(strict, loose, next.value, inputs[1..]);
      }
    }
  }

  lemma PrefixStep<E>(s: seq<E>, i: nat)
    requires i < |s|
    ensures s[..i + 1] == s[..i] + [s[i]]
  {
  }
}
