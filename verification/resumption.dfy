/** A generator seen as a step function: each step moves the suspended state on and may
    yield one value. Resuming the generator repeats steps until one yields. Everything here
    holds for any step function; the training script's generator is one instance. */
module Resumption {
  import opened Results

  /** `m` steps from `s`: the state they reach and the values they yield, in order. */
  function Steps<T, B>(step: T -> (T, Option<B>), s: T, m: nat): (r: (T, seq<B>))
    ensures |r.1| <= m
    decreases m
  {
    if m == 0 then (s, [])
    else
      var next := step(s);
      var rest := Steps(step, next.0, m - 1);
      match next.1
      case None => rest
      case Some(b) => (rest.0, [b] + rest.1)
  }

  /** One resumption: steps until a value comes out, taking at most `fuel` steps. */
  function Resume<T, B>(step: T -> (T, Option<B>), s: T, fuel: nat): (r: Option<(B, T)>)
    decreases fuel
  {
    if fuel == 0 then None
    else
      var next := step(s);
      match next.1
      case Some(b) => Some((b, next.0))
      case None => Resume(step, next.0, fuel - 1)
  }

  /** A resumption is a run of steps: for the number `m` of steps it took, those steps
      yield its value and nothing else, and end in the state it returns. */
  lemma {:induction false} ResumeIsSteps<T, B>(step: T -> (T, Option<B>), s: T, fuel: nat) returns (m: nat)
    requires Resume(step, s, fuel).Some?
    ensures 1 <= m <= fuel
    ensures Steps(step, s, m) == (Resume(step, s, fuel).value.1, [Resume(step, s, fuel).value.0])
    decreases fuel
  {
    var next := step(s);
    if next.1.Some? {
      m := 1;
      assert Steps(step, next.0, m - 1) == (next.0, []);
      assert [next.1.value] + [] == [next.1.value];
    } else {
      var rest := ResumeIsSteps(step, next.0, fuel - 1);
      m := rest + 1;
      assert Steps(step, s, m) == Steps(step, next.0, rest);
    }
  }

  /** `count` resumptions in a row, each with budget `fuel`: the values in order and the
      final state, or `None` when one of them runs out of budget. */
  function Repeat<T, B>(step: T -> (T, Option<B>), s: T, count: nat, fuel: nat): (r: Option<(seq<B>, T)>)
    decreases count
  {
    if count == 0 then Some(([], s))
    else
      match Resume(step, s, fuel)
      case None => None
      case Some(first) =>
        match Repeat(step, first.1, count - 1, fuel)
        case None => None
        case Some(rest) => Some(([first.0] + rest.0, rest.1))
  }

  /** A run of `a + b` steps is a run of `a` steps followed by a run of `b` steps. */
  lemma {:induction false} StepsAppend<T, B>(step: T -> (T, Option<B>), s: T, a: nat, b: nat)
    ensures Steps(step, s, a + b)
      == (Steps(step, Steps(step, s, a).0, b).0, Steps(step, s, a).1 + Steps(step, Steps(step, s, a).0, b).1)
    decreases a
  {
    if a > 0 {
      var next := step(s);
      StepsAppend(step, next.0, a - 1, b);
      assert a + b - 1 == (a - 1) + b;
      if next.1.Some? {
        var x, y := Steps(step, next.0, a - 1).1, Steps(step, Steps(step, next.0, a - 1).0, b).1;
        assert [next.1.value] + (x + y) == ([next.1.value] + x) + y;
      }
    } else {
      assert Steps(step, s, a).1 == [];
      assert [] + Steps(step, s, b).1 == Steps(step, s, b).1;
    }
  }

  /** Repeated resumptions are a run of steps: for the total number `m` of steps they
      took, at most `count * fuel`, those steps yield exactly their values, in order, and
      end in the state they return. */
  lemma {:induction false} RepeatIsSteps<T, B>(step: T -> (T, Option<B>), s: T, count: nat, fuel: nat) returns (m: nat)
    requires Repeat(step, s, count, fuel).Some?
    ensures m <= count * fuel
    ensures Steps(step, s, m) == (Repeat(step, s, count, fuel).value.1, Repeat(step, s, count, fuel).value.0)
    decreases count
  {
    if count == 0 {
      m := 0;
    } else {
      var first := Resume(step, s, fuel).value;
      var m1 := ResumeIsSteps(step, s, fuel);
      var m2 := RepeatIsSteps(step, first.1, count - 1, fuel);
      StepsAppend(step, s, m1, m2);
      assert fuel + (count - 1) * fuel == count * fuel;
      m := m1 + m2;
    }
  }
}
