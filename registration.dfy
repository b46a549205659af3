/** Registration with the test runner (src/protractor-mink.js): every row of
    the exported table is handed, in order, to the runner's `defineStep`.
    The runner is external; here it is the append-only list of the step
    definitions it has received. */
module Registration {
  import opened Common
  import opened Steps
  import Definitions

  /** A step definition as the runner receives it: pattern, handler and the
      options passed along (a timeout; never any here). */
  datatype StepDefinition = StepDefinition(pattern: Pattern, handler: Handler, timeout: Option<int>)

  /** The definitions a table gives rise to, one per row, in row order. */
  function Registered(t: seq<Row>): (d: seq<StepDefinition>)
    ensures |d| == |t|
    ensures forall i :: 0 <= i < |t| ==> d[i] == StepDefinition(t[i].pattern, t[i].handler, None)
  {
    if t == [] then []
    else
      var n := |t| - 1;
      Registered(t[..n]) + [StepDefinition(t[n].pattern, t[n].handler, None)]
  }

  /** Nothing is deduplicated or checked: two equal rows are registered
      twice. */
  lemma EqualRowsRegisteredTwice(t: seq<Row>, i: nat, j: nat)
    requires i < j < |t| && t[i] == t[j]
    ensures Registered(t)[i] == Registered(t)[j]
  {
  }

  class Runner {
    var steps: seq<StepDefinition>

    constructor ()
      ensures steps == []
    {
      steps := [];
    }

    /** `defineStep(pattern, fn)`, without options. */
    method DefineStep(pattern: Pattern, handler: Handler)
      modifies this
      ensures steps == old(steps) + [StepDefinition(pattern, handler, None)]
    {
      steps := steps + [StepDefinition(pattern, handler, None)];
    }
  }

  /** The `forEach` over a table: `defineStep` exactly once per row, in
      order. */
  method DefineAll(runner: Runner, t: seq<Row>)
    modifies runner
    ensures runner.steps == old(runner.steps) + Registered(t)
  {
    var i := 0;
    while i < |t|
      invariant 0 <= i <= |t|
      invariant runner.steps == old(runner.steps) + Registered(t[..i])
    {
      assert t[..i + 1][..i] == t[..i];
      runner.DefineStep(t[i].pattern, t[i].handler);
      i := i + 1;
    }
    assert t[..i] == t;
  }

  /** Loading the library registers the 23 exported rows. */
  method Load(runner: Runner)
    modifies runner
    ensures runner.steps == old(runner.steps) + Registered(Definitions.Table())
    ensures |runner.steps| == |old(runner.steps)| + 23
  {
    DefineAll(runner, Definitions.Table());
  }
}
