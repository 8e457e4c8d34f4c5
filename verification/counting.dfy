/** How many times the two loops run.

    The forward loop counts its iterations in its first loop variable, and the gradient loop
    runs a second counter from 0 up to that total. To speak about iteration counts the model
    evaluates the few operations these counters are built from: constants, additions, the
    `Less` comparison, and argument placeholders bound to values. */
module Counting {
  import opened Wrappers
  import opened Graph
  import opened Forward
  import opened GradLoop

  /** The integer value of a tensor, with the placeholders bound by `env`. Only constants,
      additions, identities and bound placeholders have a value. */
  function Eval(t: Tensor, env: map<Tensor, int>): (r: Option<int>)
    ensures t.op.kind == CONST && t.op.attr.Value? ==> r == Some(t.op.attr.v)
    ensures t.op.kind == PLACEHOLDER ==> (r.Some? <==> t in env) && (t in env ==> r == Some(env[t]))
    decreases t
  {
    if t.op.kind == PLACEHOLDER then (if t in env then Some(env[t]) else None)
    else if t.op.kind == CONST && t.op.attr.Value? then Some(t.op.attr.v)
    else if t.op.kind == ADD && |t.op.inputs| == 2 then
      var a := Eval(t.op.inputs[0], env);
      var b := Eval(t.op.inputs[1], env);
      if a.Some? && b.Some? then Some(a.value + b.value) else None
    else if t.op.kind == IDENTITY && |t.op.inputs| == 1 then Eval(t.op.inputs[0], env)
    else None
  }

  /** Wrapping a tensor in an `Identity`, as the closure builder does for each function output,
      does not change its value. */
  lemma EvalIdentity(x: Tensor, n: Node, env: map<Tensor, int>)
    requires n.kind == IDENTITY && n.inputs == [x] && |n.outTypes| > 0
    ensures Eval(Output0(n), env) == Eval(x, env)
  {
  }

  /** The truth value of a `Less` comparison, with the placeholders bound by `env`. */
  function EvalLess(t: Tensor, env: map<Tensor, int>): Option<bool> {
    if t.op.kind == LESS && |t.op.inputs| == 2 then
      var a := Eval(t.op.inputs[0], env);
      var b := Eval(t.op.inputs[1], env);
      if a.Some? && b.Some? then Some(a.value < b.value) else None
    else None
  }

  /** An increment of a placeholder adds one to whatever the placeholder is bound to. */
  lemma EvalIncrement(o: Tensor, counter: Tensor, env: map<Tensor, int>)
    requires IsIncrement(o, counter) && counter.op.kind == PLACEHOLDER && counter in env
    ensures Eval(o, env) == Some(env[counter] + 1)
  {
    assert Eval(o.op.inputs[1], env) == Some(1);
  }

  /** The forward loop's counter after one iteration of `body`, starting from `c`. */
  function CounterStep(body: FuncGraph, c: int): Option<int>
    requires |body.inputs| > 0 && |body.outputs| > 0
  {
    Eval(body.outputs[0], map[body.inputs[0] := c])
  }

  /** The forward loop's counter after `k` iterations of `body`, starting from `c`. */
  function CounterAfter(body: FuncGraph, c: int, k: nat): Option<int>
    requires |body.inputs| > 0 && |body.outputs| > 0
    decreases k
  {
    if k == 0 then Some(c)
    else
      match CounterStep(body, c)
      case None => None
      case Some(c') => CounterAfter(body, c', k - 1)
  }

  /** A forward body that increments its counter placeholder counts its iterations: after `k`
      of them, starting from `c`, the counter is `c + k`. */
  lemma {:induction false} ForwardCounts(body: FuncGraph, c: int, k: nat)
    requires |body.inputs| > 0 && |body.outputs| > 0
    requires IsIncrement(body.outputs[0], body.inputs[0]) && body.inputs[0].op.kind == PLACEHOLDER
    ensures CounterAfter(body, c, k) == Some(c + k)
    decreases k
  {
    if k > 0 {
      EvalIncrement(body.outputs[0], body.inputs[0], map[body.inputs[0] := c]);
      ForwardCounts(body, c + 1, k - 1);
    }
  }

  /** One iteration of the gradient loop on its two counters: the counter and the total. */
  function GradStep(gw: GradWhile, c: int, n: int): Option<(int, int)>
    requires |gw.body.inputs| >= 2 && |gw.body.outputs| >= 2
  {
    var env := map[gw.body.inputs[0] := c, gw.body.inputs[1] := n];
    var c' := Eval(gw.body.outputs[0], env);
    var n' := Eval(gw.body.outputs[1], env);
    if c'.Some? && n'.Some? then Some((c'.value, n'.value)) else None
  }

  /** Whether the gradient loop's cond lets another iteration run. */
  function GradContinues(gw: GradWhile, c: int, n: int): Option<bool>
    requires |gw.cond.inputs| >= 2 && |gw.cond.outputs| >= 1
  {
    EvalLess(gw.cond.outputs[0], map[gw.cond.inputs[0] := c, gw.cond.inputs[1] := n])
  }

  /** The number of iterations the gradient loop runs from counter `c` and total `n`, when it
      stops within `fuel` iterations. */
  function GradTrips(gw: GradWhile, c: int, n: int, fuel: nat): Option<nat>
    requires |gw.body.inputs| >= 2 && |gw.body.outputs| >= 2
    requires |gw.cond.inputs| >= 2 && |gw.cond.outputs| >= 1
    decreases fuel
  {
    match GradContinues(gw, c, n)
    case None => None
    case Some(go) =>
      if !go then Some(0)
      else if fuel == 0 then None
      else
        match GradStep(gw, c, n)
        case None => None
        case Some(next) =>
          match GradTrips(gw, next.0, next.1, fuel - 1)
          case None => None
          case Some(rest) => Some(rest + 1)
  }

  /** The gradient loop counts from `c` up to `n`: it runs `n - c` times (none when `c >= n`). */
  lemma {:induction false} GradCounts(gw: GradWhile, outer: FuncGraph, whileOp: Node, c: int, n: int, fuel: nat)
    requires CountingLoop(gw, outer, whileOp)
    requires fuel >= n - c
    ensures GradTrips(gw, c, n, fuel) == Some(if c < n then n - c else 0)
    decreases fuel
  {
    var body := gw.body;
    var env := map[body.inputs[0] := c, body.inputs[1] := n];
    var condEnv := map[gw.cond.inputs[0] := c, gw.cond.inputs[1] := n];
    assert Eval(gw.cond.inputs[0], condEnv) == Some(c);
    assert GradContinues(gw, c, n) == Some(c < n);
    if c < n {
      EvalIncrement(body.outputs[0], body.inputs[0], env);
      assert Eval(body.outputs[1], env) == Some(n);
      assert GradStep(gw, c, n) == Some((c + 1, n));
      GradCounts(gw, outer, whileOp, c + 1, n, fuel - 1);
    }
  }

  /** The gradient loop runs exactly as many times as the forward loop did: when the forward
      counter, started at 0, has gone round `k` times, the gradient loop started at 0 with that
      total runs `k` times. */
  lemma GradRunsAsOften(forwardBody: FuncGraph, gw: GradWhile, outer: FuncGraph, whileOp: Node, k: nat)
    requires |forwardBody.inputs| > 0 && |forwardBody.outputs| > 0
    requires IsIncrement(forwardBody.outputs[0], forwardBody.inputs[0]) && forwardBody.inputs[0].op.kind == PLACEHOLDER
    requires CountingLoop(gw, outer, whileOp)
    ensures CounterAfter(forwardBody, 0, k) == Some(k)
    ensures GradTrips(gw, 0, k, k) == Some(k)
  {
    ForwardCounts(forwardBody, 0, k);
    GradCounts(gw, outer, whileOp, 0, k, k);
  }
}
