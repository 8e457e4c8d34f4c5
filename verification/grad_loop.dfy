/** The gradient of a `While` operation built by the forward transformer (`_WhileGrad`).

    The gradient loop runs a second counter from 0 up to the forward loop's iteration total,
    carrying the incoming gradients of the differentiated loop variables. Its body is built by the
    differentiator inside a graph whose captures go through the resolver of `GradCapture`; the
    values popped from the forward accumulators are then threaded out as loop outputs. */
module GradLoop {
  import opened Wrappers
  import opened Shapes
  import opened Graph
  import opened Accumulation
  import opened Forward
  import opened GradCapture
  import opened GradSelect

  /** What the differentiator (`_GradientsHelper`) did while building the gradient body: the
      forward tensors it referred to, in order, and the gradient it produced for each `x`. */
  datatype Derivative = Derivative(references: seq<Tensor>, grads: seq<Option<Tensor>>)

  /** One placeholder per argument, named from `next` on, as the closure builder creates them. */
  function ArgPlaceholders(id: nat, args: seq<Tensor>, next: nat): (r: seq<Tensor>)
    ensures |r| == |args|
    ensures forall i :: 0 <= i < |r| ==>
              && r[i].op == Node(id, next + i, PLACEHOLDER, [], NoAttr, [OutType(args[i].dtype, args[i].shape)])
              && r[i].index == 0 && r[i].dtype == args[i].dtype && r[i].shape == args[i].shape
  {
    seq(|args|, i requires 0 <= i < |args| =>
        Output0(Node(id, next + i, PLACEHOLDER, [], NoAttr, [OutType(args[i].dtype, args[i].shape)])))
  }

  function OpsOf(ts: seq<Tensor>): (r: seq<Node>)
    ensures |r| == |ts| && forall i :: 0 <= i < |r| ==> r[i] == ts[i].op
  {
    seq(|ts|, i requires 0 <= i < |ts| => ts[i].op)
  }

  /** A fresh function graph holding only its argument placeholders. */
  function ArgGraph(id: nat, args: seq<Tensor>, next: nat): (g: FuncGraph)
    ensures g.id == id && g.outputs == [] && g.captures == []
    ensures g.inputs == ArgPlaceholders(id, args, next)
    ensures BuiltWithArgs(g, |args|)
  {
    var phs := ArgPlaceholders(id, args, next);
    FuncGraph(id, OpsOf(phs), phs, [], [])
  }

  /** A sequence of resolved references. */
  datatype ResolvedAll = ResolvedAll(st: Resolver, tensors: seq<Tensor>, next: nat)

  /** The differentiator's references, captured one after another (none is whitelisted). */
  function ResolveAll(st: Resolver, refs: seq<Tensor>, next: nat): (r: Result<ResolvedAll, Error>)
    requires Wf(st)
    ensures r.Success? ==> Wf(r.value.st) && Same(st, r.value.st) && r.value.next >= next
    ensures r.Success? ==> |r.value.tensors| == |refs|
    ensures r.Failure? ==> CaptureError(r.error)
    ensures r.Failure? && r.error.OutOfScopeCapture? ==> r.error.t in refs
    decreases |refs|
  {
    if refs == [] then Success(ResolvedAll(st, [], next))
    else
      var first :- GradCapture.Capture(st, refs[0], false, next);
      var rest :- ResolveAll(first.st, refs[1..], first.next);
      Success(ResolvedAll(rest.st, [first.tensor] + rest.tensors, rest.next))
  }

  /** The loop outputs added for the gradient body's captures: a popped accumulator placeholder
      contributes the list left after its pop, a captured resource is passed through, and
      anything else is refused. */
  function CaptureOutputs(ics: seq<Tensor>, popped: map<Tensor, Tensor>): (r: Result<seq<Tensor>, Error>)
    ensures r.Failure? <==> exists i :: 0 <= i < |ics| && ics[i] !in popped && ics[i].dtype != Resource
    ensures r.Failure? ==> r.error.UnresolvedCapture? && r.error.t in ics
    ensures r.Success? ==> |r.value| == |ics|
    ensures r.Success? ==> forall i :: 0 <= i < |ics| ==>
              if ics[i] in popped then r.value[i] == popped[ics[i]]
              else r.value[i] == ics[i] && ics[i].dtype == Resource
  {
    if ics == [] then Success([])
    else
      var here: Tensor :-
        if ics[0] in popped then Success(popped[ics[0]])
        else if ics[0].dtype == Resource then Success(ics[0])
        else Failure(UnresolvedCapture(ics[0]));
      var rest := CaptureOutputs(ics[1..], popped);
      assert rest.Failure? ==> exists i :: 0 <= i < |ics| && ics[i] !in popped && ics[i].dtype != Resource by {
        if rest.Failure? {
          var i :| 0 <= i < |ics[1..]| && ics[1..][i] !in popped && ics[1..][i].dtype != Resource;
          assert ics[i + 1] == ics[1..][i];
        }
      }
      if rest.Failure? then Failure(rest.error)
      else
        assert forall i :: 1 <= i < |ics| ==> ics[i] == ics[1..][i - 1];
        Success([here] + rest.value)
  }

  /** A resolver after some steps, and the next unused name. */
  datatype Stepped = Stepped(st: Resolver, next: nat)

  /** The gradient body once `_create_grad_func` returns, with its arguments. */
  datatype GradBody = GradBody(outer: FuncGraph, st: Resolver, args: seq<Tensor>, derivative: Derivative, next: nat)

  /** What the gradient setup relies on: the outer graph holds the forward `While`, whose inputs
      are outer tensors, and the gradient body, the forward body and the outer graph differ. */
  predicate GradSetting(outer: FuncGraph, whileOp: Node, forward: FuncGraph, gradId: nat) {
    && outer.id == whileOp.graph
    && gradId != forward.id && gradId != outer.id && outer.id != forward.id
    && forall x :: x in whileOp.inputs ==> GraphOf(x) == outer.id
  }

  /** `_create_grad_func` with `_grad_fn`: the arguments are a new counter at 0, the forward
      counter's final value and the incoming gradients, and the gradient body gets one placeholder
      for each; it returns the counter plus one, the total unchanged, the differentiator's
      gradients, and one output per capture, so that every popped list is carried to the next
      iteration. */
  function CreateGradFunc(outer: FuncGraph, whileOp: Node, forward: FuncGraph,
                          ys: seq<Tensor>, xs: seq<Tensor>, grads: seq<Tensor>,
                          differentiate: (seq<Tensor>, seq<Tensor>, seq<Tensor>) -> Derivative,
                          gradId: nat, next: nat): (r: Result<GradBody, Error>)
    requires GradSetting(outer, whileOp, forward, gradId)
    ensures r.Failure? ==> CaptureError(r.error) || r.error == MissingOutputGradient || r.error.UnresolvedCapture?
    ensures r.Success? ==>
              && r.value.outer.id == outer.id && outer.ops <= r.value.outer.ops
              && r.value.st.graph.id == gradId && r.value.st.forward == forward && r.value.st.whileOp == whileOp
              && Wf(r.value.st)
              && |r.value.args| == 2 + |grads| && r.value.args[2..] == grads
              && |whileOp.outTypes| > 0 && r.value.args[1] == Outputs(whileOp)[0]
              && IsCounterInit(r.value.args[0], outer.id)
              && r.value.next >= next
    ensures r.Success? ==>
              var gb := r.value;
              && gb.derivative == differentiate(ys, xs, ArgPlaceholders(gradId, gb.args, next + 1)[2..])
              && GradBodyShape(gb.st.graph, gb.st.popped, gb.derivative)
              && BuiltWithArgs(gb.st.graph, |gb.args|)
              && gb.st.graph.inputs[..|gb.args|] == ArgPlaceholders(gradId, gb.args, next + 1)
              && Consistent(gb.st) && PoppedCaptured(gb.st)
              && forall ph :: ph in gb.st.popped ==> gb.st.popped[ph] in gb.st.graph.outputs
  {
    if |ys| != |grads| then Failure(InternalAssertion)
    else if |whileOp.outTypes| == 0 then Failure(IndexOutOfRange)
    else
      var counterOp := Node(outer.id, next, CONST, [], Value(0), [OutType(Plain(true), Scalar)]);
      var args := [Output0(counterOp), Output0(whileOp)] + grads;
      var g0 := ArgGraph(gradId, args, next + 1);
      var d := differentiate(ys, xs, g0.inputs[2..]);
      var body :- BuildGradBody(Resolver(g0, forward, whileOp, map[], map[], map[]), d, |args|, next + 1 + |args|);
      Success(GradBody(AddOp(outer, counterOp), body.st, args, d, body.next))
  }

  /** The gradient body built by the differentiator from the argument placeholders: its
      references resolved, then `GradFn`. */
  function BuildGradBody(st: Resolver, d: Derivative, numArgs: nat, next: nat): (r: Result<Stepped, Error>)
    requires Wf(st) && Consistent(st) && PoppedCaptured(st)
    requires BuiltWithArgs(st.graph, numArgs) && numArgs >= 2
    ensures r.Failure? ==> CaptureError(r.error) || r.error == MissingOutputGradient || r.error.UnresolvedCapture?
    ensures r.Success? ==>
              var st2 := r.value.st;
              && Wf(st2) && st2.graph.id == st.graph.id && st2.forward == st.forward && st2.whileOp == st.whileOp
    ensures r.Success? ==>
              var st2 := r.value.st;
              && r.value.next >= next
              && GradBodyShape(st2.graph, st2.popped, d)
              && BuiltWithArgs(st2.graph, numArgs)
              && st.graph.inputs <= st2.graph.inputs
              && Consistent(st2) && PoppedCaptured(st2)
              && forall ph :: ph in st2.popped ==> st2.popped[ph] in st2.graph.outputs
  {
    var res :- ResolveAll(st, d.references, next);
    var body :- GradFn(res.st, d, res.next);
    GradBodyBuilt(st, d, numArgs, next, res, body);
    Success(Stepped(res.st.(graph := body.graph), body.next))
  }

  lemma GradBodyBuilt(st: Resolver, d: Derivative, numArgs: nat, next: nat, res: ResolvedAll, body: Grown)
    requires Wf(st) && Consistent(st) && PoppedCaptured(st)
    requires BuiltWithArgs(st.graph, numArgs) && numArgs >= 2
    requires ResolveAll(st, d.references, next) == Success(res)
    requires |res.st.graph.inputs| >= 2 && GradFn(res.st, d, res.next) == Success(body)
    ensures var st2 := res.st.(graph := body.graph);
            && Wf(st2) && st2.graph.id == st.graph.id && st2.forward == st.forward && st2.whileOp == st.whileOp
            && body.next >= next
            && GradBodyShape(st2.graph, st2.popped, d)
            && BuiltWithArgs(st2.graph, numArgs)
            && st.graph.inputs <= st2.graph.inputs
            && Consistent(st2) && PoppedCaptured(st2)
            && forall ph :: ph in st2.popped ==> st2.popped[ph] in st2.graph.outputs
  {
    ResolveAllKeeps(st, d.references, next);
    ResolveAllBuilt(st, d.references, next, numArgs);
    GradFnPopsOut(res.st, d, res.next);
  }

  /** The rest of `_grad_fn` and `_create_grad_func` once the differentiator has run: every
      gradient must be present; the outputs are the counter plus one, the total, the gradients
      and one output per capture. */
  function GradFn(st: Resolver, d: Derivative, next: nat): (r: Result<Grown, Error>)
    requires |st.graph.inputs| >= 2
    ensures (r.Failure? && r.error == MissingOutputGradient) <==> !AllPresent(d.grads)
    ensures r.Failure? && AllPresent(d.grads) ==>
              r.error.UnresolvedCapture? && r.error.t in InternalCaptures(st.graph)
    ensures r.Success? ==> GradFnOutputs(st, d, r.value.graph) && r.value.next == next + 2
  {
    if !AllPresent(d.grads) then Failure(MissingOutputGradient)
    else
      var extra :- CaptureOutputs(InternalCaptures(st.graph), st.popped);
      var g := st.graph;
      var oneOp := Node(g.id, next, CONST, [], Value(1), [OutType(Plain(true), Scalar)]);
      var incOp := Node(g.id, next + 1, ADD, [g.inputs[0], Output0(oneOp)], NoAttr, [OutType(Plain(true), Scalar)]);
      var g2 := AddOp(AddOp(g, oneOp), incOp);
      var g3 := g2.(outputs := [Output0(incOp), g.inputs[1]] + Values(d.grads) + extra);
      ValuesAllPresent(d.grads);
      assert g3.outputs[2 + |d.grads|..] == extra;
      assert g3.outputs[2..2 + |d.grads|] == Values(d.grads);
      Success(Grown(g3, next + 2))
  }

  /** The gradient body `g` that `GradFn` completes from the resolver's graph: same inputs and
      captures, and the operations extended. */
  predicate GradFnOutputs(st: Resolver, d: Derivative, g: FuncGraph) {
    && g.id == st.graph.id && g.inputs == st.graph.inputs && g.captures == st.graph.captures
    && st.graph.ops <= g.ops
    && GradBodyShape(g, st.popped, d)
  }

  /** The outputs of a gradient body: the counter plus one, the total argument unchanged, one
      output per gradient, then one per capture — the list left by its pop, or the resource
      itself. */
  predicate GradBodyShape(g: FuncGraph, popped: map<Tensor, Tensor>, d: Derivative) {
    var ics := InternalCaptures(g);
    && |g.inputs| >= 2
    && |g.outputs| == 2 + |d.grads| + |ics|
    && IsIncrement(g.outputs[0], g.inputs[0])
    && g.outputs[1] == g.inputs[1]
    && (forall i :: 0 <= i < |d.grads| ==> d.grads[i] == Some(g.outputs[2 + i]))
    && forall i :: 0 <= i < |ics| ==>
         if ics[i] in popped then g.outputs[2 + |d.grads| + i] == popped[ics[i]]
         else g.outputs[2 + |d.grads| + i] == ics[i] && ics[i].dtype == Resource
  }

  /** Resolving a series of references keeps the resolver's bookkeeping sound. */
  lemma {:induction false} ResolveAllKeeps(st: Resolver, refs: seq<Tensor>, next: nat)
    requires Wf(st) && Consistent(st) && PoppedCaptured(st)
    requires ResolveAll(st, refs, next).Success?
    ensures Consistent(ResolveAll(st, refs, next).value.st) && PoppedCaptured(ResolveAll(st, refs, next).value.st)
    decreases |refs|
  {
    if refs != [] {
      var first := GradCapture.Capture(st, refs[0], false, next).value;
      CaptureKeepsConsistent(st, refs[0], false, next);
      CaptureKeepsPoppedCaptured(st, refs[0], false, next);
      ResolveAllKeeps(first.st, refs[1..], first.next);
    }
  }

  /** Resolving a series of references keeps the argument-then-captures layout. */
  lemma {:induction false} ResolveAllBuilt(st: Resolver, refs: seq<Tensor>, next: nat, k: nat)
    requires Wf(st) && BuiltWithArgs(st.graph, k)
    requires ResolveAll(st, refs, next).Success?
    ensures BuiltWithArgs(ResolveAll(st, refs, next).value.st.graph, k)
    decreases |refs|
  {
    if refs != [] {
      var first := GradCapture.Capture(st, refs[0], false, next).value;
      CaptureKeepsBuilt(st, refs[0], false, next, k);
      ResolveAllBuilt(first.st, refs[1..], first.next, k);
    }
  }

  /** No popped list is lost: each becomes an output of the gradient body, so the next iteration
      pops from the shortened list. */
  lemma GradFnPopsOut(st: Resolver, d: Derivative, next: nat)
    requires |st.graph.inputs| >= 2 && PoppedCaptured(st)
    requires GradFn(st, d, next).Success?
    ensures forall ph :: ph in st.popped ==> st.popped[ph] in GradFn(st, d, next).value.graph.outputs
  {
    var g := GradFn(st, d, next).value.graph;
    var ics := InternalCaptures(g);
    forall ph | ph in st.popped
      ensures st.popped[ph] in g.outputs
    {
      var i :| 0 <= i < |ics| && ics[i] == ph;
      assert g.outputs[2 + |d.grads| + i] == st.popped[ph];
    }
  }

  /** The outer graph and the gradient body while the gradient body's own intermediates get
      accumulators. */
  datatype GradWired = GradWired(outer: FuncGraph, body: FuncGraph, lists: seq<Tensor>, next: nat)

  /** For each intermediate of the gradient body: an empty list in the outer graph, captured
      (whitelisted) by the gradient body, the intermediate pushed onto it, and the pushed list
      appended to the gradient body's outputs. */
  function GradAccumulators(outer: FuncGraph, body: FuncGraph, ts: seq<Tensor>, next: nat): (r: GradWired)
    requires outer.id != body.id
    ensures r.next >= next
    ensures r.outer.id == outer.id && outer.ops <= r.outer.ops
    ensures ListsFor(r.lists, ts, outer.id)
    ensures r.body.id == body.id && body.outputs <= r.body.outputs && PushesOf(r.body.outputs[|body.outputs|..], ts)
    ensures body.inputs <= r.body.inputs && body.captures <= r.body.captures
    decreases |ts|
  {
    if ts == [] then GradWired(outer, body, [], next)
    else
      var one := PushOne(outer, body, ts[0], next);
      var rest := GradAccumulators(one.outer, one.body, ts[1..], one.next);
      GradAccumulatorsStep(outer.id, body, ts, one, rest);
      GradWired(rest.outer, rest.body, one.lists + rest.lists, rest.next)
  }

  lemma GradAccumulatorsStep(outerId: nat, body: FuncGraph, ts: seq<Tensor>, one: GradWired, rest: GradWired)
    requires |ts| > 0 && |one.lists| == 1 && IsListFor(one.lists[0], ts[0], outerId)
    requires |one.body.outputs| == |body.outputs| + 1 && body.outputs <= one.body.outputs
    requires IsPushOf(one.body.outputs[|body.outputs|], ts[0])
    requires ListsFor(rest.lists, ts[1..], outerId)
    requires one.body.outputs <= rest.body.outputs && PushesOf(rest.body.outputs[|one.body.outputs|..], ts[1..])
    ensures ListsFor(one.lists + rest.lists, ts, outerId)
    ensures body.outputs <= rest.body.outputs && PushesOf(rest.body.outputs[|body.outputs|..], ts)
  {
    var pushes := rest.body.outputs[|body.outputs|..];
    assert pushes == [one.body.outputs[|body.outputs|]] + rest.body.outputs[|one.body.outputs|..];
    assert ts == [ts[0]] + ts[1..];
  }

  /** The accumulator of one gradient-body intermediate `t`. */
  function PushOne(outer: FuncGraph, body: FuncGraph, t: Tensor, next: nat): (r: GradWired)
    requires outer.id != body.id
    ensures r.next > next
    ensures |r.lists| == 1 && IsListFor(r.lists[0], t, outer.id)
    ensures r.outer.id == outer.id && r.outer.ops == outer.ops + [r.lists[0].op]
    ensures r.body == PushOnto(body, r.lists[0], t, next + 1).graph
    ensures r.body.id == body.id && body.outputs <= r.body.outputs
    ensures |r.body.outputs| == |body.outputs| + 1 && IsPushOf(r.body.outputs[|body.outputs|], t)
    ensures body.inputs <= r.body.inputs && body.captures <= r.body.captures
  {
    var listOp := Node(outer.id, next, EMPTY_LIST, [], ListAttrs(t.dtype, TensorConvertibleShape(t.shape)), [OutType(Variant, Scalar)]);
    var tl := Output0(listOp);
    var pushed := PushOnto(body, tl, t, next + 1);
    GradWired(AddOp(outer, listOp), pushed.graph, [tl], pushed.next)
  }

  /** Accumulating keeps the gradient body's inputs laid out as arguments then captures. */
  lemma {:induction false} GradAccumulatorsBuilt(outer: FuncGraph, body: FuncGraph, ts: seq<Tensor>, next: nat, k: nat)
    requires outer.id != body.id && BuiltWithArgs(body, k)
    ensures BuiltWithArgs(GradAccumulators(outer, body, ts, next).body, k)
    decreases |ts|
  {
    if ts != [] {
      var one := PushOne(outer, body, ts[0], next);
      CaptureHelperKeepsBuilt(body, k, one.lists[0], next + 1);
      GradAccumulatorsBuilt(one.outer, one.body, ts[1..], one.next, k);
    }
  }

  /** `grad_cond`: one placeholder per loop variable, and the single output
      `counter < total_iters` over the first two. */
  function GradCond(id: nat, loopVars: seq<Tensor>, next: nat): (r: Grown)
    requires |loopVars| >= 2
    ensures r.graph.id == id && r.graph.captures == []
    ensures r.graph.inputs == ArgPlaceholders(id, loopVars, next)
    ensures |r.graph.outputs| == 1
    ensures IsLess(r.graph.outputs[0], r.graph.inputs[0], r.graph.inputs[1])
    ensures r.next > next
  {
    var phs := ArgPlaceholders(id, loopVars, next);
    var less := Node(id, next + |loopVars|, LESS, [phs[0], phs[1]], NoAttr, [OutType(Plain(false), Scalar)]);
    Grown(FuncGraph(id, OpsOf(phs) + [less], phs, [Output0(less)], []), next + |loopVars| + 1)
  }

  predicate IsLess(o: Tensor, a: Tensor, b: Tensor) {
    o.op.kind == LESS && o.op.inputs == [a, b] && o.index == 0
  }

  /** The gradient loop: its `While` operation in the outer graph, its cond and body, its loop
      variables, and the gradients handed back for the forward loop's outputs. */
  datatype GradWhile = GradWhile(outer: FuncGraph, whileOp: Node, cond: FuncGraph, body: FuncGraph,
                                 loopVars: seq<Tensor>, grads: seq<Option<Tensor>>, next: nat)

  /** `_WhileGrad`: drop the gradients of `TensorArray` handles, insist every trainable
      non-resource output has one, differentiate the body for the outputs that have one,
      accumulate the gradient body's intermediates, build the counting cond, check the arity,
      emit the gradient `While`, and spread its outputs back with `None` where no gradient came
      in. */
  function WhileGrad(outer: FuncGraph, whileOp: Node, forward: FuncGraph, grads: seq<Option<Tensor>>,
                     isHandle: Tensor -> bool,
                     differentiate: (seq<Tensor>, seq<Tensor>, seq<Tensor>) -> Derivative,
                     gradId: nat, condId: nat, inXlaContext: bool, next: nat): (r: Result<GradWhile, Error>)
    requires GradSetting(outer, whileOp, forward, gradId)
    ensures r.Success? ==> |r.value.grads| == Min(|grads|, |whileOp.outTypes|)
  {
    var masked := MaskHandles(grads, Outputs(whileOp), isHandle);
    var _ :- CheckIncoming(Outputs(whileOp), masked);
    var sel :- Select(forward.outputs, forward.inputs, masked);
    DifferentiateSelection(outer, whileOp, forward, sel, masked, differentiate, gradId, condId, inXlaContext, next)
  }

  /** The errors raised once a selection of gradients is made: while resolving the gradient
      body's captures, for a missing output gradient, or at the arity check. */
  predicate BuildError(e: Error) {
    CaptureError(e) || e == MissingOutputGradient || e.UnresolvedCapture? || e == ArityMismatch
  }

  /** `_WhileGrad` from the selection on: build the gradient body, then emit the loop. */
  function DifferentiateSelection(outer: FuncGraph, whileOp: Node, forward: FuncGraph, sel: Selection,
                                  masked: seq<Option<Tensor>>,
                                  differentiate: (seq<Tensor>, seq<Tensor>, seq<Tensor>) -> Derivative,
                                  gradId: nat, condId: nat, inXlaContext: bool, next: nat): (r: Result<GradWhile, Error>)
    requires GradSetting(outer, whileOp, forward, gradId)
    ensures r.Failure? ==> BuildError(r.error)
    ensures r.Success? ==> |r.value.grads| == |masked|
    ensures r.Success? ==> CountingLoop(r.value, outer, whileOp) && PaddedGrads(r.value.grads, masked, Outputs(r.value.whileOp))
    ensures r.Success? ==>
              && r.value.outer.id == outer.id && outer.ops <= r.value.outer.ops && r.value.body.id == gradId
              && |r.value.loopVars| >= 2 + |sel.grads| && r.value.loopVars[2..2 + |sel.grads|] == sel.grads
  {
    var gb :- CreateGradFunc(outer, whileOp, forward, sel.ys, sel.xs, sel.grads, differentiate, gradId, next);
    var gw :- EmitGrad(gb, masked, condId, !inXlaContext);
    assert gb.st.graph.inputs[0] == ArgPlaceholders(gradId, gb.args, next + 1)[0];
    assert gb.st.graph.inputs[1] == ArgPlaceholders(gradId, gb.args, next + 1)[1];
    EmittedCounts(gw, gb, outer, whileOp, condId, !inXlaContext);
    Success(gw)
  }

  /** A loop emitted around the body `_create_grad_func` built counts, and carries the selected
      incoming gradients right after the two counters. */
  lemma EmittedCounts(gw: GradWhile, gb: GradBody, outer: FuncGraph, whileOp: Node, condId: nat, lower: bool)
    requires EmittedFrom(gw, gb, condId, lower)
    requires gb.outer.id == outer.id && outer.ops <= gb.outer.ops
    requires |gb.args| >= 2 && |whileOp.outTypes| > 0 && gb.args[1] == Outputs(whileOp)[0]
    requires IsCounterInit(gb.args[0], outer.id)
    requires GradBodyShape(gb.st.graph, gb.st.popped, gb.derivative) && TwoArgs(gb.st.graph.inputs)
    ensures CountingLoop(gw, outer, whileOp)
    ensures outer.ops <= gw.outer.ops
    ensures gw.loopVars[..|gb.args|] == gb.args
  {
    var g := gb.st.graph;
    assert gw.body.outputs[0] == g.outputs[0] && gw.body.outputs[1] == g.outputs[1];
    assert gw.body.inputs[0] == g.inputs[0] && gw.body.inputs[1] == g.inputs[1];
  }

  /** The second half of `_WhileGrad`: accumulators for the gradient body's intermediates, the
      counting cond, the arity check, the gradient `While`, and the padded gradients. */
  function EmitGrad(gb: GradBody, masked: seq<Option<Tensor>>, condId: nat, lower: bool): (r: Result<GradWhile, Error>)
    requires |gb.st.graph.inputs| > 0 && gb.outer.id != gb.st.graph.id && |gb.args| >= 2
    ensures r.Failure? ==> r.error == ArityMismatch || r.error == IndexOutOfRange
    ensures r.Success? ==> |r.value.grads| == |masked|
    ensures r.Success? ==> EmittedFrom(r.value, gb, condId, lower)
    ensures r.Success? ==> PaddedGrads(r.value.grads, masked, Outputs(r.value.whileOp))
  {
    var w := GradAccumulators(gb.outer, gb.st.graph, Intermediates(gb.st.graph), gb.next);
    EmitLoop(gb, w, masked, condId, lower)
  }

  /** The gradient loop around a gradient body whose intermediates are accumulated in `w`. */
  function EmitLoop(gb: GradBody, w: GradWired, masked: seq<Option<Tensor>>, condId: nat, lower: bool)
    : (r: Result<GradWhile, Error>)
    requires |gb.st.graph.inputs| > 0 && |gb.args| >= 2
    requires w.outer.id == gb.outer.id && gb.outer.ops <= w.outer.ops && w.body.id == gb.st.graph.id
    requires gb.st.graph.inputs <= w.body.inputs && gb.st.graph.outputs <= w.body.outputs
    requires PushesOf(w.body.outputs[|gb.st.graph.outputs|..], Intermediates(gb.st.graph))
    ensures r.Failure? ==> r.error == ArityMismatch || r.error == IndexOutOfRange
    ensures r.Success? ==> |r.value.grads| == |masked| && r.value.body == w.body
    ensures r.Success? ==> EmittedFrom(r.value, gb, condId, lower)
    ensures r.Success? ==> PaddedGrads(r.value.grads, masked, Outputs(r.value.whileOp))
  {
    var loopVars := gb.args + ExternalCaptures(w.body);
    var cond := GradCond(condId, loopVars, w.next);
    var _ :- CheckNumInputsOutputs(cond.graph, w.body, |loopVars|);
    var op := Node(gb.outer.id, cond.next, WHILE, loopVars, WhileAttrs(condId, gb.st.graph.id, lower),
                   LoopOutTypes(loopVars, w.body.outputs));
    if 2 + CountPresent(masked) > |loopVars| then Failure(IndexOutOfRange)
    else
      PadNonePadded(masked, Outputs(op));
      Success(GradWhile(AddOp(w.outer, op), op, cond.graph, w.body, loopVars, PadNone(masked, Outputs(op), 2), cond.next + 1))
  }

  /** The gradient loop emitted around a gradient body: its `While` in the outer graph takes the
      body's arguments and then the tensors the body captured from outside; the body keeps its
      inputs and outputs and gains one push per intermediate; cond compares the first two loop
      variables; cond, body and loop agree on the number of loop variables. */
  predicate EmittedFrom(gw: GradWhile, gb: GradBody, condId: nat, lower: bool) {
    && gw.outer.id == gb.outer.id && gb.outer.ops <= gw.outer.ops && gw.whileOp in gw.outer.ops
    && gw.whileOp.graph == gb.outer.id && gw.whileOp.kind == WHILE && gw.whileOp.inputs == gw.loopVars
    && gw.whileOp.attr == WhileAttrs(condId, gb.st.graph.id, lower)
    && |gw.whileOp.outTypes| == |gw.loopVars|
    && gw.loopVars == gb.args + ExternalCaptures(gw.body)
    && gw.body.id == gb.st.graph.id && gw.cond.id == condId
    && |gb.st.graph.inputs| > 0 && |gw.loopVars| >= 2
    && gb.st.graph.inputs <= gw.body.inputs && gb.st.graph.outputs <= gw.body.outputs
    && PushesOf(gw.body.outputs[|gb.st.graph.outputs|..], Intermediates(gb.st.graph))
    && |gw.body.inputs| == |gw.loopVars| && |gw.body.outputs| == |gw.loopVars|
    && |gw.cond.inputs| == |gw.loopVars| && |gw.cond.outputs| == 1
    && IsLess(gw.cond.outputs[0], gw.cond.inputs[0], gw.cond.inputs[1])
    && TwoArgs(gw.cond.inputs)
  }

  /** The first two inputs of a function graph are two different argument placeholders. */
  predicate TwoArgs(ins: seq<Tensor>) {
    |ins| >= 2 && ins[0].op.kind == PLACEHOLDER && ins[1].op.kind == PLACEHOLDER && ins[0] != ins[1]
  }

  /** The gradients handed back for the forward loop's outputs: `None` exactly where none came
      in, and otherwise the gradient loop's outputs from index 2 on, one each, in order. */
  predicate PaddedGrads(grads: seq<Option<Tensor>>, masked: seq<Option<Tensor>>, loopOuts: seq<Tensor>) {
    && 2 + CountPresent(masked) <= |loopOuts|
    && |grads| == |masked|
    && (forall i :: 0 <= i < |masked| ==> (grads[i].None? <==> masked[i].None?))
    && Values(grads) == loopOuts[2..2 + CountPresent(masked)]
  }

  lemma PadNonePadded(masked: seq<Option<Tensor>>, loopOuts: seq<Tensor>)
    requires 2 + CountPresent(masked) <= |loopOuts|
    ensures PaddedGrads(PadNone(masked, loopOuts, 2), masked, loopOuts)
  {
    PadNoneConsumes(masked, loopOuts, 2);
  }

  /** The gradient loop counts: its first loop variable is a fresh counter at 0, its second the
      forward loop's iteration total; the body adds one to the first and passes the second through,
      and cond compares them. */
  predicate CountingLoop(gw: GradWhile, outer: FuncGraph, whileOp: Node) {
    && |gw.loopVars| >= 2 && |whileOp.outTypes| > 0
    && IsCounterInit(gw.loopVars[0], outer.id) && gw.loopVars[1] == Outputs(whileOp)[0]
    && gw.whileOp.kind == WHILE && gw.whileOp.inputs == gw.loopVars && gw.whileOp.graph == outer.id
    && |gw.body.inputs| == |gw.loopVars| && |gw.body.outputs| == |gw.loopVars|
    && IsIncrement(gw.body.outputs[0], gw.body.inputs[0]) && gw.body.outputs[1] == gw.body.inputs[1]
    && |gw.cond.inputs| == |gw.loopVars| && |gw.cond.outputs| == 1
    && IsLess(gw.cond.outputs[0], gw.cond.inputs[0], gw.cond.inputs[1])
    && TwoArgs(gw.body.inputs) && TwoArgs(gw.cond.inputs)
  }

  /** The gradient loop refuses a trainable non-resource output without an incoming gradient
      (after handles are masked), and refuses when no output has one at all. */
  lemma WhileGradRejects(outer: FuncGraph, whileOp: Node, forward: FuncGraph, grads: seq<Option<Tensor>>,
                         isHandle: Tensor -> bool,
                         differentiate: (seq<Tensor>, seq<Tensor>, seq<Tensor>) -> Derivative,
                         gradId: nat, condId: nat, inXlaContext: bool, next: nat)
    requires GradSetting(outer, whileOp, forward, gradId)
    ensures var r := WhileGrad(outer, whileOp, forward, grads, isHandle, differentiate, gradId, condId, inXlaContext, next);
            var outs := Outputs(whileOp);
            var masked := MaskHandles(grads, outs, isHandle);
            (r.Failure? && r.error == MissingIncomingGradient) <==>
              exists i :: 0 <= i < |masked| && masked[i].None? && !MayLackGradient(outs[i])
    ensures var r := WhileGrad(outer, whileOp, forward, grads, isHandle, differentiate, gradId, condId, inXlaContext, next);
            var outs := Outputs(whileOp);
            var masked := MaskHandles(grads, outs, isHandle);
            var m := Min(Min(|forward.outputs|, |forward.inputs|), |masked|);
            (r.Failure? && r.error == NothingToDifferentiate) <==>
              CheckIncoming(outs, masked).Success? && CountPresent(masked[..m]) == 0
  {
    var outs := Outputs(whileOp);
    var masked := MaskHandles(grads, outs, isHandle);
    assert Min(|outs|, |masked|) == |masked|;
    WhileGradSteps(outer, whileOp, forward, grads, isHandle, differentiate, gradId, condId, inXlaContext, next);
    RejectsFrom(WhileGrad(outer, whileOp, forward, grads, isHandle, differentiate, gradId, condId, inXlaContext, next),
                CheckIncoming(outs, masked).Failure?, Select(forward.outputs, forward.inputs, masked).Failure?);
  }

  /** Which error a run stopping at the first failing step reports, from which steps failed. */
  lemma RejectsFrom(r: Result<GradWhile, Error>, checkFails: bool, selectFails: bool)
    requires checkFails ==> r == Failure(MissingIncomingGradient)
    requires !checkFails && selectFails ==> r == Failure(NothingToDifferentiate)
    requires !checkFails && !selectFails && r.Failure? ==> BuildError(r.error)
    ensures (r.Failure? && r.error == MissingIncomingGradient) <==> checkFails
    ensures (r.Failure? && r.error == NothingToDifferentiate) <==> !checkFails && selectFails
  {
  }

  /** `_WhileGrad` stops at the first check that fails: the incoming-gradient check, then the
      selection, then the build. */
  lemma WhileGradSteps(outer: FuncGraph, whileOp: Node, forward: FuncGraph, grads: seq<Option<Tensor>>,
                       isHandle: Tensor -> bool,
                       differentiate: (seq<Tensor>, seq<Tensor>, seq<Tensor>) -> Derivative,
                       gradId: nat, condId: nat, inXlaContext: bool, next: nat)
    requires GradSetting(outer, whileOp, forward, gradId)
    ensures var r := WhileGrad(outer, whileOp, forward, grads, isHandle, differentiate, gradId, condId, inXlaContext, next);
            var masked := MaskHandles(grads, Outputs(whileOp), isHandle);
            var checked := CheckIncoming(Outputs(whileOp), masked);
            var sel := Select(forward.outputs, forward.inputs, masked);
            && (checked.Failure? ==> r == Failure(MissingIncomingGradient))
            && (checked.Success? && sel.Failure? ==> r == Failure(NothingToDifferentiate))
            && (checked.Success? && sel.Success? && r.Failure? ==> BuildError(r.error))
  {
    var masked := MaskHandles(grads, Outputs(whileOp), isHandle);
    if CheckIncoming(Outputs(whileOp), masked).Success? && Select(forward.outputs, forward.inputs, masked).Success? {
      LaterErrors(outer, whileOp, forward, grads, isHandle, differentiate, gradId, condId, inXlaContext, next);
    }
  }

  /** Once the incoming gradients pass both checks, `_WhileGrad` can only fail while building. */
  lemma LaterErrors(outer: FuncGraph, whileOp: Node, forward: FuncGraph, grads: seq<Option<Tensor>>,
                    isHandle: Tensor -> bool,
                    differentiate: (seq<Tensor>, seq<Tensor>, seq<Tensor>) -> Derivative,
                    gradId: nat, condId: nat, inXlaContext: bool, next: nat)
    requires GradSetting(outer, whileOp, forward, gradId)
    requires CheckIncoming(Outputs(whileOp), MaskHandles(grads, Outputs(whileOp), isHandle)).Success?
    requires Select(forward.outputs, forward.inputs, MaskHandles(grads, Outputs(whileOp), isHandle)).Success?
    ensures var r := WhileGrad(outer, whileOp, forward, grads, isHandle, differentiate, gradId, condId, inXlaContext, next);
            r.Failure? ==> BuildError(r.error)
  {
    var masked := MaskHandles(grads, Outputs(whileOp), isHandle);
    var sel := Select(forward.outputs, forward.inputs, masked).value;
    assert WhileGrad(outer, whileOp, forward, grads, isHandle, differentiate, gradId, condId, inXlaContext, next)
        == DifferentiateSelection(outer, whileOp, forward, sel, masked, differentiate, gradId, condId, inXlaContext, next);
  }


  /** A gradient loop that is built counts from 0 to the forward loop's total, carries the selected
      incoming gradients after its two counters, and hands back one gradient per forward output:
      `None` exactly where none came in (or the output is a `TensorArray` handle), otherwise its
      own outputs from index 2 on, in order. */
  lemma WhileGradBuilds(outer: FuncGraph, whileOp: Node, forward: FuncGraph, grads: seq<Option<Tensor>>,
                        isHandle: Tensor -> bool,
                        differentiate: (seq<Tensor>, seq<Tensor>, seq<Tensor>) -> Derivative,
                        gradId: nat, condId: nat, inXlaContext: bool, next: nat)
    requires GradSetting(outer, whileOp, forward, gradId)
    requires WhileGrad(outer, whileOp, forward, grads, isHandle, differentiate, gradId, condId, inXlaContext, next).Success?
    ensures var gw := WhileGrad(outer, whileOp, forward, grads, isHandle, differentiate, gradId, condId, inXlaContext, next).value;
            && CountingLoop(gw, outer, whileOp)
            && PaddedGrads(gw.grads, MaskHandles(grads, Outputs(whileOp), isHandle), Outputs(gw.whileOp))
    ensures var gw := WhileGrad(outer, whileOp, forward, grads, isHandle, differentiate, gradId, condId, inXlaContext, next).value;
            var sel := Select(forward.outputs, forward.inputs, MaskHandles(grads, Outputs(whileOp), isHandle));
            && sel.Success? && gw.outer.id == outer.id && outer.ops <= gw.outer.ops && gw.body.id == gradId
            && |gw.loopVars| >= 2 + |sel.value.grads| && gw.loopVars[2..2 + |sel.value.grads|] == sel.value.grads
  {
    var masked := MaskHandles(grads, Outputs(whileOp), isHandle);
    var sel := Select(forward.outputs, forward.inputs, masked).value;
    assert WhileGrad(outer, whileOp, forward, grads, isHandle, differentiate, gradId, condId, inXlaContext, next)
        == DifferentiateSelection(outer, whileOp, forward, sel, masked, differentiate, gradId, condId, inXlaContext, next);
  }

  /** The gradient loop's loop variable `2 + k` and its output `2 + k` belong to the same forward
      output: the `k`-th one that received a gradient. The incoming gradient goes in there, and
      the gradient handed back for that forward output is what comes out there. */
  lemma WhileGradAligned(outer: FuncGraph, whileOp: Node, forward: FuncGraph, grads: seq<Option<Tensor>>,
                         isHandle: Tensor -> bool,
                         differentiate: (seq<Tensor>, seq<Tensor>, seq<Tensor>) -> Derivative,
                         gradId: nat, condId: nat, inXlaContext: bool, next: nat)
    requires GradSetting(outer, whileOp, forward, gradId)
    requires |whileOp.outTypes| <= |forward.outputs| && |whileOp.outTypes| <= |forward.inputs|
    requires WhileGrad(outer, whileOp, forward, grads, isHandle, differentiate, gradId, condId, inXlaContext, next).Success?
    ensures GradsAligned(WhileGrad(outer, whileOp, forward, grads, isHandle, differentiate, gradId, condId, inXlaContext, next).value,
                         MaskHandles(grads, Outputs(whileOp), isHandle))
  {
    var gw := WhileGrad(outer, whileOp, forward, grads, isHandle, differentiate, gradId, condId, inXlaContext, next).value;
    var masked := MaskHandles(grads, Outputs(whileOp), isHandle);
    WhileGradBuilds(outer, whileOp, forward, grads, isHandle, differentiate, gradId, condId, inXlaContext, next);
    var sel := Select(forward.outputs, forward.inputs, masked).value;
    assert masked[..|masked|] == masked;
    AlignedFrom(gw, masked, sel.grads);
  }

  /** For each forward output `i` that received a gradient, the `k`-th one: loop variable `2 + k`
      of the gradient loop is that incoming gradient, and the loop's output `2 + k` is the gradient
      handed back for `i`. */
  predicate GradsAligned(gw: GradWhile, masked: seq<Option<Tensor>>) {
    && |gw.grads| == |masked|
    && forall k :: 0 <= k < CountPresent(masked) ==>
      var i := PresentIndices(masked)[k];
      && i < |masked| && 2 + k < |gw.loopVars| && 2 + k < |gw.whileOp.outTypes|
      && masked[i] == Some(gw.loopVars[2 + k])
      && gw.grads[i] == Some(Outputs(gw.whileOp)[2 + k])
  }

  /** Loop variables that start with the counters and then the present incoming gradients, and
      gradients padded from the loop's outputs, line up position by position. */
  lemma AlignedFrom(gw: GradWhile, masked: seq<Option<Tensor>>, selGrads: seq<Tensor>)
    requires selGrads == Values(masked)
    requires |gw.loopVars| >= 2 + |selGrads| && gw.loopVars[2..2 + |selGrads|] == selGrads
    requires PaddedGrads(gw.grads, masked, Outputs(gw.whileOp))
    ensures GradsAligned(gw, masked)
  {
    ValuesAt(masked);
    ValuesAt(gw.grads);
    PresentSame(gw.grads, masked);
    var outs := Outputs(gw.whileOp);
    forall k | 0 <= k < CountPresent(masked)
      ensures var i := PresentIndices(masked)[k];
              && i < |masked| && 2 + k < |gw.loopVars| && 2 + k < |gw.whileOp.outTypes|
              && masked[i] == Some(gw.loopVars[2 + k])
              && gw.grads[i] == Some(outs[2 + k])
    {
      assert gw.loopVars[2 + k] == selGrads[k];
      assert Values(gw.grads)[k] == outs[2 + k];
    }
  }
}
