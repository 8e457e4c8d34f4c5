/** `while_loop`: turns a user loop into one `While` operation whose loop variables are
    `[counter] ++ user variables ++ cond captures ++ body captures ++ accumulators`. */
module Forward {
  import opened Wrappers
  import opened Shapes
  import opened Graph
  import opened Accumulation

  /** What the closure builder returns for the user's body: the graph (its inputs are the
      placeholders of the loop variables it was built with, then one per capture) and the
      flattened tensors the user function returned. */
  datatype BodyClosure = BodyClosure(graph: FuncGraph, results: seq<Tensor>)

  /** The assembled loop. `accumulated` lists the intermediates that received an accumulator. */
  datatype Forward = Forward(
    outer: FuncGraph, whileOp: Node, cond: FuncGraph, body: FuncGraph,
    loopVars: seq<Tensor>, accumulated: seq<Tensor>, results: seq<Tensor>, next: nat)

  function ShapesOf(ts: seq<Tensor>): (r: seq<Shape>)
    ensures |r| == |ts| && forall i :: 0 <= i < |ts| ==> r[i] == ts[i].shape
  {
    seq(|ts|, i requires 0 <= i < |ts| => ts[i].shape)
  }

  /** `_check_shapes_compat` over the loop variables from position `start` on: every output shape
      must be at most as specific as its invariant (`leq` is `_ShapeLessThanOrEqual`); the first
      offender is reported. */
  function ShapesCompatFrom(outs: seq<Tensor>, invariants: seq<Shape>, leq: (Shape, Shape) -> bool, start: nat)
    : (r: Result<(), Error>)
    ensures r.Success? <==> forall i :: 0 <= i < |outs| && i < |invariants| ==> leq(outs[i].shape, invariants[i])
    ensures r.Failure? ==> exists i :: 0 <= i < |outs| && i < |invariants| && !leq(outs[i].shape, invariants[i])
                             && r.error == ShapeIncompatible(start + i)
                             && forall j :: 0 <= j < i ==> leq(outs[j].shape, invariants[j])
  {
    if |outs| == 0 || |invariants| == 0 then Success(())
    else if !leq(outs[0].shape, invariants[0]) then Failure(ShapeIncompatible(start))
    else
      var rest := ShapesCompatFrom(outs[1..], invariants[1..], leq, start + 1);
      assert rest.Success? ==> forall i :: 0 <= i < |outs| && i < |invariants| ==> leq(outs[i].shape, invariants[i]) by {
        if rest.Success? {
          forall i | 0 <= i < |outs| && i < |invariants|
            ensures leq(outs[i].shape, invariants[i])
          {
            if i > 0 { assert outs[i] == outs[1..][i - 1] && invariants[i] == invariants[1..][i - 1]; }
          }
        }
      }
      assert rest.Failure? ==> exists i :: 0 <= i < |outs| && i < |invariants| && !leq(outs[i].shape, invariants[i])
                                 && rest.error == ShapeIncompatible(start + i)
                                 && forall j :: 0 <= j < i ==> leq(outs[j].shape, invariants[j]) by {
        if rest.Failure? {
          var k :| 0 <= k < |outs[1..]| && k < |invariants[1..]| && !leq(outs[1..][k].shape, invariants[1..][k])
                   && rest.error == ShapeIncompatible(start + 1 + k)
                   && forall j :: 0 <= j < k ==> leq(outs[1..][j].shape, invariants[1..][j]);
          forall j | 0 <= j < k + 1
            ensures leq(outs[j].shape, invariants[j])
          {
            if j > 0 { assert outs[j] == outs[1..][j - 1] && invariants[j] == invariants[1..][j - 1]; }
          }
          assert outs[k + 1] == outs[1..][k] && invariants[k + 1] == invariants[1..][k];
        }
      }
      rest
  }

  /** `_check_num_inputs_outputs`. */
  function CheckNumInputsOutputs(cond: FuncGraph, body: FuncGraph, numLoopVars: nat): Result<(), Error> {
    if |cond.inputs| != numLoopVars || |cond.outputs| != 1
       || |body.inputs| != numLoopVars || |body.outputs| != numLoopVars
    then Failure(ArityMismatch)
    else Success(())
  }

  /** Captures each of the body's external captures in cond, refusing one cond already captures. */
  function CaptureInCond(cond: FuncGraph, exts: seq<Tensor>, next: nat): (r: Result<Grown, Error>)
    requires forall i, j :: 0 <= i < j < |exts| ==> exts[i] != exts[j]
    requires forall e :: e in exts ==> GraphOf(e) != cond.id
    ensures r.Failure? <==> exists e :: e in exts && IsCaptured(cond, e)
    ensures r.Failure? ==> r.error.SharedCapture? && r.error.t in exts && IsCaptured(cond, r.error.t)
    decreases |exts|
  {
    if exts == [] then Success(Grown(cond, next))
    else if IsCaptured(cond, exts[0]) then Failure(SharedCapture(exts[0]))
    else
      var cap := CaptureTensor(cond, exts[0], next);
      CaptureKeepsOthers(cond, exts, next);
      CaptureInCond(cap.graph, exts[1..], cap.next)
  }

  lemma CaptureKeepsOthers(cond: FuncGraph, exts: seq<Tensor>, next: nat)
    requires |exts| > 0
    requires forall i, j :: 0 <= i < j < |exts| ==> exts[i] != exts[j]
    requires GraphOf(exts[0]) != cond.id && !IsCaptured(cond, exts[0])
    ensures forall e :: e in exts[1..] ==> IsCaptured(CaptureTensor(cond, exts[0], next).graph, e) == IsCaptured(cond, e)
  {
    var cap := CaptureTensor(cond, exts[0], next);
    forall e | e in exts[1..]
      ensures IsCaptured(cap.graph, e) == IsCaptured(cond, e)
    {
      LookupCaptureOther(cond.captures, Capture(exts[0], cap.tensor), e);
    }
  }

  /** On success cond gains one input per body capture, and those captures follow its own. */
  lemma {:induction false} CaptureInCondGrows(cond: FuncGraph, exts: seq<Tensor>, next: nat)
    requires forall i, j :: 0 <= i < j < |exts| ==> exts[i] != exts[j]
    requires forall e :: e in exts ==> GraphOf(e) != cond.id
    requires CaptureInCond(cond, exts, next).Success?
    ensures var r := CaptureInCond(cond, exts, next).value;
            && r.graph.id == cond.id
            && r.graph.outputs == cond.outputs
            && |r.graph.inputs| == |cond.inputs| + |exts|
            && ExternalCaptures(r.graph) == ExternalCaptures(cond) + exts
            && r.next >= next
    decreases |exts|
  {
    if exts != [] {
      var cap := CaptureTensor(cond, exts[0], next);
      CaptureOneGrows(cond, exts[0], next);
      CaptureKeepsOthers(cond, exts, next);
      CaptureInCondGrows(cap.graph, exts[1..], cap.next);
      AppendHead(ExternalCaptures(cond), exts);
    }
  }

  lemma AppendHead<T>(a: seq<T>, xs: seq<T>)
    requires |xs| > 0
    ensures a + [xs[0]] + xs[1..] == a + xs
  {
    assert xs == [xs[0]] + xs[1..];
  }

  /** Capturing a tensor cond does not capture yet adds one input and one capture. */
  lemma CaptureOneGrows(cond: FuncGraph, e: Tensor, next: nat)
    requires GraphOf(e) != cond.id && !IsCaptured(cond, e)
    ensures var cap := CaptureTensor(cond, e, next);
            && cap.graph.id == cond.id && cap.graph.outputs == cond.outputs
            && |cap.graph.inputs| == |cond.inputs| + 1
            && ExternalCaptures(cap.graph) == ExternalCaptures(cond) + [e]
            && cap.next >= next
  {
    var cap := CaptureHelper(cond, e, next);
    assert cap.graph.captures == cond.captures + [Capture(e, cap.tensor)];
  }

  lemma {:induction false} CaptureInCondNames(cond: FuncGraph, exts: seq<Tensor>, next: nat)
    requires forall i, j :: 0 <= i < j < |exts| ==> exts[i] != exts[j]
    requires forall e :: e in exts ==> GraphOf(e) != cond.id
    requires CaptureInCond(cond, exts, next).Success?
    requires NamesBelow(cond, next) && TensorsBelow(exts, next)
    ensures NamesBelow(CaptureInCond(cond, exts, next).value.graph, CaptureInCond(cond, exts, next).value.next)
    decreases |exts|
  {
    if exts != [] {
      var cap := CaptureHelper(cond, exts[0], next);
      CaptureKeepsOthers(cond, exts, next);
      CaptureHelperNamesBelow(cond, exts[0], next);
      CaptureInCondNames(cap.graph, exts[1..], cap.next);
    }
  }

  /** The wrapped body: the counter incremented by one, the user's results, the cond captures
      passed through unchanged, then the body's own captures passed through. */
  function WrapBody(body: BodyClosure, n: nat, c: nat, next: nat): (r: Grown)
    requires |body.graph.inputs| >= 1 + n + c
    ensures r.graph.id == body.graph.id && r.graph.inputs == body.graph.inputs && r.graph.captures == body.graph.captures
    ensures |r.graph.outputs| > 0
    ensures r.graph.outputs == [r.graph.outputs[0]] + body.results + body.graph.inputs[1 + n .. 1 + n + c]
                               + InternalCaptures(body.graph)
    ensures r.graph.outputs[0].op.kind == ADD && |r.graph.outputs[0].op.inputs| == 2
    ensures r.graph.outputs[0].op.inputs[0] == body.graph.inputs[0]
    ensures r.graph.outputs[0].op.inputs[1].op.kind == CONST && r.graph.outputs[0].op.inputs[1].op.attr == Value(1)
    ensures r.next == next + 2
  {
    var g := body.graph;
    var one := NewNode(g, next, CONST, [], Value(1), OutType(Plain(true), Scalar));
    var inc := NewNode(g, next + 1, ADD, [g.inputs[0], Output0(one)], NoAttr, OutType(Plain(true), Scalar));
    var outs := [Output0(inc)] + body.results + g.inputs[1 + n .. 1 + n + c] + InternalCaptures(g);
    Grown(g.(ops := g.ops + [one, inc], outputs := outs), next + 2)
  }

  /** The wrapped body returns the user's results right after the counter. */
  lemma WrapBodyResults(body: BodyClosure, n: nat, c: nat, next: nat)
    requires |body.graph.inputs| >= 1 + n + c && |body.results| == n
    ensures var outs := WrapBody(body, n, c, next).graph.outputs;
            |outs| >= 1 + n && outs[1 .. 1 + n] == body.results
  {
    var outs := WrapBody(body, n, c, next).graph.outputs;
    var rest := body.graph.inputs[1 + n .. 1 + n + c] + InternalCaptures(body.graph);
    assert outs == [outs[0]] + body.results + rest;
  }

  /** `v` is the empty list created in the outer graph to accumulate `t`: its element dtype is
      `t`'s and its element shape is `t`'s convertible shape. */
  predicate IsListFor(v: Tensor, t: Tensor, outerId: nat) {
    && v.op.kind == EMPTY_LIST
    && v.op.attr == ListAttrs(t.dtype, TensorConvertibleShape(t.shape))
    && GraphOf(v) == outerId
  }

  /** `o` is the list obtained by pushing `t`. */
  predicate IsPushOf(o: Tensor, t: Tensor) {
    o.op.kind == PUSH_BACK && |o.op.inputs| == 2 && o.op.inputs[1] == t
  }

  /** `vs` are the lists created for the intermediates `ts`, one each, in order. */
  predicate ListsFor(vs: seq<Tensor>, ts: seq<Tensor>, outerId: nat) {
    |vs| == |ts| && forall j :: 0 <= j < |ts| ==> IsListFor(vs[j], ts[j], outerId)
  }

  /** `os` are the lists obtained by pushing the intermediates `ts`, one each, in order. */
  predicate PushesOf(os: seq<Tensor>, ts: seq<Tensor>) {
    |os| == |ts| && forall j :: 0 <= j < |ts| ==> IsPushOf(os[j], ts[j])
  }

  /** The state while accumulators are wired in. */
  datatype Wired = Wired(outer: FuncGraph, cond: FuncGraph, body: FuncGraph, loopVars: seq<Tensor>, next: nat)

  /** For each intermediate: an empty list in the outer graph, appended to the loop variables and
      captured by cond; in the body it is captured, the intermediate is pushed onto it and the pushed
      list becomes a new body output. */
  function WireAccumulators(outer: FuncGraph, cond: FuncGraph, body: FuncGraph, loopVars: seq<Tensor>,
                            ts: seq<Tensor>, next: nat): (r: Wired)
    requires outer.id != cond.id && outer.id != body.id
    ensures r.next >= next
    ensures r.outer.id == outer.id && outer.ops <= r.outer.ops
    ensures loopVars <= r.loopVars && ListsFor(r.loopVars[|loopVars|..], ts, outer.id)
    ensures r.cond.id == cond.id && r.cond.outputs == cond.outputs
    ensures r.body.id == body.id && body.outputs <= r.body.outputs && PushesOf(r.body.outputs[|body.outputs|..], ts)
    decreases |ts|
  {
    if ts == [] then Wired(outer, cond, body, loopVars, next)
    else
      var step := WireOne(outer, cond, body, ts[0], next);
      var rest := WireAccumulators(step.outer, step.cond, step.body, loopVars + step.loopVars, ts[1..], step.next);
      WireAccumulatorsStep(outer.id, loopVars, body, ts, step, rest);
      rest
  }

  lemma WireAccumulatorsStep(outerId: nat, loopVars: seq<Tensor>, body: FuncGraph, ts: seq<Tensor>, step: Wired, rest: Wired)
    requires |ts| > 0 && |step.loopVars| == 1
    requires |step.body.outputs| == |body.outputs| + 1 && body.outputs <= step.body.outputs
    requires loopVars + step.loopVars <= rest.loopVars && ListsFor(rest.loopVars[|loopVars + step.loopVars|..], ts[1..], outerId)
    requires step.body.outputs <= rest.body.outputs && PushesOf(rest.body.outputs[|step.body.outputs|..], ts[1..])
    requires IsListFor(step.loopVars[0], ts[0], outerId) && IsPushOf(step.body.outputs[|body.outputs|], ts[0])
    ensures loopVars <= rest.loopVars && ListsFor(rest.loopVars[|loopVars|..], ts, outerId)
    ensures body.outputs <= rest.body.outputs && PushesOf(rest.body.outputs[|body.outputs|..], ts)
  {
    var lists := rest.loopVars[|loopVars|..];
    assert lists == [step.loopVars[0]] + rest.loopVars[|loopVars + step.loopVars|..];
    var pushes := rest.body.outputs[|body.outputs|..];
    assert pushes == [step.body.outputs[|body.outputs|]] + rest.body.outputs[|step.body.outputs|..];
    assert ts == [ts[0]] + ts[1..];
  }

  /** Wiring of one intermediate `t`; `loopVars` of the result holds just the new list. */
  function WireOne(outer: FuncGraph, cond: FuncGraph, body: FuncGraph, t: Tensor, next: nat): (r: Wired)
    requires outer.id != cond.id && outer.id != body.id
    ensures r.next > next
    ensures |r.loopVars| == 1
    ensures r.outer.id == outer.id && r.outer.ops == outer.ops + [r.loopVars[0].op]
    ensures r.loopVars[0].op.kind == EMPTY_LIST && r.loopVars[0].op.name == next
    ensures r.loopVars[0].op.attr == ListAttrs(t.dtype, TensorConvertibleShape(t.shape))
    ensures GraphOf(r.loopVars[0]) == outer.id
    ensures r.cond == CaptureTensor(cond, r.loopVars[0], next).graph
    ensures r.body == PushOnto(body, r.loopVars[0], t, next).graph
    ensures r.next == PushOnto(body, r.loopVars[0], t, next).next
  {
    var listOp := Node(outer.id, next, EMPTY_LIST, [], ListAttrs(t.dtype, TensorConvertibleShape(t.shape)), [OutType(Variant, Scalar)]);
    var tl := Output0(listOp);
    var condCap := CaptureTensor(cond, tl, next);
    var pushed := PushOnto(body, tl, t, next);
    Wired(AddOp(outer, listOp), condCap.graph, pushed.graph, [tl], pushed.next)
  }

  lemma WireOneCond(outer: FuncGraph, cond: FuncGraph, body: FuncGraph, t: Tensor, next: nat)
    requires outer.id != cond.id && outer.id != body.id
    requires NamesBelow(cond, next)
    ensures var r := WireOne(outer, cond, body, t, next);
            NamesBelow(r.cond, r.next) && |r.cond.inputs| == |cond.inputs| + 1
  {
    var r := WireOne(outer, cond, body, t, next);
    var tl := r.loopVars[0];
    assert !IsCaptured(cond, tl);
    var cap := CaptureHelper(cond, tl, next);
    CaptureHelperNamesBelow(cond, tl, next);
    NamesBelowMonotone(cap.graph, cap.next, r.next);
  }

  lemma WireOneBody(outer: FuncGraph, cond: FuncGraph, body: FuncGraph, t: Tensor, next: nat)
    requires outer.id != cond.id && outer.id != body.id
    requires NamesBelow(body, next) && t.op.name < next
    ensures var r := WireOne(outer, cond, body, t, next);
            && NamesBelow(r.body, r.next)
            && |r.body.inputs| == |body.inputs| + 1
            && Extends(body, r.body, next)
            && (|body.inputs| == |body.outputs| ==> GetAccumulator(r.body, t).Some?)
  {
    var r := WireOne(outer, cond, body, t, next);
    var tl := r.loopVars[0];
    assert !IsCaptured(body, tl);
    PushOntoFacts(body, tl, t, next);
  }

  lemma PushOntoFacts(body: FuncGraph, tl: Tensor, t: Tensor, next: nat)
    requires GraphOf(tl) != body.id && tl.op.name <= next && !IsCaptured(body, tl)
    requires NamesBelow(body, next) && t.op.name < next
    ensures var p := PushOnto(body, tl, t, next);
            && NamesBelow(p.graph, p.next)
            && |p.graph.inputs| == |body.inputs| + 1
            && Extends(body, p.graph, next)
            && (|body.inputs| == |body.outputs| ==> GetAccumulator(p.graph, t).Some?)
  {
    PushOntoExtends(body, tl, t, next);
    if |body.inputs| == |body.outputs| {
      PushOntoAccumulates(body, tl, t, next);
    }
  }

  /** Wiring gives cond and body one more input per intermediate and keeps every name below
      the counter it returns. */
  lemma {:induction false} WireAccumulatorsNames(outer: FuncGraph, cond: FuncGraph, body: FuncGraph,
                                                 loopVars: seq<Tensor>, ts: seq<Tensor>, next: nat)
    requires outer.id != cond.id && outer.id != body.id
    requires NamesBelow(cond, next) && NamesBelow(body, next) && TensorsBelow(ts, next)
    ensures var r := WireAccumulators(outer, cond, body, loopVars, ts, next);
            && NamesBelow(r.cond, r.next) && NamesBelow(r.body, r.next)
            && |r.cond.inputs| == |cond.inputs| + |ts|
            && |r.body.inputs| == |body.inputs| + |ts|
    decreases |ts|
  {
    if ts != [] {
      var step := WireOne(outer, cond, body, ts[0], next);
      WireOneCond(outer, cond, body, ts[0], next);
      WireOneBody(outer, cond, body, ts[0], next);
      assert TensorsBelow(ts[1..], step.next) by {
        forall u | u in ts[1..] ensures u.op.name < step.next { assert u in ts; }
      }
      WireAccumulatorsNames(step.outer, step.cond, step.body, loopVars + step.loopVars, ts[1..], step.next);
    }
  }

  /** The wired body extends the original one, and every intermediate ends up with an
      accumulator when the body had as many inputs as outputs to begin with. */
  lemma {:induction false} WireAccumulatorsGrows(outer: FuncGraph, cond: FuncGraph, body: FuncGraph,
                                                 loopVars: seq<Tensor>, ts: seq<Tensor>, next: nat)
    requires outer.id != cond.id && outer.id != body.id
    requires NamesBelow(cond, next) && NamesBelow(body, next) && TensorsBelow(ts, next)
    requires |body.inputs| == |body.outputs|
    ensures var r := WireAccumulators(outer, cond, body, loopVars, ts, next);
            && Extends(body, r.body, next)
            && forall u :: u in ts ==> GetAccumulator(r.body, u).Some?
    decreases |ts|
  {
    if ts != [] {
      var step := WireOne(outer, cond, body, ts[0], next);
      WireOneCond(outer, cond, body, ts[0], next);
      WireOneBody(outer, cond, body, ts[0], next);
      assert TensorsBelow(ts[1..], step.next) by {
        forall u | u in ts[1..] ensures u.op.name < step.next { assert u in ts; }
      }
      var r := WireAccumulators(step.outer, step.cond, step.body, loopVars + step.loopVars, ts[1..], step.next);
      WireAccumulatorsGrows(step.outer, step.cond, step.body, loopVars + step.loopVars, ts[1..], step.next);
      ExtendsTransitive(body, step.body, r.body, next, step.next);
      AccumulatorKept(step.body, r.body, step.next, ts[0]);
      forall u | u in ts
        ensures GetAccumulator(r.body, u).Some?
      {
        if u != ts[0] { assert u in ts[1..]; }
      }
    }
  }

  /** What the closure builder guarantees about the cond and body graphs it returns for `n` user
      loop variables: cond was built with the counter and the user variables as arguments, the body
      additionally with one argument per cond capture; the graphs are distinct; the body's outer
      captures do not come from cond; every name they mention is below `next`. */
  predicate BuiltFor(outer: FuncGraph, cond: FuncGraph, body: BodyClosure, n: nat, next: nat) {
    && outer.id != cond.id && outer.id != body.graph.id && cond.id != body.graph.id
    && BuiltWithArgs(cond, 1 + n)
    && BuiltWithArgs(body.graph, 1 + n + |cond.captures|)
    && (forall c :: c in body.graph.captures ==> GraphOf(c.external) != cond.id)
    && NamesBelow(cond, next) && NamesBelow(body.graph, next) && TensorsBelow(body.results, next)
  }

  predicate OutsideOf(ts: seq<Tensor>, id: nat) {
    forall t :: t in ts ==> GraphOf(t) != id
  }

  /** What `WhileLoop` itself relies on: the graphs are distinct, the body has arguments for the
      counter, the user variables and cond's captures, and its outer captures are distinct tensors
      from outside cond. */
  predicate Assemblable(outer: FuncGraph, cond: FuncGraph, body: BodyClosure, n: nat) {
    && outer.id != cond.id && outer.id != body.graph.id
    && |body.graph.inputs| >= 1 + n + |cond.captures|
    && Distinct(ExternalCaptures(body.graph)) && OutsideOf(ExternalCaptures(body.graph), cond.id)
  }

  lemma BuiltForAssemblable(outer: FuncGraph, cond: FuncGraph, body: BodyClosure, n: nat, next: nat)
    requires BuiltFor(outer, cond, body, n, next)
    ensures Assemblable(outer, cond, body, n) && TensorsBelow(ExternalCaptures(body.graph), next)
  {
    BuiltForExternals(outer, cond, body, n, next);
  }

  /** The loop before accumulators: counter created, body wrapped, body captures given to cond. */
  datatype Staged = Staged(outer: FuncGraph, cond: FuncGraph, body: FuncGraph, loopVars: seq<Tensor>, next: nat)

  /** The loop counter: a scalar constant 0 in the outer graph. */
  predicate IsCounterInit(v: Tensor, outerId: nat) {
    v.op.kind == CONST && v.op.attr == Value(0) && v.op.inputs == [] && GraphOf(v) == outerId
  }

  function Setup(outer: FuncGraph, loopVars: seq<Tensor>, cond: FuncGraph, body: BodyClosure, next: nat)
    : (r: Result<Staged, Error>)
    requires Assemblable(outer, cond, body, |loopVars|)
    ensures r.Success? ==>
              && |body.results| == |loopVars|
              && r.value.outer.id == outer.id && r.value.cond.id == cond.id && r.value.body.id == body.graph.id
              && |r.value.body.inputs| > 0 && |r.value.body.outputs| >= 1 + |loopVars|
              && |r.value.loopVars| > 0 && IsCounterInit(r.value.loopVars[0], outer.id)
              && r.value.loopVars == [r.value.loopVars[0]] + loopVars + ExternalCaptures(cond) + ExternalCaptures(body.graph)
              && r.value.body == WrapBody(body, |loopVars|, |cond.captures|, next + 1).graph
              && CaptureInCond(cond, ExternalCaptures(body.graph), next + 3) == Success(Grown(r.value.cond, r.value.next))
              && r.value.next >= next + 3
  {
    var n := |loopVars|;
    if |body.results| != n then Failure(StructureMismatch)
    else
      var counterOp := Node(outer.id, next, CONST, [], Value(0), [OutType(Plain(true), Scalar)]);
      var wrapped := WrapBody(body, n, |cond.captures|, next + 1);
      var capped :- CaptureInCond(cond, ExternalCaptures(body.graph), wrapped.next);
      CaptureInCondGrows(cond, ExternalCaptures(body.graph), wrapped.next);
      Success(Staged(AddOp(outer, counterOp), capped.graph, wrapped.graph,
                     [Output0(counterOp)] + loopVars + ExternalCaptures(cond) + ExternalCaptures(body.graph), capped.next))
  }

  lemma WrapBodyNames(body: BodyClosure, n: nat, c: nat, next: nat)
    requires |body.graph.inputs| >= 1 + n + c
    requires NamesBelow(body.graph, next) && TensorsBelow(body.results, next)
    ensures NamesBelow(WrapBody(body, n, c, next).graph, next + 2)
  {
    var g := body.graph;
    var r := WrapBody(body, n, c, next).graph;
    forall t | t in r.outputs ensures t.op.name < next + 2 {
      if t != r.outputs[0] {
        var rest := body.results + g.inputs[1 + n .. 1 + n + c] + InternalCaptures(g);
        assert r.outputs == [r.outputs[0]] + rest;
        assert t in rest;
        if t !in body.results && t !in g.inputs[1 + n .. 1 + n + c] {
          var i :| 0 <= i < |InternalCaptures(g)| && InternalCaptures(g)[i] == t;
          assert g.captures[i] in g.captures;
        }
      }
    }
  }

  lemma BuiltForExternals(outer: FuncGraph, cond: FuncGraph, body: BodyClosure, n: nat, next: nat)
    requires BuiltFor(outer, cond, body, n, next)
    ensures var exts := ExternalCaptures(body.graph);
            Distinct(exts) && OutsideOf(exts, cond.id) && TensorsBelow(exts, next)
  {
    var exts := ExternalCaptures(body.graph);
    forall e | e in exts ensures GraphOf(e) != cond.id && e.op.name < next {
      var i :| 0 <= i < |exts| && exts[i] == e;
      assert body.graph.captures[i] in body.graph.captures;
    }
  }

  /** Staging gives cond one input per loop variable so far and keeps its names below the counter
      returned. */
  lemma SetupCond(outer: FuncGraph, loopVars: seq<Tensor>, cond: FuncGraph, body: BodyClosure, next: nat)
    requires BuiltWithArgs(cond, 1 + |loopVars|) && NamesBelow(cond, next)
    requires Assemblable(outer, cond, body, |loopVars|) && TensorsBelow(ExternalCaptures(body.graph), next)
    requires Setup(outer, loopVars, cond, body, next).Success?
    ensures var s := Setup(outer, loopVars, cond, body, next).value;
            && NamesBelow(s.cond, s.next) && |s.cond.inputs| == |s.loopVars| && s.cond.outputs == cond.outputs
            && s.cond.id == cond.id && s.next >= next + 3
  {
    var exts := ExternalCaptures(body.graph);
    NamesBelowMonotone(cond, next, next + 3);
    assert TensorsBelow(exts, next + 3);
    CaptureInCondGrows(cond, exts, next + 3);
    CaptureInCondNames(cond, exts, next + 3);
  }

  /** The wrapped body has one input and one output per loop variable so far, and its names stay
      below any later counter. */
  lemma WrapBodyFacts(body: BodyClosure, n: nat, c: nat, k: nat, next: nat, m: nat)
    requires BuiltWithArgs(body.graph, 1 + n + c) && |body.results| == n
    requires NamesBelow(body.graph, k) && TensorsBelow(body.results, k) && k <= next && m >= next + 2
    ensures var g := WrapBody(body, n, c, next).graph;
            && NamesBelow(g, m)
            && |g.inputs| == 1 + n + c + |body.graph.captures| && |g.outputs| == |g.inputs|
  {
    NamesBelowMonotone(body.graph, k, next);
    WrapBodyNames(body, n, c, next);
    NamesBelowMonotone(WrapBody(body, n, c, next).graph, next + 2, m);
  }

  /** Output types of the `While` op: the loop variables' dtypes with the body outputs' shapes. */
  function LoopOutTypes(loopVars: seq<Tensor>, bodyOutputs: seq<Tensor>): (r: seq<OutType>)
    requires |loopVars| == |bodyOutputs|
    ensures |r| == |loopVars|
    ensures forall i :: 0 <= i < |r| ==> r[i] == OutType(loopVars[i].dtype, bodyOutputs[i].shape)
  {
    seq(|loopVars|, i requires 0 <= i < |loopVars| => OutType(loopVars[i].dtype, bodyOutputs[i].shape))
  }

  /** One `Identity` per tensor of `outs`, named from `start` on. */
  function Identities(outs: seq<Tensor>, graph: nat, start: nat): (r: seq<Node>)
    ensures |r| == |outs|
    ensures forall i :: 0 <= i < |r| ==>
              && r[i].kind == IDENTITY && r[i].inputs == [outs[i]] && r[i].graph == graph
              && r[i].name == start + i && |r[i].outTypes| == 1
  {
    seq(|outs|, i requires 0 <= i < |outs| =>
        Node(graph, start + i, IDENTITY, [outs[i]], NoAttr, [OutType(outs[i].dtype, outs[i].shape)]))
  }

  lemma AppendedIn(pre: seq<Node>, ns: seq<Node>)
    ensures forall j :: 0 <= j < |ns| ==> ns[j] in pre + ns
  {
    forall j | 0 <= j < |ns| ensures ns[j] in pre + ns {
      assert (pre + ns)[|pre| + j] == ns[j];
    }
  }

  /** Output 0 of the `Identity` of `outs[1 + i]`, for each `i < n`: the user-visible results. */
  function IdentityResults(outs: seq<Tensor>, graph: nat, start: nat, n: nat): (r: seq<Tensor>)
    requires 1 + n <= |outs|
    ensures |r| == n
    ensures forall i :: 0 <= i < n ==>
              && r[i].op == Identities(outs, graph, start)[1 + i]
              && r[i].op.kind == IDENTITY && r[i].op.inputs == [outs[1 + i]]
  {
    var ids := Identities(outs, graph, start);
    seq(n, i requires 0 <= i < n => Output0(ids[1 + i]))
  }

  /** The `While` op named `next`, followed by one `Identity` per output, named from `next + 1`. */
  function EmitWhile(w: Wired, accumulated: seq<Tensor>, n: nat, lower: bool): (r: Forward)
    requires |w.body.outputs| == |w.loopVars| && 1 + n <= |w.loopVars|
    ensures r.whileOp.kind == WHILE && r.whileOp.inputs == w.loopVars && r.whileOp.graph == w.outer.id
    ensures r.whileOp.attr == WhileAttrs(w.cond.id, w.body.id, lower)
    ensures |r.whileOp.outTypes| == |w.loopVars|
    ensures r.cond == w.cond && r.body == w.body && r.loopVars == w.loopVars && r.accumulated == accumulated
    ensures |r.results| == n
    ensures forall i :: 0 <= i < n ==>
              && r.results[i].op.kind == IDENTITY && r.results[i].op.inputs == [Outputs(r.whileOp)[1 + i]]
              && r.results[i].op in r.outer.ops
    ensures r.outer.id == w.outer.id && w.outer.ops + [r.whileOp] <= r.outer.ops
  {
    var whileOp := Node(w.outer.id, w.next, WHILE, w.loopVars, WhileAttrs(w.cond.id, w.body.id, lower),
                        LoopOutTypes(w.loopVars, w.body.outputs));
    var outs := Outputs(whileOp);
    var ids := Identities(outs, w.outer.id, w.next + 1);
    var outer := w.outer.(ops := w.outer.ops + [whileOp] + ids);
    var results := IdentityResults(outs, w.outer.id, w.next + 1, n);
    AppendedIn(w.outer.ops + [whileOp], ids);
    Forward(outer, whileOp, w.cond, w.body, w.loopVars, accumulated, results, w.next + 1 + |outs|)
  }

  /** The second half of `while_loop`: accumulators, then the checks and the `While` op. */
  function Assemble(s: Staged, n: nat, invariants: seq<Shape>, leq: (Shape, Shape) -> bool, lower: bool)
    : (r: Result<Forward, Error>)
    requires s.outer.id != s.cond.id && s.outer.id != s.body.id
    requires |s.body.inputs| > 0 && |s.body.outputs| >= 1 + n
    ensures r.Failure? ==> r.error.ShapeIncompatible? || r.error.ArityMismatch?
    ensures r.Success? ==> |r.value.results| == n
  {
    var ts := Intermediates(s.body);
    Finish(WireAccumulators(s.outer, s.cond, s.body, s.loopVars, ts, s.next), ts, n, invariants, leq, lower)
  }

  /** The shape check, the arity check and the `While` op. */
  function Finish(w: Wired, ts: seq<Tensor>, n: nat, invariants: seq<Shape>, leq: (Shape, Shape) -> bool, lower: bool)
    : (r: Result<Forward, Error>)
    requires |w.body.outputs| >= 1 + n
    ensures r.Failure? ==> r.error.ShapeIncompatible? || r.error.ArityMismatch?
    ensures r.Success? ==> |r.value.results| == n
  {
    var _ :- ShapesCompatFrom(w.body.outputs[1 .. 1 + n], invariants, leq, 0);
    var _ :- CheckNumInputsOutputs(w.cond, w.body, |w.loopVars|);
    Success(EmitWhile(w, ts, n, lower))
  }

  /** `while_loop` over flattened loop variables. `cond` and `body` are what the closure builder
      returned for the user's functions; `leq` is `_ShapeLessThanOrEqual`; `inXlaContext` answers the
      XLA-context query that decides the lowering attribute. */
  function WhileLoop(outer: FuncGraph, loopVars: seq<Tensor>, shapeInvariants: Option<seq<Shape>>,
                     cond: FuncGraph, body: BodyClosure, leq: (Shape, Shape) -> bool, inXlaContext: bool,
                     next: nat): (r: Result<Forward, Error>)
    requires Assemblable(outer, cond, body, |loopVars|)
    ensures r.Failure? ==> r.error.StructureMismatch? || r.error.SharedCapture? || r.error.ShapeIncompatible?
                           || r.error.ArityMismatch?
    ensures r.Success? ==> |r.value.results| == |loopVars|
  {
    var n := |loopVars|;
    var invariants := Invariants(shapeInvariants, loopVars);
    if |invariants| != n then Failure(StructureMismatch)
    else
      var s :- Setup(outer, loopVars, cond, body, next);
      Assemble(s, n, invariants, leq, !inXlaContext)
  }

  /** The invariants the shapes are checked against: the user's, or the loop variables' own shapes. */
  function Invariants(shapeInvariants: Option<seq<Shape>>, loopVars: seq<Tensor>): (r: seq<Shape>)
    ensures shapeInvariants.None? ==> r == ShapesOf(loopVars)
    ensures shapeInvariants.Some? ==> r == shapeInvariants.value
  {
    if shapeInvariants.Some? then shapeInvariants.value else ShapesOf(loopVars)
  }

  /** A successful `WhileLoop` is a successful `Setup` followed by `Assemble`. */
  lemma WhileLoopStaged(outer: FuncGraph, loopVars: seq<Tensor>, shapeInvariants: Option<seq<Shape>>,
                        cond: FuncGraph, body: BodyClosure, leq: (Shape, Shape) -> bool, inXlaContext: bool,
                        next: nat) returns (s: Staged)
    requires Assemblable(outer, cond, body, |loopVars|)
    requires WhileLoop(outer, loopVars, shapeInvariants, cond, body, leq, inXlaContext, next).Success?
    ensures |Invariants(shapeInvariants, loopVars)| == |loopVars|
    ensures Setup(outer, loopVars, cond, body, next) == Success(s)
    ensures s.outer.id != s.cond.id && s.outer.id != s.body.id
    ensures |s.body.inputs| > 0 && |s.body.outputs| >= 1 + |loopVars|
    ensures WhileLoop(outer, loopVars, shapeInvariants, cond, body, leq, inXlaContext, next)
            == Assemble(s, |loopVars|, Invariants(shapeInvariants, loopVars), leq, !inXlaContext)
  {
    s := Setup(outer, loopVars, cond, body, next).value;
  }

  /** The loop variables and body outputs of the staged loop a successful `while_loop` assembled. */
  lemma WhileLoopLayout(outer: FuncGraph, loopVars: seq<Tensor>, shapeInvariants: Option<seq<Shape>>,
                        cond: FuncGraph, body: BodyClosure, leq: (Shape, Shape) -> bool, inXlaContext: bool,
                        next: nat) returns (s: Staged)
    requires Assemblable(outer, cond, body, |loopVars|)
    requires WhileLoop(outer, loopVars, shapeInvariants, cond, body, leq, inXlaContext, next).Success?
    ensures s.outer.id != s.cond.id && s.outer.id != s.body.id
    ensures |s.body.inputs| > 0 && |s.body.outputs| >= 1 + |loopVars|
    ensures WhileLoop(outer, loopVars, shapeInvariants, cond, body, leq, inXlaContext, next)
            == Assemble(s, |loopVars|, Invariants(shapeInvariants, loopVars), leq, !inXlaContext)
    ensures s.outer.id == outer.id && |s.loopVars| > 0 && IsCounterInit(s.loopVars[0], outer.id)
    ensures s.loopVars == [s.loopVars[0]] + loopVars + ExternalCaptures(cond) + ExternalCaptures(body.graph)
    ensures s.body == WrapBody(body, |loopVars|, |cond.captures|, next + 1).graph
  {
    s := WhileLoopStaged(outer, loopVars, shapeInvariants, cond, body, leq, inXlaContext, next);
  }

  /** `Assemble` is `Finish` after the accumulators are wired in. */
  lemma AssembleUnfold(s: Staged, n: nat, invariants: seq<Shape>, leq: (Shape, Shape) -> bool, lower: bool)
    returns (ts: seq<Tensor>, w: Wired)
    requires s.outer.id != s.cond.id && s.outer.id != s.body.id
    requires |s.body.inputs| > 0 && |s.body.outputs| >= 1 + n
    ensures ts == Intermediates(s.body)
    ensures w == WireAccumulators(s.outer, s.cond, s.body, s.loopVars, ts, s.next)
    ensures |w.body.outputs| >= 1 + n
    ensures Assemble(s, n, invariants, leq, lower) == Finish(w, ts, n, invariants, leq, lower)
  {
    ts := Intermediates(s.body);
    w := WireAccumulators(s.outer, s.cond, s.body, s.loopVars, ts, s.next);
  }

  /** The stages a successful `Assemble` went through. */
  lemma AssembleParts(s: Staged, n: nat, invariants: seq<Shape>, leq: (Shape, Shape) -> bool, lower: bool)
    returns (ts: seq<Tensor>, w: Wired)
    requires s.outer.id != s.cond.id && s.outer.id != s.body.id
    requires |s.body.inputs| > 0 && |s.body.outputs| >= 1 + n
    requires Assemble(s, n, invariants, leq, lower).Success?
    ensures ts == Intermediates(s.body)
    ensures w == WireAccumulators(s.outer, s.cond, s.body, s.loopVars, ts, s.next)
    ensures |w.body.outputs| >= 1 + n
    ensures ShapesCompatFrom(w.body.outputs[1 .. 1 + n], invariants, leq, 0).Success?
    ensures CheckNumInputsOutputs(w.cond, w.body, |w.loopVars|).Success?
    ensures |w.body.outputs| == |w.loopVars| && 1 + n <= |w.loopVars|
    ensures Assemble(s, n, invariants, leq, lower).value == EmitWhile(w, ts, n, lower)
  {
    ts := Intermediates(s.body);
    w := WireAccumulators(s.outer, s.cond, s.body, s.loopVars, ts, s.next);
  }

  /** The counter update in the body: `counter + 1`, with `counter` the body's first input. */
  predicate IsIncrement(o: Tensor, counter: Tensor) {
    && o.op.kind == ADD && |o.op.inputs| == 2 && o.op.inputs[0] == counter
    && o.op.inputs[1].op.kind == CONST && o.op.inputs[1].op.attr == Value(1)
  }

  lemma AssembleLoopVars(s: Staged, n: nat, invariants: seq<Shape>, leq: (Shape, Shape) -> bool, lower: bool)
    requires s.outer.id != s.cond.id && s.outer.id != s.body.id
    requires |s.body.inputs| > 0 && |s.body.outputs| >= 1 + n
    requires Assemble(s, n, invariants, leq, lower).Success?
    ensures var f := Assemble(s, n, invariants, leq, lower).value;
            && f.whileOp.inputs == f.loopVars
            && s.loopVars <= f.loopVars
            && ListsFor(f.loopVars[|s.loopVars|..], f.accumulated, s.outer.id)
  {
    var ts, w := AssembleParts(s, n, invariants, leq, lower);
  }

  lemma AssembleBodyOutputs(s: Staged, n: nat, invariants: seq<Shape>, leq: (Shape, Shape) -> bool, lower: bool)
    requires s.outer.id != s.cond.id && s.outer.id != s.body.id
    requires |s.body.inputs| > 0 && |s.body.outputs| >= 1 + n
    requires Assemble(s, n, invariants, leq, lower).Success?
    ensures var f := Assemble(s, n, invariants, leq, lower).value;
            && s.body.outputs <= f.body.outputs
            && PushesOf(f.body.outputs[|s.body.outputs|..], f.accumulated)
  {
    var ts, w := AssembleParts(s, n, invariants, leq, lower);
  }

  /** The loop variables of the `While` op are the counter, the user's variables, cond's captures,
      the body's captures, then one fresh list per accumulated intermediate. */
  lemma WhileLoopLoopVars(outer: FuncGraph, loopVars: seq<Tensor>, shapeInvariants: Option<seq<Shape>>,
                          cond: FuncGraph, body: BodyClosure, leq: (Shape, Shape) -> bool, inXlaContext: bool,
                          next: nat)
    requires Assemblable(outer, cond, body, |loopVars|)
    requires WhileLoop(outer, loopVars, shapeInvariants, cond, body, leq, inXlaContext, next).Success?
    ensures var f := WhileLoop(outer, loopVars, shapeInvariants, cond, body, leq, inXlaContext, next).value;
            var k := 1 + |loopVars| + |cond.captures| + |body.graph.captures|;
            && f.whileOp.inputs == f.loopVars
            && |f.loopVars| >= k
            && IsCounterInit(f.loopVars[0], outer.id)
            && [f.loopVars[0]] + loopVars + ExternalCaptures(cond) + ExternalCaptures(body.graph) <= f.loopVars
            && ListsFor(f.loopVars[k..], f.accumulated, outer.id)
  {
    var s, f := WhileLoopVarsStaged(outer, loopVars, shapeInvariants, cond, body, leq, inXlaContext, next);
    LoopVarsFrom(s, f, outer.id, loopVars, ExternalCaptures(cond), ExternalCaptures(body.graph),
                 1 + |loopVars| + |cond.captures| + |body.graph.captures|);
  }

  lemma WhileLoopVarsStaged(outer: FuncGraph, loopVars: seq<Tensor>, shapeInvariants: Option<seq<Shape>>,
                            cond: FuncGraph, body: BodyClosure, leq: (Shape, Shape) -> bool, inXlaContext: bool,
                            next: nat) returns (s: Staged, f: Forward)
    requires Assemblable(outer, cond, body, |loopVars|)
    requires WhileLoop(outer, loopVars, shapeInvariants, cond, body, leq, inXlaContext, next).Success?
    ensures f == WhileLoop(outer, loopVars, shapeInvariants, cond, body, leq, inXlaContext, next).value
    ensures |s.loopVars| > 0 && s.loopVars == [s.loopVars[0]] + loopVars + ExternalCaptures(cond) + ExternalCaptures(body.graph)
    ensures IsCounterInit(s.loopVars[0], outer.id)
    ensures f.whileOp.inputs == f.loopVars && s.loopVars <= f.loopVars
    ensures ListsFor(f.loopVars[|s.loopVars|..], f.accumulated, outer.id)
  {
    s := WhileLoopLayout(outer, loopVars, shapeInvariants, cond, body, leq, inXlaContext, next);
    AssembleLoopVars(s, |loopVars|, Invariants(shapeInvariants, loopVars), leq, !inXlaContext);
    f := WhileLoop(outer, loopVars, shapeInvariants, cond, body, leq, inXlaContext, next).value;
  }

  /** The final loop variables extend the staged ones `[counter] + loopVars + ca + cb` with the lists. */
  lemma LoopVarsFrom(s: Staged, f: Forward, outerId: nat, loopVars: seq<Tensor>, ca: seq<Tensor>, cb: seq<Tensor>, k: nat)
    requires |s.loopVars| > 0 && s.loopVars == [s.loopVars[0]] + loopVars + ca + cb
    requires IsCounterInit(s.loopVars[0], outerId) && k == 1 + |loopVars| + |ca| + |cb|
    requires f.whileOp.inputs == f.loopVars && s.loopVars <= f.loopVars
    requires ListsFor(f.loopVars[|s.loopVars|..], f.accumulated, outerId)
    ensures && f.whileOp.inputs == f.loopVars
            && |f.loopVars| >= k
            && IsCounterInit(f.loopVars[0], outerId)
            && [f.loopVars[0]] + loopVars + ca + cb <= f.loopVars
            && ListsFor(f.loopVars[k..], f.accumulated, outerId)
  {
    assert f.loopVars[0] == s.loopVars[0];
  }

  /** The body returns the incremented counter, the user's results, cond's captures passed through,
      its own captures passed through, then one pushed list per accumulated intermediate. */
  lemma WhileLoopBodyOutputs(outer: FuncGraph, loopVars: seq<Tensor>, shapeInvariants: Option<seq<Shape>>,
                             cond: FuncGraph, body: BodyClosure, leq: (Shape, Shape) -> bool, inXlaContext: bool,
                             next: nat)
    requires Assemblable(outer, cond, body, |loopVars|)
    requires WhileLoop(outer, loopVars, shapeInvariants, cond, body, leq, inXlaContext, next).Success?
    ensures BodyOutputsLaidOut(WhileLoop(outer, loopVars, shapeInvariants, cond, body, leq, inXlaContext, next).value,
                               body, |loopVars|, |cond.captures|)
  {
    var s, f := WhileLoopAssembled(outer, loopVars, shapeInvariants, cond, body, leq, inXlaContext, next);
    AssembledBodyOutputs(s, f, |loopVars|, Invariants(shapeInvariants, loopVars), leq, !inXlaContext, body,
                         |cond.captures|, next);
  }

  /** The body outputs of `f`, built from the user's `body` with `n` loop variables and `c` cond
      captures: the incremented counter, the user's results, cond's captures passed through, the
      body's own captures passed through, then one pushed list per accumulated intermediate. */
  predicate BodyOutputsLaidOut(f: Forward, body: BodyClosure, n: nat, c: nat) {
    var k := 1 + n + c + |body.graph.captures|;
    && |body.graph.inputs| >= 1 + n + c
    && |f.body.outputs| >= k
    && IsIncrement(f.body.outputs[0], body.graph.inputs[0])
    && [f.body.outputs[0]] + body.results + body.graph.inputs[1 + n .. 1 + n + c]
       + InternalCaptures(body.graph) <= f.body.outputs
    && PushesOf(f.body.outputs[k..], f.accumulated)
  }

  /** The staged loop and the result of a successful `while_loop`, with `WhileLoop` unfolded. */
  lemma WhileLoopAssembled(outer: FuncGraph, loopVars: seq<Tensor>, shapeInvariants: Option<seq<Shape>>,
                           cond: FuncGraph, body: BodyClosure, leq: (Shape, Shape) -> bool, inXlaContext: bool,
                           next: nat) returns (s: Staged, f: Forward)
    requires Assemblable(outer, cond, body, |loopVars|)
    requires WhileLoop(outer, loopVars, shapeInvariants, cond, body, leq, inXlaContext, next).Success?
    ensures f == WhileLoop(outer, loopVars, shapeInvariants, cond, body, leq, inXlaContext, next).value
    ensures s.outer.id != s.cond.id && s.outer.id != s.body.id
    ensures |s.body.inputs| > 0 && |s.body.outputs| >= 1 + |loopVars|
    ensures var r := Assemble(s, |loopVars|, Invariants(shapeInvariants, loopVars), leq, !inXlaContext);
            r.Success? && r.value == f
    ensures |body.graph.inputs| >= 1 + |loopVars| + |cond.captures| && |body.results| == |loopVars|
    ensures s.body == WrapBody(body, |loopVars|, |cond.captures|, next + 1).graph
  {
    s := WhileLoopLayout(outer, loopVars, shapeInvariants, cond, body, leq, inXlaContext, next);
    f := WhileLoop(outer, loopVars, shapeInvariants, cond, body, leq, inXlaContext, next).value;
  }

  lemma AssembledBodyOutputs(s: Staged, f: Forward, n: nat, invariants: seq<Shape>, leq: (Shape, Shape) -> bool,
                             lower: bool, body: BodyClosure, c: nat, next: nat)
    requires s.outer.id != s.cond.id && s.outer.id != s.body.id
    requires |s.body.inputs| > 0 && |s.body.outputs| >= 1 + n
    requires var r := Assemble(s, n, invariants, leq, lower); r.Success? && r.value == f
    requires |body.graph.inputs| >= 1 + n + c && |body.results| == n
    requires s.body == WrapBody(body, n, c, next + 1).graph
    ensures BodyOutputsLaidOut(f, body, n, c)
  {
    AssembleBodyOutputs(s, n, invariants, leq, lower);
    LaidOutFrom(s.body.outputs, f, body, n, c);
  }

  /** Body outputs that extend the wrapped body's outputs `staged` with one push per accumulated
      intermediate are laid out as `while_loop` promises. */
  lemma LaidOutFrom(staged: seq<Tensor>, f: Forward, body: BodyClosure, n: nat, c: nat)
    requires |body.graph.inputs| >= 1 + n + c && |body.results| == n
    requires |staged| > 0 && IsIncrement(staged[0], body.graph.inputs[0])
    requires staged == [staged[0]] + body.results + body.graph.inputs[1 + n .. 1 + n + c] + InternalCaptures(body.graph)
    requires staged <= f.body.outputs && PushesOf(f.body.outputs[|staged|..], f.accumulated)
    ensures BodyOutputsLaidOut(f, body, n, c)
  {
    assert f.body.outputs[0] == staged[0];
  }

  /** How `Setup` fails: a body result count that differs from the loop variables, or a body capture
      that cond already captures. */
  lemma SetupOutcome(outer: FuncGraph, loopVars: seq<Tensor>, cond: FuncGraph, body: BodyClosure, next: nat)
    requires Assemblable(outer, cond, body, |loopVars|)
    ensures var r := Setup(outer, loopVars, cond, body, next);
            && (r.Failure? <==> |body.results| != |loopVars|
                                || exists e :: e in ExternalCaptures(body.graph) && IsCaptured(cond, e))
            && (r.Failure? ==> (r.error == StructureMismatch <==> |body.results| != |loopVars|))
            && (r.Failure? && r.error.SharedCapture? ==>
                  r.error.t in ExternalCaptures(body.graph) && IsCaptured(cond, r.error.t))
  {
  }

  /** Once the invariants match and staging succeeds, `WhileLoop` is `Assemble` of the staged loop. */
  lemma WhileLoopAssembles(outer: FuncGraph, loopVars: seq<Tensor>, shapeInvariants: Option<seq<Shape>>,
                           cond: FuncGraph, body: BodyClosure, leq: (Shape, Shape) -> bool, inXlaContext: bool,
                           next: nat)
    requires Assemblable(outer, cond, body, |loopVars|)
    requires |Invariants(shapeInvariants, loopVars)| == |loopVars|
    requires Setup(outer, loopVars, cond, body, next).Success?
    ensures var s := Setup(outer, loopVars, cond, body, next).value;
            && s.outer.id != s.cond.id && s.outer.id != s.body.id
            && |s.body.inputs| > 0 && |s.body.outputs| >= 1 + |loopVars|
            && WhileLoop(outer, loopVars, shapeInvariants, cond, body, leq, inXlaContext, next)
               == Assemble(s, |loopVars|, Invariants(shapeInvariants, loopVars), leq, !inXlaContext)
  {
  }

  /** The errors `while_loop` raises before the shape check: a structure mismatch exactly when the
      invariants or the body results do not match the loop variables in number; otherwise a shared
      capture exactly when cond already captures one of the body's captures. */
  lemma WhileLoopStructure(outer: FuncGraph, loopVars: seq<Tensor>, shapeInvariants: Option<seq<Shape>>,
                           cond: FuncGraph, body: BodyClosure, leq: (Shape, Shape) -> bool, inXlaContext: bool,
                           next: nat)
    requires Assemblable(outer, cond, body, |loopVars|)
    ensures var r := WhileLoop(outer, loopVars, shapeInvariants, cond, body, leq, inXlaContext, next);
            var n := |loopVars|;
            && (r.Failure? && r.error.StructureMismatch? <==>
                  |Invariants(shapeInvariants, loopVars)| != n || |body.results| != n)
            && (|Invariants(shapeInvariants, loopVars)| == n && |body.results| == n ==>
                  (r.Failure? && r.error.SharedCapture? <==>
                     exists e :: e in ExternalCaptures(body.graph) && IsCaptured(cond, e)))
            && (r.Failure? && r.error.SharedCapture? ==>
                  r.error.t in ExternalCaptures(body.graph) && IsCaptured(cond, r.error.t))
  {
    SetupOutcome(outer, loopVars, cond, body, next);
    if |Invariants(shapeInvariants, loopVars)| == |loopVars| && Setup(outer, loopVars, cond, body, next).Success? {
      WhileLoopAssembles(outer, loopVars, shapeInvariants, cond, body, leq, inXlaContext, next);
    }
  }

  lemma AssembleShapes(s: Staged, n: nat, invariants: seq<Shape>, leq: (Shape, Shape) -> bool, lower: bool,
                       rs: seq<Tensor>)
    requires s.outer.id != s.cond.id && s.outer.id != s.body.id
    requires |s.body.inputs| > 0 && |s.body.outputs| >= 1 + n && s.body.outputs[1 .. 1 + n] == rs
    requires |invariants| == n
    ensures var r := Assemble(s, n, invariants, leq, lower);
            var c := ShapesCompatFrom(rs, invariants, leq, 0);
            && (c.Failure? ==> r == Failure(c.error))
            && (r.Success? ==> c.Success?)
            && (r.Failure? && r.error.ShapeIncompatible? ==> c.Failure?)
  {
    var ts, w := AssembleUnfold(s, n, invariants, leq, lower);
    assert w.body.outputs[1 .. 1 + n] == rs;
    FinishShapes(w, ts, n, invariants, leq, lower);
  }

  lemma FinishShapes(w: Wired, ts: seq<Tensor>, n: nat, invariants: seq<Shape>, leq: (Shape, Shape) -> bool, lower: bool)
    requires |w.body.outputs| >= 1 + n
    ensures var r := Finish(w, ts, n, invariants, leq, lower);
            var c := ShapesCompatFrom(w.body.outputs[1 .. 1 + n], invariants, leq, 0);
            && (c.Failure? ==> r == Failure(c.error))
            && (r.Success? ==> c.Success?)
            && (r.Failure? && r.error.ShapeIncompatible? ==> c.Failure?)
  {
  }

  /** `_check_shapes_compat`: once staging succeeds, `while_loop` succeeds only when every user
      result's shape is at most as specific as its invariant, and it reports a shape error exactly
      when one is not, naming such a result. */
  lemma WhileLoopShapes(outer: FuncGraph, loopVars: seq<Tensor>, shapeInvariants: Option<seq<Shape>>,
                        cond: FuncGraph, body: BodyClosure, leq: (Shape, Shape) -> bool, inXlaContext: bool,
                        next: nat)
    requires Assemblable(outer, cond, body, |loopVars|)
    requires |Invariants(shapeInvariants, loopVars)| == |loopVars|
    requires Setup(outer, loopVars, cond, body, next).Success?
    ensures ShapeVerdict(WhileLoop(outer, loopVars, shapeInvariants, cond, body, leq, inXlaContext, next),
                         body.results, Invariants(shapeInvariants, loopVars), leq)
  {
    WhileLoopAssembles(outer, loopVars, shapeInvariants, cond, body, leq, inXlaContext, next);
    var s := Setup(outer, loopVars, cond, body, next).value;
    var n := |loopVars|;
    WrapBodyResults(body, n, |cond.captures|, next + 1);
    AssembleShapes(s, n, Invariants(shapeInvariants, loopVars), leq, !inXlaContext, body.results);
    var r := WhileLoop(outer, loopVars, shapeInvariants, cond, body, leq, inXlaContext, next);
    ShapesOutcome(r, body.results, Invariants(shapeInvariants, loopVars), leq);
  }

  /** `r` passes the shape check exactly when every result in `rs` fits its invariant, and a shape
      error names a result that does not. */
  predicate ShapeVerdict<T>(r: Result<T, Error>, rs: seq<Tensor>, inv: seq<Shape>, leq: (Shape, Shape) -> bool) {
    && (r.Success? ==> forall i :: 0 <= i < |rs| && i < |inv| ==> leq(rs[i].shape, inv[i]))
    && (r.Failure? && r.error.ShapeIncompatible? ==>
          r.error.index < |rs| && r.error.index < |inv| && !leq(rs[r.error.index].shape, inv[r.error.index]))
    && ((forall i :: 0 <= i < |rs| && i < |inv| ==> leq(rs[i].shape, inv[i])) ==> !(r.Failure? && r.error.ShapeIncompatible?))
  }

  /** A result that agrees with `ShapesCompatFrom` on `rs` gives the verdict of `rs`'s shapes. */
  lemma ShapesOutcome<T>(r: Result<T, Error>, rs: seq<Tensor>, inv: seq<Shape>, leq: (Shape, Shape) -> bool)
    requires var c := ShapesCompatFrom(rs, inv, leq, 0);
             && (c.Failure? ==> r == Failure(c.error))
             && (r.Success? ==> c.Success?)
             && (r.Failure? && r.error.ShapeIncompatible? ==> c.Failure?)
    ensures ShapeVerdict(r, rs, inv, leq)
  {
  }

  lemma IntermediatesBelow(g: FuncGraph, next: nat)
    requires |g.inputs| > 0 && NamesBelow(g, next)
    ensures TensorsBelow(Intermediates(g), next)
  {
    forall t | t in Intermediates(g) ensures t.op.name < next {
      var n :| n in g.ops && n.kind != IDENTITY && t in Outputs(n);
    }
  }

  /** The staged loop `WhileLoop` hands to `Assemble` has a body and a cond with one input per loop
      variable so far, a body with as many outputs, and every name below its counter. */
  predicate StagedWell(s: Staged) {
    && s.outer.id != s.cond.id && s.outer.id != s.body.id
    && |s.cond.inputs| == |s.loopVars| && |s.body.inputs| == |s.loopVars| && |s.body.outputs| == |s.loopVars|
    && |s.loopVars| > 0
    && NamesBelow(s.cond, s.next) && NamesBelow(s.body, s.next)
  }

  lemma SetupWell(outer: FuncGraph, loopVars: seq<Tensor>, cond: FuncGraph, body: BodyClosure, next: nat)
    requires BuiltFor(outer, cond, body, |loopVars|, next)
    requires Setup(outer, loopVars, cond, body, next).Success?
    ensures StagedWell(Setup(outer, loopVars, cond, body, next).value)
  {
    BuiltForAssemblable(outer, cond, body, |loopVars|, next);
    SetupWellFrom(outer, loopVars, cond, body, next);
  }

  lemma SetupWellFrom(outer: FuncGraph, loopVars: seq<Tensor>, cond: FuncGraph, body: BodyClosure, next: nat)
    requires Assemblable(outer, cond, body, |loopVars|) && TensorsBelow(ExternalCaptures(body.graph), next)
    requires BuiltWithArgs(cond, 1 + |loopVars|) && NamesBelow(cond, next)
    requires BuiltWithArgs(body.graph, 1 + |loopVars| + |cond.captures|)
    requires NamesBelow(body.graph, next) && TensorsBelow(body.results, next)
    requires Setup(outer, loopVars, cond, body, next).Success?
    ensures StagedWell(Setup(outer, loopVars, cond, body, next).value)
  {
    var s := Setup(outer, loopVars, cond, body, next).value;
    SetupCond(outer, loopVars, cond, body, next);
    WrapBodyFacts(body, |loopVars|, |cond.captures|, next, next + 1, s.next);
  }

  lemma AssembleArity(s: Staged, n: nat, invariants: seq<Shape>, leq: (Shape, Shape) -> bool, lower: bool)
    requires StagedWell(s) && |s.body.outputs| >= 1 + n
    ensures var r := Assemble(s, n, invariants, leq, lower);
            && (r.Success? ==>
                  && |r.value.cond.inputs| == |r.value.loopVars| && |r.value.cond.outputs| == 1
                  && |r.value.body.inputs| == |r.value.loopVars| && |r.value.body.outputs| == |r.value.loopVars|)
            && (r.Failure? && r.error.ArityMismatch? ==> |s.cond.outputs| != 1)
  {
    var ts, w := AssembleUnfold(s, n, invariants, leq, lower);
    WiredArity(s, ts, w);
    FinishArity(w, ts, n, invariants, leq, lower);
  }

  /** Wiring keeps cond and the body at one input per loop variable, and the body at as many outputs. */
  lemma WiredArity(s: Staged, ts: seq<Tensor>, w: Wired)
    requires StagedWell(s)
    requires ts == Intermediates(s.body) && w == WireAccumulators(s.outer, s.cond, s.body, s.loopVars, ts, s.next)
    ensures |w.cond.inputs| == |w.loopVars| && |w.body.inputs| == |w.loopVars| && |w.body.outputs| == |w.loopVars|
  {
    IntermediatesBelow(s.body, s.next);
    WireAccumulatorsNames(s.outer, s.cond, s.body, s.loopVars, ts, s.next);
  }

  lemma FinishArity(w: Wired, ts: seq<Tensor>, n: nat, invariants: seq<Shape>, leq: (Shape, Shape) -> bool, lower: bool)
    requires |w.body.outputs| >= 1 + n
    requires |w.cond.inputs| == |w.loopVars| && |w.body.inputs| == |w.loopVars| && |w.body.outputs| == |w.loopVars|
    ensures var r := Finish(w, ts, n, invariants, leq, lower);
            && (r.Success? ==>
                  && |r.value.cond.inputs| == |r.value.loopVars| && |r.value.cond.outputs| == 1
                  && |r.value.body.inputs| == |r.value.loopVars| && |r.value.body.outputs| == |r.value.loopVars|)
            && (r.Failure? && r.error.ArityMismatch? ==> |w.cond.outputs| != 1)
  {
  }

  /** `_check_num_inputs_outputs` on the assembled loop: cond and body take one input per loop
      variable, the body returns one output per loop variable and cond exactly one; the check can
      only fail because the user's cond returned other than one tensor. */
  lemma WhileLoopArity(outer: FuncGraph, loopVars: seq<Tensor>, shapeInvariants: Option<seq<Shape>>,
                       cond: FuncGraph, body: BodyClosure, leq: (Shape, Shape) -> bool, inXlaContext: bool,
                       next: nat)
    requires BuiltFor(outer, cond, body, |loopVars|, next)
    ensures Assemblable(outer, cond, body, |loopVars|)
    ensures var r := WhileLoop(outer, loopVars, shapeInvariants, cond, body, leq, inXlaContext, next);
            && (r.Success? ==>
                  && |r.value.cond.inputs| == |r.value.loopVars| && |r.value.cond.outputs| == 1
                  && |r.value.body.inputs| == |r.value.loopVars| && |r.value.body.outputs| == |r.value.loopVars|)
            && (r.Failure? && r.error.ArityMismatch? ==> |cond.outputs| != 1)
  {
    BuiltForAssemblable(outer, cond, body, |loopVars|, next);
    if |Invariants(shapeInvariants, loopVars)| == |loopVars| && Setup(outer, loopVars, cond, body, next).Success? {
      WhileLoopAssembles(outer, loopVars, shapeInvariants, cond, body, leq, inXlaContext, next);
      SetupCond(outer, loopVars, cond, body, next);
      SetupWell(outer, loopVars, cond, body, next);
      AssembleArity(Setup(outer, loopVars, cond, body, next).value, |loopVars|,
                    Invariants(shapeInvariants, loopVars), leq, !inXlaContext);
    }
  }

  lemma AssembleAccumulates(s: Staged, n: nat, invariants: seq<Shape>, leq: (Shape, Shape) -> bool, lower: bool)
    requires StagedWell(s) && |s.body.outputs| >= 1 + n
    requires Assemble(s, n, invariants, leq, lower).Success?
    ensures var f := Assemble(s, n, invariants, leq, lower).value;
            forall t :: t in f.accumulated ==> GetAccumulator(f.body, t).Some?
  {
    var ts, w := AssembleParts(s, n, invariants, leq, lower);
    IntermediatesBelow(s.body, s.next);
    WireAccumulatorsGrows(s.outer, s.cond, s.body, s.loopVars, ts, s.next);
  }

  lemma AssembleAccumulatedKinds(s: Staged, n: nat, invariants: seq<Shape>, leq: (Shape, Shape) -> bool, lower: bool)
    requires StagedWell(s) && |s.body.outputs| >= 1 + n
    requires Assemble(s, n, invariants, leq, lower).Success?
    ensures var f := Assemble(s, n, invariants, leq, lower).value;
            && |f.body.inputs| > 0
            && forall t :: t in f.accumulated ==>
                 t.op in f.body.ops && t.op.kind != IDENTITY && t.dtype != Resource && t != f.body.inputs[0]
  {
    var ts, w := AssembleParts(s, n, invariants, leq, lower);
    IntermediatesBelow(s.body, s.next);
    WireAccumulatorsGrows(s.outer, s.cond, s.body, s.loopVars, ts, s.next);
    assert s.body.inputs[0] == w.body.inputs[0];
    forall t | t in ts
      ensures t.op in w.body.ops && t.op.kind != IDENTITY && t.dtype != Resource && t != w.body.inputs[0]
    {
      var o :| o in s.body.ops && o.kind != IDENTITY && t in Outputs(o);
    }
  }

  /** Every intermediate `while_loop` accumulates ends up with an accumulator in the final body, so a
      second `_get_intermediates` on that body returns none of them; and none of them is an
      `Identity` output, a resource or the loop counter. */
  lemma WhileLoopAccumulates(outer: FuncGraph, loopVars: seq<Tensor>, shapeInvariants: Option<seq<Shape>>,
                             cond: FuncGraph, body: BodyClosure, leq: (Shape, Shape) -> bool, inXlaContext: bool,
                             next: nat)
    requires BuiltFor(outer, cond, body, |loopVars|, next)
    ensures Assemblable(outer, cond, body, |loopVars|)
    ensures var r := WhileLoop(outer, loopVars, shapeInvariants, cond, body, leq, inXlaContext, next);
            r.Success? ==>
              && |r.value.body.inputs| > 0
              && (forall t :: t in r.value.accumulated ==> GetAccumulator(r.value.body, t).Some?)
              && (forall t :: t in Intermediates(r.value.body) ==> t !in r.value.accumulated)
              && (forall t :: t in r.value.accumulated ==>
                    && t.op in r.value.body.ops && t.op.kind != IDENTITY && t.dtype != Resource
                    && t != r.value.body.inputs[0])
  {
    BuiltForAssemblable(outer, cond, body, |loopVars|, next);
    if WhileLoop(outer, loopVars, shapeInvariants, cond, body, leq, inXlaContext, next).Success? {
      var s := WhileLoopStaged(outer, loopVars, shapeInvariants, cond, body, leq, inXlaContext, next);
      SetupWell(outer, loopVars, cond, body, next);
      AssembleAccumulates(s, |loopVars|, Invariants(shapeInvariants, loopVars), leq, !inXlaContext);
      AssembleAccumulatedKinds(s, |loopVars|, Invariants(shapeInvariants, loopVars), leq, !inXlaContext);
    }
  }
}
