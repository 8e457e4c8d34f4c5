/** The capture resolver of the gradient body graph (`_WhileBodyGradFuncGraph`).

    While the differentiator builds the gradient body it refers to tensors of the forward body.
    The resolver turns each such reference into something the gradient body can read: a
    non-resource intermediate becomes the value popped from its accumulator list, a resource
    becomes a capture of the matching input of the forward `While` operation, and the answer is
    remembered so a second reference reuses it. */
module GradCapture {
  import opened Wrappers
  import opened Graph
  import opened Accumulation

  /** The gradient body graph under construction together with the resolver's bookkeeping:
      `indirect` maps a forward tensor to the tensor standing for it here, `innerToOuter` maps it
      to the outer tensor that was captured for it, and `popped` maps a captured accumulator
      placeholder to the list left after popping from it. */
  datatype Resolver = Resolver(
    graph: FuncGraph,
    forward: FuncGraph,
    whileOp: Node,
    indirect: map<Tensor, Tensor>,
    innerToOuter: map<Tensor, Tensor>,
    popped: map<Tensor, Tensor>)

  /** A resolved reference: the resolver afterwards, the tensor to use and the next unused name. */
  datatype Resolved = Resolved(st: Resolver, tensor: Tensor, next: nat)

  /** How the gradient is set up: the gradient body, the forward body and the outer graph that
      holds the forward `While` operation are three different graphs, and the operation's inputs
      live in the outer graph. */
  predicate Wf(st: Resolver) {
    && st.graph.id != st.forward.id
    && st.whileOp.graph != st.forward.id
    && st.whileOp.graph != st.graph.id
    && forall x :: x in st.whileOp.inputs ==> GraphOf(x) == st.whileOp.graph
  }

  /** What every resolved entry relies on when it is looked up again: its outer tensor is known
      and captured by the gradient body. */
  predicate Consistent(st: Resolver) {
    forall u :: u in st.indirect ==> u in st.innerToOuter && IsCaptured(st.graph, st.innerToOuter[u])
  }

  /** The `while tensor.op.type == "Identity"` walk back to the first non-`Identity` producer.
      An `Identity` without inputs makes `op.inputs[0]` raise. */
  function SkipIdentities(t: Tensor): (r: Result<Tensor, Error>)
    ensures r.Success? ==> r.value.op.kind != IDENTITY
    ensures t.op.kind != IDENTITY ==> r == Success(t)
    ensures r.Failure? ==> r.error == IndexOutOfRange
  {
    if t.op.kind != IDENTITY then Success(t)
    else if |t.op.inputs| == 0 then Failure(IndexOutOfRange)
    else
      assert t.op.inputs[0] in t.op.inputs;
      SkipIdentities(t.op.inputs[0])
  }

  /** The errors resolving a reference can raise. */
  predicate CaptureError(e: Error) {
    || e.OutOfScopeCapture? || e.ResourceCreatedInBody? || e.ResourceNotInvariant?
    || e.UnaccumulatedIntermediate? || e == NotInList || e == IndexOutOfRange || e == InternalAssertion
  }

  /** `capture(tensor, whitelisted)`: unless whitelisted, only tensors of the gradient body itself
      or of the forward body may be referenced; a tensor of the gradient body is its own answer. */
  function Capture(st: Resolver, t: Tensor, whitelisted: bool, next: nat): (r: Result<Resolved, Error>)
    ensures r.Failure? ==> CaptureError(r.error)
    requires Wf(st)
    ensures (r.Failure? && r.error.OutOfScopeCapture?) <==>
              !whitelisted && GraphOf(t) != st.graph.id && GraphOf(t) != st.forward.id
    ensures r.Success? ==> Wf(r.value.st) && Same(st, r.value.st) && r.value.next >= next
  {
    if !whitelisted && GraphOf(t) != st.graph.id && GraphOf(t) != st.forward.id then
      Failure(OutOfScopeCapture(t))
    else if GraphOf(t) == st.graph.id then
      Success(Resolved(st, t, next))
    else
      CaptureHelperGrad(st, t, next)
  }

  /** The resolver keeps working on the same gradient body for the same forward loop. */
  predicate Same(st: Resolver, st2: Resolver) {
    && st2.graph.id == st.graph.id
    && st2.forward == st.forward
    && st2.whileOp == st.whileOp
    && st2.graph.outputs == st.graph.outputs
    && st.graph.captures <= st2.graph.captures
    && st.graph.inputs <= st2.graph.inputs
    && st.graph.ops <= st2.graph.ops
  }

  /** `_capture_helper`: tensors from neither this graph nor the forward body are captured the
      ordinary way; forward tensors are resolved past `Identity` chains, from the cache, as a
      resource, or as an accumulated intermediate. */
  function CaptureHelperGrad(st: Resolver, t: Tensor, next: nat): (r: Result<Resolved, Error>)
    ensures r.Failure? ==> CaptureError(r.error)
    requires Wf(st) && GraphOf(t) != st.graph.id
    ensures r.Failure? ==> !r.error.OutOfScopeCapture?
    ensures r.Success? ==> Wf(r.value.st) && Same(st, r.value.st) && r.value.next >= next
  {
    if GraphOf(t) != st.forward.id then
      var b := CaptureHelper(st.graph, t, next);
      Success(Resolved(st.(graph := b.graph), b.tensor, b.next))
    else
      var u :- SkipIdentities(t);
      if u in st.indirect then ResolveCached(st, u, next)
      else if u.dtype == Resource then ResolveResource(st, u, next)
      else ResolveIntermediate(st, u, next)
  }

  /** A forward tensor resolved before: the bookkeeping must agree that its outer tensor is
      captured, and the stored answer is returned. */
  function ResolveCached(st: Resolver, u: Tensor, next: nat): (r: Result<Resolved, Error>)
    requires Wf(st) && u in st.indirect
    ensures r.Failure? ==> r.error == InternalAssertion
    ensures r.Success? ==> r.value.tensor == st.indirect[u]
    ensures r.Success? ==> Wf(r.value.st) && Same(st, r.value.st) && r.value.next >= next
  {
    if u !in st.innerToOuter || !IsCaptured(st.graph, st.innerToOuter[u]) then Failure(InternalAssertion)
    else
      var b := CaptureHelper(st.graph, st.innerToOuter[u], next);
      Success(Resolved(st.(graph := b.graph), st.indirect[u], b.next))
  }

  /** The position among the forward body's inputs of the loop variable a resource comes from: the
      resource itself, or, for an output of a nested `While`, the input at the same position of
      that `While`. Any other resource was created inside the body. */
  function ResourceIndex(forward: FuncGraph, u: Tensor): (r: Result<nat, Error>)
    ensures r.Success? ==> r.value < |forward.inputs|
    ensures r.Success? && u in forward.inputs ==> forward.inputs[r.value] == u
    ensures r.Success? && u !in forward.inputs ==>
              u.op.kind == WHILE && u.index < |u.op.inputs| && forward.inputs[r.value] == u.op.inputs[u.index]
    ensures (r.Failure? && r.error.ResourceCreatedInBody?) <==> u !in forward.inputs && u.op.kind != WHILE
  {
    if u in forward.inputs then Success(IndexOf(forward.inputs, u))
    else if u.op.kind == WHILE then
      if u.index >= |u.op.inputs| then Failure(IndexOutOfRange)
      else if u.op.inputs[u.index] !in forward.inputs then Failure(NotInList)
      else Success(IndexOf(forward.inputs, u.op.inputs[u.index]))
    else Failure(ResourceCreatedInBody(u))
  }

  /** A resource is read from outside: it must be a loop invariant, and the matching input of the
      forward `While` is captured (whitelisted, so through the ordinary capture). */
  function ResolveResource(st: Resolver, u: Tensor, next: nat): (r: Result<Resolved, Error>)
    ensures r.Failure? ==> CaptureError(r.error)
    requires Wf(st)
    ensures r.Failure? ==> !r.error.OutOfScopeCapture?
    ensures r.Success? ==> Wf(r.value.st) && Same(st, r.value.st) && r.value.next >= next
  {
    var index :- ResourceIndex(st.forward, u);
    if index >= |st.forward.outputs| then Failure(IndexOutOfRange)
    else if st.forward.inputs[index] != st.forward.outputs[index] then Failure(ResourceNotInvariant(u))
    else if index >= |st.whileOp.inputs| then Failure(IndexOutOfRange)
    else
      var x := st.whileOp.inputs[index];
      var b := CaptureHelper(st.graph, x, next);
      Success(Resolved(st.(graph := b.graph,
                           innerToOuter := st.innerToOuter[u := x],
                           indirect := st.indirect[u := b.tensor]),
                       b.tensor, b.next))
  }

  /** `TensorListPopBack` on a captured accumulator: outputs the shorter list and the value. */
  function PopNode(g: FuncGraph, next: nat, list: Tensor, u: Tensor): (n: Node)
    ensures n.graph == g.id && n.name == next && n.kind == POP_BACK && n.inputs == [list]
    ensures |Outputs(n)| == 2 && Outputs(n)[0].dtype == Variant
    ensures Outputs(n)[1].dtype == u.dtype && Outputs(n)[1].shape == u.shape
  {
    Node(g.id, next, POP_BACK, [list], NoAttr, [OutType(Variant, Shapes.Scalar), OutType(u.dtype, u.shape)])
  }

  /** A non-resource forward tensor: find the body output accumulating it and the matching output
      of the forward `While`, then pop the value from that list. */
  function ResolveIntermediate(st: Resolver, u: Tensor, next: nat): (r: Result<Resolved, Error>)
    ensures r.Failure? ==> CaptureError(r.error)
    requires Wf(st)
    ensures r.Failure? ==> !r.error.OutOfScopeCapture?
    ensures r.Success? ==> Wf(r.value.st) && Same(st, r.value.st) && r.value.next >= next
  {
    if u in st.innerToOuter then Failure(InternalAssertion)
    else match GetAccumulator(st.forward, u)
      case None => Failure(UnaccumulatedIntermediate(u))
      case Some(acc) =>
        if GraphOf(acc) != st.forward.id then Failure(InternalAssertion)
        else
          var idx := IndexOf(st.forward.outputs, acc);
          if idx >= |st.whileOp.outTypes| then Failure(IndexOutOfRange)
          else Success(PopAccumulator(st, u, Outputs(st.whileOp)[idx], next))
  }

  /** Capture the outer accumulator `a` of `u` and pop from it: the popped value stands for `u`
      from now on, and the shorter list is recorded against the accumulator's placeholder. */
  function PopAccumulator(st: Resolver, u: Tensor, a: Tensor, next: nat): (r: Resolved)
    requires Wf(st) && GraphOf(a) == st.whileOp.graph
    ensures Wf(r.st) && Same(st, r.st) && r.next > next
    ensures r.st.graph.captures == CaptureHelper(st.graph, a, next).graph.captures
    ensures r.st.indirect == st.indirect[u := r.tensor]
    ensures r.st.innerToOuter == st.innerToOuter[u := a]
    ensures IsCaptured(r.st.graph, a)
    ensures PoppedFrom(st, r.st, r.tensor, u, a)
  {
    var b := CaptureHelper(st.graph, a, next);
    var pop := PopNode(b.graph, b.next, b.tensor, u);
    Resolved(st.(graph := AddOp(b.graph, pop),
                 innerToOuter := st.innerToOuter[u := a],
                 indirect := st.indirect[u := Outputs(pop)[1]],
                 popped := st.popped[b.tensor := Outputs(pop)[0]]),
             Outputs(pop)[1], b.next + 1)
  }

  /** `st2` is `st` after popping the value `res` for `u` from the placeholder of the captured
      accumulator `a`: exactly one entry, for that placeholder, is added to `popped`, and it is
      the list output of the same pop. */
  predicate PoppedFrom(st: Resolver, st2: Resolver, res: Tensor, u: Tensor, a: Tensor) {
    && IsCaptured(st2.graph, a)
    && var ph := LookupCapture(st2.graph.captures, a).value;
    && res.op.kind == POP_BACK && res.op.inputs == [ph] && res.op.graph == st.graph.id
    && |res.op.outTypes| == 2 && res == Outputs(res.op)[1] && res.dtype == u.dtype
    && Outputs(res.op)[0].dtype == Variant
    && st2.popped == st.popped[ph := Outputs(res.op)[0]]
    && st2.indirect == st.indirect[u := res]
    && st2.innerToOuter == st.innerToOuter[u := a]
  }

  /** References through `Identity` operations are resolved as references to their inputs. */
  lemma CaptureSkipsIdentity(st: Resolver, t: Tensor, whitelisted: bool, next: nat)
    requires Wf(st)
    requires GraphOf(t) == st.forward.id && t.op.kind == IDENTITY && |t.op.inputs| > 0
    requires GraphOf(t.op.inputs[0]) == st.forward.id
    ensures Capture(st, t, whitelisted, next) == Capture(st, t.op.inputs[0], whitelisted, next)
  {
  }

  /** Tensors of graphs other than the gradient body and the forward body take the ordinary
      capture path, and only when whitelisted; the resolver's maps are untouched. */
  lemma CaptureOther(st: Resolver, t: Tensor, next: nat)
    requires Wf(st)
    requires GraphOf(t) != st.graph.id && GraphOf(t) != st.forward.id
    ensures Capture(st, t, false, next) == Failure(OutOfScopeCapture(t))
    ensures var b := CaptureHelper(st.graph, t, next);
            Capture(st, t, true, next) == Success(Resolved(st.(graph := b.graph), b.tensor, b.next))
  {
  }

  /** Resolving keeps every earlier answer valid: captures are only ever appended. */
  lemma CaptureKeepsConsistent(st: Resolver, t: Tensor, whitelisted: bool, next: nat)
    requires Wf(st) && Consistent(st)
    requires Capture(st, t, whitelisted, next).Success?
    ensures Consistent(Capture(st, t, whitelisted, next).value.st)
  {
    if GraphOf(t) != st.graph.id {
      if GraphOf(t) != st.forward.id {
        KeptByGrowth(st, CaptureHelperGrad(st, t, next).value.st);
      } else {
        var u := SkipIdentities(t).value;
        if u in st.indirect {
          KeptByGrowth(st, ResolveCached(st, u, next).value.st);
        } else if u.dtype == Resource {
          ResourceKeepsConsistent(st, u, next);
        } else {
          IntermediateKeepsConsistent(st, u, next);
        }
      }
    }
  }

  /** Growing the captures alone keeps the resolver consistent. */
  lemma KeptByGrowth(st: Resolver, st2: Resolver)
    requires Consistent(st) && Same(st, st2)
    requires st2.indirect == st.indirect && st2.innerToOuter == st.innerToOuter
    ensures Consistent(st2)
  {
    forall v | v in st.indirect
      ensures IsCaptured(st2.graph, st.innerToOuter[v])
    {
      CapturesGrow(st.graph, st2.graph, st.innerToOuter[v]);
    }
  }

  lemma ResourceKeepsConsistent(st: Resolver, u: Tensor, next: nat)
    requires Wf(st) && Consistent(st) && u !in st.indirect
    requires ResolveResource(st, u, next).Success?
    ensures Consistent(ResolveResource(st, u, next).value.st)
  {
    var st2 := ResolveResource(st, u, next).value.st;
    forall v | v in st.indirect
      ensures IsCaptured(st2.graph, st.innerToOuter[v])
    {
      CapturesGrow(st.graph, st2.graph, st.innerToOuter[v]);
    }
  }

  lemma IntermediateKeepsConsistent(st: Resolver, u: Tensor, next: nat)
    requires Wf(st) && Consistent(st) && u !in st.indirect
    requires ResolveIntermediate(st, u, next).Success?
    ensures Consistent(ResolveIntermediate(st, u, next).value.st)
  {
    var a := ResolvedIntermediate(st, u, next);
    PopKeepsConsistent(st, u, a, next);
  }

  lemma PopKeepsConsistent(st: Resolver, u: Tensor, a: Tensor, next: nat)
    requires Wf(st) && Consistent(st) && u !in st.indirect && GraphOf(a) == st.whileOp.graph
    ensures Consistent(PopAccumulator(st, u, a, next).st)
  {
    var st2 := PopAccumulator(st, u, a, next).st;
    forall v | v in st.indirect
      ensures IsCaptured(st2.graph, st.innerToOuter[v])
    {
      CapturesGrow(st.graph, st2.graph, st.innerToOuter[v]);
    }
  }

  /** The gradient body's captures after a resolution extend the ones before. */
  lemma CapturesGrow(g: FuncGraph, g2: FuncGraph, x: Tensor)
    requires g.captures <= g2.captures
    requires LookupCapture(g.captures, x).Some?
    ensures LookupCapture(g2.captures, x) == LookupCapture(g.captures, x)
  {
    assert g2.captures == g.captures + g2.captures[|g.captures|..];
    LookupCaptureAppend(g.captures, g2.captures[|g.captures|..], x);
  }

  /** After a forward tensor is resolved, the tensor it stands for is remembered with the answer. */
  lemma CaptureRemembers(st: Resolver, t: Tensor, whitelisted: bool, next: nat)
    requires Wf(st) && GraphOf(t) == st.forward.id
    requires Capture(st, t, whitelisted, next).Success?
    ensures SkipIdentities(t).Success?
    ensures var r := Capture(st, t, whitelisted, next).value;
            var u := SkipIdentities(t).value;
            u in r.st.indirect && r.st.indirect[u] == r.tensor
  {
    var u := SkipIdentities(t).value;
    if u !in st.indirect && u.dtype != Resource {
      var a := IntermediatePopped(st, t, whitelisted, next, u);
    }
  }

  /** Conversely, a forward intermediate with an accumulator among the forward body's outputs, at
      a position the forward `While` has an output for, resolves when not yet mapped. */
  lemma CaptureIntermediateResolves(st: Resolver, t: Tensor, whitelisted: bool, next: nat, u: Tensor)
    requires Wf(st) && GraphOf(t) == st.forward.id
    requires SkipIdentities(t) == Success(u) && u !in st.indirect && u.dtype != Resource
    requires u !in st.innerToOuter
    requires GetAccumulator(st.forward, u).Some?
    requires GraphOf(GetAccumulator(st.forward, u).value) == st.forward.id
    requires IndexOf(st.forward.outputs, GetAccumulator(st.forward, u).value) < |st.whileOp.outTypes|
    ensures Capture(st, t, whitelisted, next).Success?
  {
  }

  /** Resolving the same forward tensor a second time returns the first answer and changes
      nothing: no second placeholder, no second pop. */
  lemma {:induction false} CaptureTwice(st: Resolver, t: Tensor, whitelisted: bool, next: nat)
    requires Wf(st) && Consistent(st) && GraphOf(t) == st.forward.id
    requires Capture(st, t, whitelisted, next).Success?
    ensures var r := Capture(st, t, whitelisted, next).value;
            Capture(r.st, t, whitelisted, r.next) == Success(r)
  {
    var r := Capture(st, t, whitelisted, next).value;
    CaptureRemembers(st, t, whitelisted, next);
    CaptureKeepsConsistent(st, t, whitelisted, next);
    var u := SkipIdentities(t).value;
    assert IsCaptured(r.st.graph, r.st.innerToOuter[u]);
    assert r.st.(graph := r.st.graph) == r.st;
  }

  /** A resource resolves to the capture of the forward `While` input at the position of the
      loop variable it comes from; that loop variable must be passed through the body unchanged,
      and a resource with no such loop variable is rejected. Nothing is popped. */
  lemma CaptureResource(st: Resolver, t: Tensor, whitelisted: bool, next: nat, u: Tensor)
    requires Wf(st) && GraphOf(t) == st.forward.id
    requires SkipIdentities(t) == Success(u) && u !in st.indirect && u.dtype == Resource
    ensures var r := Capture(st, t, whitelisted, next);
            (r.Failure? && r.error.ResourceCreatedInBody?) <==> u !in st.forward.inputs && u.op.kind != WHILE
    ensures var r := Capture(st, t, whitelisted, next);
            var ix := ResourceIndex(st.forward, u);
            (r.Failure? && r.error.ResourceNotInvariant?) <==>
              ix.Success? && ix.value < |st.forward.outputs| && st.forward.inputs[ix.value] != st.forward.outputs[ix.value]
    ensures var r := Capture(st, t, whitelisted, next);
            var ix := ResourceIndex(st.forward, u);
            r.Success? ==>
              && ix.Success? && ix.value < |st.forward.outputs| && ix.value < |st.whileOp.inputs|
              && st.forward.inputs[ix.value] == st.forward.outputs[ix.value]
              && LookupCapture(r.value.st.graph.captures, st.whileOp.inputs[ix.value]) == Some(r.value.tensor)
              && r.value.st.popped == st.popped
              && r.value.st.indirect == st.indirect[u := r.value.tensor]
              && r.value.st.innerToOuter == st.innerToOuter[u := st.whileOp.inputs[ix.value]]
  {
  }

  /** Conversely, a resource that is a loop variable passed through the body unchanged, at a
      position the forward `While` has an input for, always resolves. */
  lemma CaptureResourceResolves(st: Resolver, t: Tensor, whitelisted: bool, next: nat, u: Tensor)
    requires Wf(st) && GraphOf(t) == st.forward.id
    requires SkipIdentities(t) == Success(u) && u !in st.indirect && u.dtype == Resource
    requires u in st.forward.inputs
    requires var i := IndexOf(st.forward.inputs, u);
             i < |st.forward.outputs| && st.forward.inputs[i] == st.forward.outputs[i] && i < |st.whileOp.inputs|
    ensures Capture(st, t, whitelisted, next).Success?
  {
  }

  /** A forward intermediate that resolves is popped from the outer accumulator at the position
      of its accumulator among the forward body's outputs. */
  lemma IntermediatePopped(st: Resolver, t: Tensor, whitelisted: bool, next: nat, u: Tensor) returns (a: Tensor)
    requires Wf(st) && GraphOf(t) == st.forward.id
    requires SkipIdentities(t) == Success(u) && u !in st.indirect && u.dtype != Resource
    requires Capture(st, t, whitelisted, next).Success?
    ensures GetAccumulator(st.forward, u).Some?
    ensures var idx := IndexOf(st.forward.outputs, GetAccumulator(st.forward, u).value);
            idx < |st.whileOp.outTypes| && a == Outputs(st.whileOp)[idx]
    ensures GraphOf(a) == st.whileOp.graph
    ensures Capture(st, t, whitelisted, next) == Success(PopAccumulator(st, u, a, next))
  {
    a := ResolvedIntermediate(st, u, next);
  }

  /** A successful `ResolveIntermediate` pops from the outer accumulator at the position of `u`'s
      accumulator among the forward body's outputs. */
  lemma ResolvedIntermediate(st: Resolver, u: Tensor, next: nat) returns (a: Tensor)
    requires Wf(st) && ResolveIntermediate(st, u, next).Success?
    ensures GetAccumulator(st.forward, u).Some?
    ensures var idx := IndexOf(st.forward.outputs, GetAccumulator(st.forward, u).value);
            idx < |st.whileOp.outTypes| && a == Outputs(st.whileOp)[idx]
    ensures GraphOf(a) == st.whileOp.graph
    ensures ResolveIntermediate(st, u, next) == Success(PopAccumulator(st, u, a, next))
  {
    var acc := GetAccumulator(st.forward, u).value;
    a := Outputs(st.whileOp)[IndexOf(st.forward.outputs, acc)];
  }

  /** A non-resource forward tensor must have been accumulated; it resolves to a value popped from
      the forward `While` output at its accumulator's position, adding exactly one `popped` entry. */
  lemma CaptureIntermediate(st: Resolver, t: Tensor, whitelisted: bool, next: nat, u: Tensor)
    requires Wf(st) && GraphOf(t) == st.forward.id
    requires SkipIdentities(t) == Success(u) && u !in st.indirect && u.dtype != Resource
    ensures var r := Capture(st, t, whitelisted, next);
            (r.Failure? && r.error.UnaccumulatedIntermediate?) <==>
              u !in st.innerToOuter && GetAccumulator(st.forward, u).None?
    ensures var r := Capture(st, t, whitelisted, next);
            r.Success? ==>
              && GetAccumulator(st.forward, u).Some?
              && var idx := IndexOf(st.forward.outputs, GetAccumulator(st.forward, u).value);
              && idx < |st.whileOp.outTypes|
              && PoppedFrom(st, r.value.st, r.value.tensor, u, Outputs(st.whileOp)[idx])
  {
    var r := Capture(st, t, whitelisted, next);
    if r.Success? {
      var a := IntermediatePopped(st, t, whitelisted, next, u);
    }
  }

  /** Every recorded pop belongs to a placeholder the gradient body captured. */
  predicate PoppedCaptured(st: Resolver) {
    forall ph :: ph in st.popped ==> ph in InternalCaptures(st.graph)
  }

  lemma InternalCapturesGrow(g: FuncGraph, g2: FuncGraph)
    requires g.captures <= g2.captures
    ensures forall x :: x in InternalCaptures(g) ==> x in InternalCaptures(g2)
  {
    forall x | x in InternalCaptures(g)
      ensures x in InternalCaptures(g2)
    {
      var i :| 0 <= i < |g.captures| && InternalCaptures(g)[i] == x;
      assert InternalCaptures(g2)[i] == x;
    }
  }

  lemma LookupIsInternal(g: FuncGraph, a: Tensor)
    requires IsCaptured(g, a)
    ensures LookupCapture(g.captures, a).value in InternalCaptures(g)
  {
    var i :| 0 <= i < |g.captures| && g.captures[i] == Graph.Capture(a, LookupCapture(g.captures, a).value);
    assert InternalCaptures(g)[i] == LookupCapture(g.captures, a).value;
  }

  /** Resolving keeps every recorded pop tied to a captured placeholder. */
  lemma CaptureKeepsPoppedCaptured(st: Resolver, t: Tensor, whitelisted: bool, next: nat)
    requires Wf(st) && PoppedCaptured(st)
    requires Capture(st, t, whitelisted, next).Success?
    ensures PoppedCaptured(Capture(st, t, whitelisted, next).value.st)
  {
    var r := Capture(st, t, whitelisted, next).value;
    InternalCapturesGrow(st.graph, r.st.graph);
    if GraphOf(t) == st.forward.id {
      var u := SkipIdentities(t).value;
      if u !in st.indirect && u.dtype != Resource {
        var a := IntermediatePopped(st, t, whitelisted, next, u);
        LookupIsInternal(r.st.graph, a);
      }
    }
  }

  /** Resolving keeps the gradient body's inputs laid out as arguments then captures: every new
      capture is of a tensor from another graph. */
  lemma CaptureKeepsBuilt(st: Resolver, t: Tensor, whitelisted: bool, next: nat, k: nat)
    requires Wf(st) && BuiltWithArgs(st.graph, k)
    requires Capture(st, t, whitelisted, next).Success?
    ensures BuiltWithArgs(Capture(st, t, whitelisted, next).value.st.graph, k)
  {
    if GraphOf(t) != st.graph.id {
      if GraphOf(t) != st.forward.id {
        CaptureHelperKeepsBuilt(st.graph, k, t, next);
      } else {
        var u := SkipIdentities(t).value;
        if u in st.indirect {
        } else if u.dtype == Resource {
          var index := ResourceIndex(st.forward, u).value;
          CaptureHelperKeepsBuilt(st.graph, k, st.whileOp.inputs[index], next);
        } else {
          var a := IntermediatePopped(st, t, whitelisted, next, u);
          CaptureHelperKeepsBuilt(st.graph, k, a, next);
        }
      }
    }
  }
}
