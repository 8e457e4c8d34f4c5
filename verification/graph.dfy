/** The abstract graph the loop transformer works on: operations, tensors and function graphs.

    A tensor is the `index`-th output of its producing operation, and an operation holds its
    input tensors, so every tensor is structurally larger than the inputs of its producer.
    Operations are told apart by a `name` drawn from one counter (`next`) that every
    construction in the model threads through. */
module Graph {
  import opened Wrappers
  import opened Shapes

  /** Element type of a tensor. `Plain(trainable)` covers every numeric or boolean type; its flag
      is what the differentiator's trainability test would answer for it. */
  datatype DType = Resource | Variant | Plain(trainable: bool)

  /** Operation attributes the model looks at. */
  datatype Attr =
    | NoAttr
    | Value(v: int)                          // a Const
    | ListAttrs(elementDtype: DType, elementShape: ConvertibleShape)  // an EmptyTensorList
    | WhileAttrs(cond: nat, body: nat, lowerUsingSwitchMerge: bool)

  datatype OutType = OutType(dtype: DType, shape: Shape)

  datatype Node = Node(graph: nat, name: nat, kind: string, inputs: seq<Tensor>, attr: Attr, outTypes: seq<OutType>)

  datatype Tensor = Tensor(op: Node, index: nat, dtype: DType, shape: Shape)

  /** One entry of a function graph's `captures`: the outer tensor and its placeholder inside. */
  datatype Capture = Capture(external: Tensor, internal: Tensor)

  datatype FuncGraph = FuncGraph(id: nat, ops: seq<Node>, inputs: seq<Tensor>, outputs: seq<Tensor>, captures: seq<Capture>)

  /** Every failure the transformer can raise; each is fatal to the assembly call. */
  datatype Error =
    | StructureMismatch                  // body results do not match the loop variables
    | SharedCapture(t: Tensor)           // cond and body both capture `t`
    | ShapeIncompatible(index: nat)      // loop variable `index` changes shape beyond its invariant
    | ArityMismatch                      // cond/body input or output counts are off
    | MissingIncomingGradient            // a trainable non-resource output has no gradient
    | NothingToDifferentiate             // no output has a gradient: unpacking an empty zip fails
    | MissingOutputGradient              // the differentiator returned None for some x
    | OutOfScopeCapture(t: Tensor)       // captured from neither the gradient nor the forward graph
    | ResourceCreatedInBody(t: Tensor)   // a resource that is not a loop input
    | ResourceNotInvariant(t: Tensor)    // a resource input whose body output differs
    | UnaccumulatedIntermediate(t: Tensor)
    | UnresolvedCapture(t: Tensor)       // an internal capture neither popped nor a resource
    | NotInList                          // `list.index` of a missing element
    | IndexOutOfRange                    // a Python `IndexError`
    | InternalAssertion                  // an `assert` on the transformer's own bookkeeping

  const IDENTITY := "Identity"
  const PLACEHOLDER := "Placeholder"
  const CONST := "Const"
  const ADD := "Add"
  const LESS := "Less"
  const WHILE := "While"
  const PUSH_BACK := "TensorListPushBack"
  const POP_BACK := "TensorListPopBack"
  const EMPTY_LIST := "EmptyTensorList"

  function Outputs(n: Node): (r: seq<Tensor>)
    ensures |r| == |n.outTypes|
    ensures forall i :: 0 <= i < |r| ==> r[i].op == n && r[i].index == i
  {
    seq(|n.outTypes|, i requires 0 <= i < |n.outTypes| => Tensor(n, i, n.outTypes[i].dtype, n.outTypes[i].shape))
  }

  function Output0(n: Node): (r: Tensor)
    requires |n.outTypes| > 0
    ensures r == Outputs(n)[0]
  {
    Tensor(n, 0, n.outTypes[0].dtype, n.outTypes[0].shape)
  }

  function GraphOf(t: Tensor): nat {
    t.op.graph
  }

  /** Python's `list.index`: the first position of `x`. */
  function IndexOf<T(==)>(s: seq<T>, x: T): (r: nat)
    requires x in s
    ensures r < |s| && s[r] == x
    ensures forall j :: 0 <= j < r ==> s[j] != x
  {
    if s[0] == x then 0 else 1 + IndexOf(s[1..], x)
  }

  lemma IndexOfAppend<T>(s: seq<T>, extra: seq<T>, x: T)
    requires x in s
    ensures x in s + extra && IndexOf(s + extra, x) == IndexOf(s, x)
  {
    assert (s + extra)[IndexOf(s, x)] == x;
  }

  lemma IndexOfFreshLast<T>(s: seq<T>, x: T)
    requires x !in s
    ensures x in s + [x] && IndexOf(s + [x], x) == |s|
  {
    assert (s + [x])[|s|] == x;
  }

  /** No element of `s` occurs twice. */
  predicate Distinct<T(==)>(s: seq<T>) {
    forall i, j :: 0 <= i < j < |s| ==> s[i] != s[j]
  }

  /** Concatenating two duplicate-free sequences with no common element keeps it so. */
  lemma DistinctAppend<T>(a: seq<T>, b: seq<T>)
    requires Distinct(a) && Distinct(b) && forall x :: x in a ==> x !in b
    ensures Distinct(a + b)
  {
    forall i, j | 0 <= i < j < |a + b|
      ensures (a + b)[i] != (a + b)[j]
    {
      if i < |a| && j >= |a| {
        assert (a + b)[i] in a && (a + b)[j] == b[j - |a|];
      }
    }
  }

  /** The operations among `ops` that read `t`, in operation order. TensorFlow's `consumers()`
      repeats an operation once per input edge that reads `t`; here it appears once. Every scan
      over the consumers looks for the first one with a property of the operation alone, so the
      repetition cannot change its answer. */
  function ConsumersIn(ops: seq<Node>, t: Tensor): (r: seq<Node>)
    ensures forall c :: c in r <==> c in ops && t in c.inputs
  {
    if ops == [] then []
    else (if t in ops[0].inputs then [ops[0]] else []) + ConsumersIn(ops[1..], t)
  }

  /** `t.consumers()` inside graph `g`. */
  function Consumers(g: FuncGraph, t: Tensor): seq<Node> {
    ConsumersIn(g.ops, t)
  }

  lemma {:induction false} ConsumersInAppend(a: seq<Node>, b: seq<Node>, t: Tensor)
    ensures ConsumersIn(a + b, t) == ConsumersIn(a, t) + ConsumersIn(b, t)
  {
    if a == [] {
      assert a + b == b;
    } else {
      assert (a + b)[0] == a[0];
      assert (a + b)[1..] == a[1..] + b;
      ConsumersInAppend(a[1..], b, t);
    }
  }

  function ExternalCaptures(g: FuncGraph): (r: seq<Tensor>)
    ensures |r| == |g.captures|
    ensures forall i :: 0 <= i < |r| ==> r[i] == g.captures[i].external
  {
    seq(|g.captures|, i requires 0 <= i < |g.captures| => g.captures[i].external)
  }

  function InternalCaptures(g: FuncGraph): (r: seq<Tensor>)
    ensures |r| == |g.captures|
    ensures forall i :: 0 <= i < |r| ==> r[i] == g.captures[i].internal
  {
    seq(|g.captures|, i requires 0 <= i < |g.captures| => g.captures[i].internal)
  }

  /** `captures.get(t)`: the placeholder standing for outer tensor `t`, if `t` is captured. */
  function LookupCapture(caps: seq<Capture>, t: Tensor): (r: Option<Tensor>)
    ensures r.None? <==> forall i :: 0 <= i < |caps| ==> caps[i].external != t
    ensures r.Some? ==> exists i :: 0 <= i < |caps| && caps[i] == Capture(t, r.value)
  {
    if caps == [] then None
    else if caps[0].external == t then Some(caps[0].internal)
    else LookupCapture(caps[1..], t)
  }

  lemma {:induction false} LookupCaptureAppend(caps: seq<Capture>, extra: seq<Capture>, t: Tensor)
    requires LookupCapture(caps, t).Some?
    ensures LookupCapture(caps + extra, t) == LookupCapture(caps, t)
  {
    assert caps != [];
    assert (caps + extra)[0] == caps[0];
    if caps[0].external != t {
      assert (caps + extra)[1..] == caps[1..] + extra;
      LookupCaptureAppend(caps[1..], extra, t);
    }
  }

  lemma {:induction false} LookupCaptureOther(caps: seq<Capture>, c: Capture, t: Tensor)
    requires c.external != t
    ensures LookupCapture(caps + [c], t) == LookupCapture(caps, t)
  {
    if caps == [] {
      assert caps + [c] == [c];
      assert [c][1..] == [];
    } else {
      assert (caps + [c])[0] == caps[0];
      assert (caps + [c])[1..] == caps[1..] + [c];
      LookupCaptureOther(caps[1..], c, t);
    }
  }

  predicate IsCaptured(g: FuncGraph, t: Tensor) {
    LookupCapture(g.captures, t).Some?
  }

  /** The result of adding something to a graph: the new graph, the tensor of interest and the
      next unused name. */
  datatype Built = Built(graph: FuncGraph, tensor: Tensor, next: nat)

  /** A graph grown by some construction, and the next unused name. */
  datatype Grown = Grown(graph: FuncGraph, next: nat)

  /** A new one-output operation named `next` in graph `g`. */
  function NewNode(g: FuncGraph, next: nat, kind: string, inputs: seq<Tensor>, attr: Attr, out: OutType): (n: Node)
    ensures n.graph == g.id && n.name == next && n.kind == kind && n.inputs == inputs && |n.outTypes| == 1
  {
    Node(g.id, next, kind, inputs, attr, [out])
  }

  function AddOp(g: FuncGraph, n: Node): (r: FuncGraph)
    ensures r.id == g.id && r.inputs == g.inputs && r.outputs == g.outputs && r.captures == g.captures
    ensures r.ops == g.ops + [n]
  {
    g.(ops := g.ops + [n])
  }

  /** `FuncGraph._capture_helper`: reuse the placeholder of an already captured tensor, otherwise
      create a placeholder, record the capture and append the placeholder to the inputs. */
  function CaptureHelper(g: FuncGraph, t: Tensor, next: nat): (r: Built)
    ensures LookupCapture(r.graph.captures, t) == Some(r.tensor)
    ensures r.graph.id == g.id && r.graph.outputs == g.outputs
    ensures r.next >= next
    ensures IsCaptured(g, t) ==> r == Built(g, LookupCapture(g.captures, t).value, next)
    ensures !IsCaptured(g, t) ==>
              && r.graph.inputs == g.inputs + [r.tensor]
              && r.graph.captures == g.captures + [Capture(t, r.tensor)]
              && r.graph.ops == g.ops + [r.tensor.op]
              && r.tensor.op.name == next && r.tensor.op.kind == PLACEHOLDER && r.tensor.op.inputs == []
              && r.tensor.op.graph == g.id
              && r.tensor.dtype == t.dtype && r.tensor.shape == t.shape
              && r.next == next + 1
  {
    match LookupCapture(g.captures, t)
    case Some(ph) => Built(g, ph, next)
    case None =>
      var n := NewNode(g, next, PLACEHOLDER, [], NoAttr, OutType(t.dtype, t.shape));
      var ph := Output0(n);
      assert LookupCapture(g.captures + [Capture(t, ph)], t) == Some(ph) by {
        LookupCaptureLast(g.captures, t, ph);
      }
      Built(g.(ops := g.ops + [n], inputs := g.inputs + [ph], captures := g.captures + [Capture(t, ph)]), ph, next + 1)
  }

  lemma {:induction false} LookupCaptureLast(caps: seq<Capture>, t: Tensor, ph: Tensor)
    requires LookupCapture(caps, t).None?
    ensures LookupCapture(caps + [Capture(t, ph)], t) == Some(ph)
  {
    if caps == [] {
      assert caps + [Capture(t, ph)] == [Capture(t, ph)];
    } else {
      assert (caps + [Capture(t, ph)])[0] == caps[0];
      assert (caps + [Capture(t, ph)])[1..] == caps[1..] + [Capture(t, ph)];
      LookupCaptureLast(caps[1..], t, ph);
    }
  }

  /** `FuncGraph.capture`: a tensor of the graph itself is returned as is. */
  function CaptureTensor(g: FuncGraph, t: Tensor, next: nat): (r: Built)
    ensures GraphOf(t) == g.id ==> r == Built(g, t, next)
    ensures GraphOf(t) != g.id ==> r == CaptureHelper(g, t, next)
  {
    if GraphOf(t) == g.id then Built(g, t, next) else CaptureHelper(g, t, next)
  }

  /** Capturing twice is capturing once: the second call returns the same placeholder and
      leaves the graph and the name counter as they were. */
  lemma CaptureHelperIdempotent(g: FuncGraph, t: Tensor, next: nat)
    ensures var r := CaptureHelper(g, t, next);
            CaptureHelper(r.graph, t, r.next) == r
  {
  }

  /** The graph's inputs are its `numArgs` argument placeholders followed by one placeholder per
      capture, in capture order; captured tensors are distinct and come from other graphs. This is
      what the closure builder and `capture` maintain. */
  predicate BuiltWithArgs(g: FuncGraph, numArgs: nat) {
    && |g.inputs| == numArgs + |g.captures|
    && (forall i :: 0 <= i < |g.captures| ==> g.inputs[numArgs + i] == g.captures[i].internal)
    && (forall i, j :: 0 <= i < j < |g.captures| ==> g.captures[i].external != g.captures[j].external)
    && (forall i :: 0 <= i < |g.captures| ==> GraphOf(g.captures[i].external) != g.id)
  }

  lemma CaptureHelperKeepsBuilt(g: FuncGraph, numArgs: nat, t: Tensor, next: nat)
    requires BuiltWithArgs(g, numArgs)
    requires GraphOf(t) != g.id
    ensures BuiltWithArgs(CaptureHelper(g, t, next).graph, numArgs)
  {
  }

  /** Every name the graph mentions is below `next`, so a node named `next` or later is new. */
  predicate NamesBelow(g: FuncGraph, next: nat) {
    && (forall t :: t in g.inputs ==> t.op.name < next)
    && (forall t :: t in g.outputs ==> t.op.name < next)
    && (forall n :: n in g.ops ==> n.name < next)
    && (forall n, x {:trigger x in n.inputs, n in g.ops} :: n in g.ops && x in n.inputs ==> x.op.name < next)
    && (forall c :: c in g.captures ==> c.external.op.name < next && c.internal.op.name < next)
  }

  predicate TensorsBelow(ts: seq<Tensor>, next: nat) {
    forall t :: t in ts ==> t.op.name < next
  }

  lemma CaptureHelperNamesBelow(g: FuncGraph, t: Tensor, next: nat)
    requires NamesBelow(g, next) && t.op.name <= next
    ensures NamesBelow(CaptureHelper(g, t, next).graph, CaptureHelper(g, t, next).next)
  {
  }

  lemma NamesBelowMonotone(g: FuncGraph, f: nat, f': nat)
    requires NamesBelow(g, f) && f <= f'
    ensures NamesBelow(g, f')
  {
  }
}
