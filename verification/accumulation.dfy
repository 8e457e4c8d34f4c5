/** Which intermediate tensors of a loop body get an accumulator, and how an existing accumulator
    is recognised: a `TensorListPushBack` whose list argument is a body input and whose result
    (or the `Identity` of it) is the body output at the same position. */
module Accumulation {
  import opened Wrappers
  import opened Shapes
  import opened Graph

  /** `get_func_graph_output`: `t` itself when it is a graph output, otherwise the output of
      `t`'s first consumer when that consumer is an `Identity` whose output is a graph output.
      A tensor with no consumer at all has no graph output. */
  function FuncGraphOutput(g: FuncGraph, t: Tensor): (r: Option<Tensor>)
    ensures r.Some? ==> r.value in g.outputs
    ensures t in g.outputs ==> r == Some(t)
    ensures r.Some? && r.value != t ==>
              && |Consumers(g, t)| > 0
              && Consumers(g, t)[0].kind == IDENTITY
              && |Consumers(g, t)[0].outTypes| > 0
              && r.value == Output0(Consumers(g, t)[0])
  {
    if t in g.outputs then Some(t)
    else
      var cs := Consumers(g, t);
      if |cs| > 0 && cs[0].kind == IDENTITY && |cs[0].outTypes| > 0 && Output0(cs[0]) in g.outputs
      then Some(Output0(cs[0]))
      else None
  }

  /** `c` is a push onto an accumulator: its list argument is a graph input, its pushed list
      reaches a graph output, and the two positions agree. */
  predicate IsAccumulatingPush(g: FuncGraph, c: Node) {
    && c.kind == PUSH_BACK
    && |c.inputs| > 0
    && c.inputs[0] in g.inputs
    && |c.outTypes| > 0
    && FuncGraphOutput(g, Output0(c)).Some?
    && IndexOf(g.inputs, c.inputs[0]) == IndexOf(g.outputs, FuncGraphOutput(g, Output0(c)).value)
  }

  /** The accumulator output a consumer provides, if it is an accumulating push. */
  function AccumulatorVia(g: FuncGraph, c: Node): (r: Option<Tensor>)
    ensures r.Some? <==> IsAccumulatingPush(g, c)
    ensures r.Some? ==> r == FuncGraphOutput(g, Output0(c)) && r.value in g.outputs
  {
    if c.kind != PUSH_BACK || |c.inputs| == 0 || c.inputs[0] !in g.inputs || |c.outTypes| == 0 then None
    else
      match FuncGraphOutput(g, Output0(c))
      case None => None
      case Some(out) => if IndexOf(g.inputs, c.inputs[0]) == IndexOf(g.outputs, out) then Some(out) else None
  }

  /** The accumulator found through the first accumulating push among `cs`. */
  function FirstAccumulator(g: FuncGraph, cs: seq<Node>): (r: Option<Tensor>)
    ensures r.None? <==> forall i :: 0 <= i < |cs| ==> !IsAccumulatingPush(g, cs[i])
    ensures r.Some? ==> exists i :: 0 <= i < |cs| && IsAccumulatingPush(g, cs[i])
                          && r == AccumulatorVia(g, cs[i])
                          && forall j :: 0 <= j < i ==> !IsAccumulatingPush(g, cs[j])
  {
    if cs == [] then None
    else
      match AccumulatorVia(g, cs[0])
      case Some(out) => Some(out)
      case None =>
        var rest := FirstAccumulator(g, cs[1..]);
        FirstAccumulatorPast(g, cs, rest);
        rest
  }

  /** What `FirstAccumulator` promises for `cs[1..]` carries over to `cs` when `cs[0]` is not an
      accumulating push. */
  lemma FirstAccumulatorPast(g: FuncGraph, cs: seq<Node>, rest: Option<Tensor>)
    requires |cs| > 0 && !IsAccumulatingPush(g, cs[0])
    requires rest.None? <==> forall i :: 0 <= i < |cs[1..]| ==> !IsAccumulatingPush(g, cs[1..][i])
    requires rest.Some? ==> exists i :: 0 <= i < |cs[1..]| && IsAccumulatingPush(g, cs[1..][i])
                              && rest == AccumulatorVia(g, cs[1..][i])
                              && forall j :: 0 <= j < i ==> !IsAccumulatingPush(g, cs[1..][j])
    ensures rest.None? <==> forall i :: 0 <= i < |cs| ==> !IsAccumulatingPush(g, cs[i])
    ensures rest.Some? ==> exists i :: 0 <= i < |cs| && IsAccumulatingPush(g, cs[i])
                             && rest == AccumulatorVia(g, cs[i])
                             && forall j :: 0 <= j < i ==> !IsAccumulatingPush(g, cs[j])
  {
    if rest.Some? {
      var k :| 0 <= k < |cs[1..]| && IsAccumulatingPush(g, cs[1..][k]) && rest == AccumulatorVia(g, cs[1..][k])
               && forall j :: 0 <= j < k ==> !IsAccumulatingPush(g, cs[1..][j]);
      assert cs[k + 1] == cs[1..][k];
      forall j | 0 <= j < k + 1
        ensures !IsAccumulatingPush(g, cs[j])
      {
        if j > 0 { assert cs[j] == cs[1..][j - 1]; }
      }
    } else {
      forall i | 0 <= i < |cs|
        ensures !IsAccumulatingPush(g, cs[i])
      {
        if i > 0 { assert cs[i] == cs[1..][i - 1]; }
      }
    }
  }

  /** `_get_accumulator`: the graph output holding the accumulated values of `t`, if any. */
  function GetAccumulator(g: FuncGraph, t: Tensor): (r: Option<Tensor>)
    ensures r.Some? <==> exists c :: c in Consumers(g, t) && IsAccumulatingPush(g, c)
    ensures r.Some? ==> r.value in g.outputs
    ensures r.Some? ==> exists c :: c in g.ops && t in c.inputs && IsAccumulatingPush(g, c)
                                    && r == FuncGraphOutput(g, Output0(c))
  {
    var cs := Consumers(g, t);
    var r := FirstAccumulator(g, cs);
    assert r.None? ==> forall c :: c in cs ==> !IsAccumulatingPush(g, c) by {
      if r.None? {
        forall c | c in cs
          ensures !IsAccumulatingPush(g, c)
        {
          var i :| 0 <= i < |cs| && cs[i] == c;
        }
      }
    }
    r
  }

  /** The filter of `_get_intermediates`: not the loop counter, not a resource, and not already
      accumulated. */
  predicate Accumulable(g: FuncGraph, o: Tensor)
    requires |g.inputs| > 0
  {
    o != g.inputs[0] && o.dtype != Resource && GetAccumulator(g, o).None?
  }

  function IntermediatesOf(g: FuncGraph, ops: seq<Node>): (r: seq<Tensor>)
    requires |g.inputs| > 0
    ensures forall t :: t in r <==>
              (exists n :: n in ops && n.kind != IDENTITY && t in Outputs(n)) && Accumulable(g, t)
  {
    if ops == [] then []
    else
      var here := if ops[0].kind == IDENTITY then [] else Keep(g, Outputs(ops[0]));
      var rest := IntermediatesOf(g, ops[1..]);
      assert forall t :: t in rest ==> exists n :: n in ops && n.kind != IDENTITY && t in Outputs(n) by {
        forall t | t in rest
          ensures exists n :: n in ops && n.kind != IDENTITY && t in Outputs(n)
        {
          var n :| n in ops[1..] && n.kind != IDENTITY && t in Outputs(n);
          assert n in ops;
        }
      }
      assert forall t :: (exists n :: n in ops && n.kind != IDENTITY && t in Outputs(n)) && Accumulable(g, t)
                         ==> t in here + rest by {
        forall t | (exists n :: n in ops && n.kind != IDENTITY && t in Outputs(n)) && Accumulable(g, t)
          ensures t in here + rest
        {
          var n :| n in ops && n.kind != IDENTITY && t in Outputs(n);
          if n != ops[0] {
            assert n in ops[1..];
          }
        }
      }
      here + rest
  }

  function Keep(g: FuncGraph, outs: seq<Tensor>): (r: seq<Tensor>)
    requires |g.inputs| > 0
    ensures forall t :: t in r <==> t in outs && Accumulable(g, t)
  {
    if outs == [] then []
    else (if Accumulable(g, outs[0]) then [outs[0]] else []) + Keep(g, outs[1..])
  }

  /** `Keep` is an order-preserving filter: it distributes over concatenation, ... */
  lemma {:induction false} KeepAppend(g: FuncGraph, a: seq<Tensor>, b: seq<Tensor>)
    requires |g.inputs| > 0
    ensures Keep(g, a + b) == Keep(g, a) + Keep(g, b)
  {
    if a != [] {
      var h := if Accumulable(g, a[0]) then [a[0]] else [];
      assert (a + b)[0] == a[0] && (a + b)[1..] == a[1..] + b;
      KeepAppend(g, a[1..], b);
      calc {
        Keep(g, a + b);
        h + Keep(g, a[1..] + b);
        h + (Keep(g, a[1..]) + Keep(g, b));
        (h + Keep(g, a[1..])) + Keep(g, b);
        Keep(g, a) + Keep(g, b);
      }
    } else {
      assert a + b == b;
    }
  }

  /** ... and keeps a single tensor exactly when it is accumulable. */
  lemma KeepSingle(g: FuncGraph, o: Tensor)
    requires |g.inputs| > 0
    ensures Keep(g, [o]) == if Accumulable(g, o) then [o] else []
  {
  }

  /** Filtering distinct tensors gives distinct tensors. */
  lemma {:induction false} KeepDistinct(g: FuncGraph, outs: seq<Tensor>)
    requires |g.inputs| > 0 && Distinct(outs)
    ensures Distinct(Keep(g, outs))
  {
    if outs != [] {
      assert Distinct(outs[1..]);
      KeepDistinct(g, outs[1..]);
      assert outs[0] !in outs[1..];
      DistinctAppend([outs[0]], Keep(g, outs[1..]));
    }
  }

  /** The intermediates follow operation order: those of a concatenation of operation lists are
      the intermediates of the first list followed by those of the second. */
  lemma {:induction false} IntermediatesOfAppend(g: FuncGraph, a: seq<Node>, b: seq<Node>)
    requires |g.inputs| > 0
    ensures IntermediatesOf(g, a + b) == IntermediatesOf(g, a) + IntermediatesOf(g, b)
  {
    if a != [] {
      assert (a + b)[0] == a[0] && (a + b)[1..] == a[1..] + b;
      IntermediatesOfAppend(g, a[1..], b);
    } else {
      assert a + b == b;
    }
  }

  /** One operation contributes nothing when it is an `Identity`, and otherwise its accumulable
      outputs in output order. */
  lemma IntermediatesOfSingle(g: FuncGraph, n: Node)
    requires |g.inputs| > 0
    ensures IntermediatesOf(g, [n]) == if n.kind == IDENTITY then [] else Keep(g, Outputs(n))
  {
    assert [n][1..] == [];
  }

  /** Over distinct operations no intermediate is listed twice: a tensor is an output of its own
      operation only. */
  lemma {:induction false} IntermediatesOfDistinct(g: FuncGraph, ops: seq<Node>)
    requires |g.inputs| > 0 && Distinct(ops)
    ensures Distinct(IntermediatesOf(g, ops))
  {
    if ops != [] {
      var here := if ops[0].kind == IDENTITY then [] else Keep(g, Outputs(ops[0]));
      var rest := IntermediatesOf(g, ops[1..]);
      assert Distinct(ops[1..]);
      IntermediatesOfDistinct(g, ops[1..]);
      if ops[0].kind != IDENTITY {
        var outs := Outputs(ops[0]);
        assert Distinct(outs) by {
          forall i, j | 0 <= i < j < |outs|
            ensures outs[i] != outs[j]
          {
            assert outs[i].index == i && outs[j].index == j;
          }
        }
        KeepDistinct(g, outs);
      }
      assert ops[0] !in ops[1..];
      forall x | x in here
        ensures x !in rest
      {
        assert x.op == ops[0];
      }
      DistinctAppend(here, rest);
    }
  }

  /** `_get_intermediates`: every output of a non-`Identity` operation, in operation order, that
      passes the filter. The loop counter is the graph's first input. Membership holds in both
      directions: the intermediates are exactly the accumulable outputs of non-`Identity` ops. */
  function Intermediates(g: FuncGraph): (r: seq<Tensor>)
    requires |g.inputs| > 0
    ensures forall t :: t in r <==>
              && (exists n :: n in g.ops && n.kind != IDENTITY && t in Outputs(n))
              && t != g.inputs[0]
              && t.dtype != Resource
              && GetAccumulator(g, t).None?
  {
    IntermediatesOf(g, g.ops)
  }

  /** Forward wiring of one intermediate inside a body: capture the outer list `tl`, push `t`
      onto the placeholder, and append the pushed list to the body outputs. */
  function PushOnto(g: FuncGraph, tl: Tensor, t: Tensor, next: nat): (r: Built)
    requires GraphOf(tl) != g.id
    ensures r.graph.id == g.id
    ensures r.graph.outputs == g.outputs + [r.tensor]
    ensures r.tensor.op.kind == PUSH_BACK && r.tensor.dtype == Variant
    ensures |r.tensor.op.inputs| == 2 && r.tensor.op.inputs[1] == t
    ensures LookupCapture(r.graph.captures, tl) == Some(r.tensor.op.inputs[0])
    ensures r.next > next
  {
    var cap := CaptureTensor(g, tl, next);
    var push := NewNode(cap.graph, cap.next, PUSH_BACK, [cap.tensor, t], NoAttr, OutType(Variant, Scalar));
    var pushed := Output0(push);
    Built(AddOp(cap.graph, push).(outputs := g.outputs + [pushed]), pushed, cap.next + 1)
  }

  /** `g2` is `g` with things appended: new inputs and outputs carry names from `next` on, and
      no new operation is an `Identity`. */
  predicate Extends(g: FuncGraph, g2: FuncGraph, next: nat) {
    && g2.id == g.id
    && g.inputs <= g2.inputs && g.outputs <= g2.outputs && g.ops <= g2.ops
    && (forall i :: |g.inputs| <= i < |g2.inputs| ==> g2.inputs[i].op.name >= next)
    && (forall i :: |g.outputs| <= i < |g2.outputs| ==> g2.outputs[i].op.name >= next)
    && (forall i :: |g.ops| <= i < |g2.ops| ==> g2.ops[i].kind != IDENTITY)
  }

  lemma ExtendsTransitive(g1: FuncGraph, g2: FuncGraph, g3: FuncGraph, n1: nat, n2: nat)
    requires Extends(g1, g2, n1) && Extends(g2, g3, n2) && n1 <= n2
    ensures Extends(g1, g3, n1)
  {
  }

  lemma SplitAppended<T>(a: seq<T>, b: seq<T>)
    requires a <= b
    ensures b == a + b[|a|..]
  {
  }

  /** Membership and first position of an old tensor are unaffected by appending new ones. */
  lemma OldTensorPosition(old_: seq<Tensor>, new_: seq<Tensor>, next: nat, x: Tensor)
    requires old_ <= new_
    requires forall i :: |old_| <= i < |new_| ==> new_[i].op.name >= next
    requires x.op.name < next
    ensures x in new_ <==> x in old_
    ensures x in old_ ==> IndexOf(new_, x) == IndexOf(old_, x)
  {
    SplitAppended(old_, new_);
    if x in old_ {
      IndexOfAppend(old_, new_[|old_|..], x);
    }
  }

  /** An extension keeps an old tensor's first consumer, and gives a tensor without one at most
      a new first consumer that is not an `Identity`. */
  lemma FirstConsumerStable(g: FuncGraph, g2: FuncGraph, next: nat, y: Tensor)
    requires Extends(g, g2, next)
    ensures |Consumers(g, y)| > 0 ==> |Consumers(g2, y)| > 0 && Consumers(g2, y)[0] == Consumers(g, y)[0]
    ensures |Consumers(g, y)| == 0 && |Consumers(g2, y)| > 0 ==> Consumers(g2, y)[0].kind != IDENTITY
  {
    SplitAppended(g.ops, g2.ops);
    var extra := g2.ops[|g.ops|..];
    ConsumersInAppend(g.ops, extra, y);
    var cs2 := Consumers(g2, y);
    if |Consumers(g, y)| == 0 && |cs2| > 0 {
      assert cs2[0] in extra;
      var k :| 0 <= k < |extra| && extra[k] == cs2[0];
      assert g2.ops[|g.ops| + k] == extra[k];
    }
  }

  /** The graph output reached from an old tensor is the same in an extension. */
  lemma FuncGraphOutputStable(g: FuncGraph, g2: FuncGraph, next: nat, y: Tensor)
    requires Extends(g, g2, next) && NamesBelow(g, next)
    requires y.op.name < next
    ensures FuncGraphOutput(g2, y) == FuncGraphOutput(g, y)
  {
    OldTensorPosition(g.outputs, g2.outputs, next, y);
    if y !in g.outputs {
      FirstConsumerStable(g, g2, next, y);
      var cs := Consumers(g, y);
      if |cs| > 0 && |cs[0].outTypes| > 0 {
        assert cs[0] in g.ops;
        OldTensorPosition(g.outputs, g2.outputs, next, Output0(cs[0]));
      }
    }
  }

  /** Whether an old consumer is an accumulating push, and what it reaches, is the same in an
      extension. */
  lemma AccumulatorViaStable(g: FuncGraph, g2: FuncGraph, next: nat, c: Node)
    requires Extends(g, g2, next) && NamesBelow(g, next)
    requires c in g.ops
    ensures AccumulatorVia(g2, c) == AccumulatorVia(g, c)
  {
    if c.kind == PUSH_BACK && |c.inputs| > 0 && |c.outTypes| > 0 {
      assert c.inputs[0] in c.inputs;
      OldTensorPosition(g.inputs, g2.inputs, next, c.inputs[0]);
      FuncGraphOutputStable(g, g2, next, Output0(c));
      var out := FuncGraphOutput(g, Output0(c));
      if out.Some? {
        OldTensorPosition(g.outputs, g2.outputs, next, out.value);
      }
    }
  }

  lemma {:induction false} FirstAccumulatorStable(g: FuncGraph, g2: FuncGraph, next: nat, cs: seq<Node>)
    requires Extends(g, g2, next) && NamesBelow(g, next)
    requires forall c :: c in cs ==> c in g.ops
    ensures FirstAccumulator(g2, cs) == FirstAccumulator(g, cs)
  {
    if cs != [] {
      AccumulatorViaStable(g, g2, next, cs[0]);
      FirstAccumulatorStable(g, g2, next, cs[1..]);
    }
  }

  lemma {:induction false} FirstAccumulatorAppend(g: FuncGraph, a: seq<Node>, b: seq<Node>)
    ensures FirstAccumulator(g, a + b) ==
              if FirstAccumulator(g, a).Some? then FirstAccumulator(g, a) else FirstAccumulator(g, b)
  {
    if a == [] {
      assert a + b == b;
    } else {
      assert (a + b)[0] == a[0];
      assert (a + b)[1..] == a[1..] + b;
      FirstAccumulatorAppend(g, a[1..], b);
    }
  }

  /** Appending to a graph never takes an accumulator away from an old tensor. */
  lemma AccumulatorKept(g: FuncGraph, g2: FuncGraph, next: nat, x: Tensor)
    requires Extends(g, g2, next) && NamesBelow(g, next)
    requires GetAccumulator(g, x).Some?
    ensures GetAccumulator(g2, x) == GetAccumulator(g, x)
  {
    SplitAppended(g.ops, g2.ops);
    var extra := g2.ops[|g.ops|..];
    ConsumersInAppend(g.ops, extra, x);
    FirstAccumulatorStable(g, g2, next, Consumers(g, x));
    FirstAccumulatorAppend(g2, Consumers(g, x), ConsumersIn(extra, x));
  }

  lemma PushOntoExtends(g: FuncGraph, tl: Tensor, t: Tensor, next: nat)
    requires GraphOf(tl) != g.id && !IsCaptured(g, tl)
    requires NamesBelow(g, next) && tl.op.name <= next && t.op.name < next
    ensures var r := PushOnto(g, tl, t, next);
            && Extends(g, r.graph, next)
            && NamesBelow(r.graph, r.next)
            && r.graph.inputs == g.inputs + [r.tensor.op.inputs[0]]
            && r.graph.captures == g.captures + [Capture(tl, r.tensor.op.inputs[0])]
  {
  }

  /** After `PushOnto`, `t` has an accumulator, provided the body had as many inputs as outputs
      (so that the new list placeholder and the pushed list share a position). */
  lemma PushOntoAccumulates(g: FuncGraph, tl: Tensor, t: Tensor, next: nat)
    requires GraphOf(tl) != g.id && !IsCaptured(g, tl)
    requires NamesBelow(g, next) && tl.op.name <= next && t.op.name < next
    requires |g.inputs| == |g.outputs|
    ensures GetAccumulator(PushOnto(g, tl, t, next).graph, t).Some?
  {
    var r := PushOnto(g, tl, t, next);
    PushOntoExtends(g, tl, t, next);
    if GetAccumulator(g, t).Some? {
      AccumulatorKept(g, r.graph, next, t);
    } else {
      PushIsAccumulating(g, tl, t, next);
    }
  }

  /** The push `PushOnto` adds consumes `t` and is an accumulating push. */
  lemma PushIsAccumulating(g: FuncGraph, tl: Tensor, t: Tensor, next: nat)
    requires GraphOf(tl) != g.id && !IsCaptured(g, tl)
    requires NamesBelow(g, next) && tl.op.name <= next && t.op.name < next
    requires |g.inputs| == |g.outputs|
    ensures var r := PushOnto(g, tl, t, next);
            r.tensor.op in Consumers(r.graph, t) && IsAccumulatingPush(r.graph, r.tensor.op)
  {
    var r := PushOnto(g, tl, t, next);
    PushOntoExtends(g, tl, t, next);
    PushConsumes(g, tl, t, next);
    IndexOfFreshLast(g.inputs, r.tensor.op.inputs[0]);
    IndexOfFreshLast(g.outputs, r.tensor);
  }

  lemma PushConsumes(g: FuncGraph, tl: Tensor, t: Tensor, next: nat)
    requires GraphOf(tl) != g.id && !IsCaptured(g, tl)
    requires NamesBelow(g, next) && tl.op.name <= next && t.op.name < next
    ensures var r := PushOnto(g, tl, t, next);
            r.tensor.op in Consumers(r.graph, t)
  {
    var r := PushOnto(g, tl, t, next);
    var push := r.tensor.op;
    PushOntoExtends(g, tl, t, next);
    SplitAppended(g.ops, r.graph.ops);
    var extra := r.graph.ops[|g.ops|..];
    assert extra == [push.inputs[0].op, push];
    ConsumersInAppend(g.ops, extra, t);
  }

  /** `get_func_graph_output` as written: it reads `t.consumers()[0]`, which raises `IndexError`
      when `t` is neither a graph output nor consumed by anything. */
  function FuncGraphOutputAsWritten(g: FuncGraph, t: Tensor): (r: Result<Option<Tensor>, Error>)
    ensures r.Failure? <==> t !in g.outputs && |Consumers(g, t)| == 0
    ensures r.Success? ==> r.value == FuncGraphOutput(g, t)
  {
    if t in g.outputs then Success(Some(t))
    else
      var cs := Consumers(g, t);
      if |cs| == 0 then Failure(IndexOutOfRange)
      else if cs[0].kind == IDENTITY && |cs[0].outTypes| > 0 && Output0(cs[0]) in g.outputs
      then Success(Some(Output0(cs[0])))
      else Success(None)
  }

  /** The scan of `_get_accumulator` as written, failing where `get_func_graph_output` does. */
  function FirstAccumulatorAsWritten(g: FuncGraph, cs: seq<Node>): (r: Result<Option<Tensor>, Error>)
    ensures r.Success? ==> r.value == FirstAccumulator(g, cs)
  {
    if cs == [] then Success(None)
    else
      var c := cs[0];
      if c.kind != PUSH_BACK || |c.inputs| == 0 || c.inputs[0] !in g.inputs || |c.outTypes| == 0
      then FirstAccumulatorAsWritten(g, cs[1..])
      else
        var out :- FuncGraphOutputAsWritten(g, Output0(c));
        if out.Some? && IndexOf(g.inputs, c.inputs[0]) == IndexOf(g.outputs, out.value)
        then Success(out)
        else FirstAccumulatorAsWritten(g, cs[1..])
  }

  function GetAccumulatorAsWritten(g: FuncGraph, t: Tensor): (r: Result<Option<Tensor>, Error>)
    ensures r.Success? ==> r.value == GetAccumulator(g, t)
  {
    FirstAccumulatorAsWritten(g, Consumers(g, t))
  }

  /** A body graph (id 1) with a counter placeholder, a list placeholder, a constant `x` and a push
      of `x` onto the list; it returns the counter and the list it received, dropping the pushed
      list. */
  const droppedCounter := Node(1, 0, PLACEHOLDER, [], NoAttr, [OutType(Plain(true), Scalar)])
  const droppedList := Node(1, 1, PLACEHOLDER, [], NoAttr, [OutType(Variant, Scalar)])
  const droppedX := Node(1, 2, CONST, [], Value(7), [OutType(Plain(true), Scalar)])
  const droppedPush := Node(1, 3, PUSH_BACK, [Output0(droppedList), Output0(droppedX)], NoAttr, [OutType(Variant, Scalar)])
  const droppedBody := FuncGraph(1, [droppedCounter, droppedList, droppedX, droppedPush],
                                 [Output0(droppedCounter), Output0(droppedList)],
                                 [Output0(droppedCounter), Output0(droppedList)], [])

  /** In that body `x` is read by the push alone, and nothing reads the pushed list. */
  lemma DroppedPushConsumers()
    ensures Consumers(droppedBody, Output0(droppedX)) == [droppedPush]
    ensures Consumers(droppedBody, Output0(droppedPush)) == []
  {
    var x := Output0(droppedX);
    var pushed := Output0(droppedPush);
    var ops := droppedBody.ops;
    assert ops[1..] == [droppedList, droppedX, droppedPush] && ops[1..][1..] == [droppedX, droppedPush];
    assert ops[1..][1..][1..] == [droppedPush] && [droppedPush][1..] == [];
    assert x in droppedPush.inputs && pushed !in droppedPush.inputs;
    assert ConsumersIn([droppedPush], x) == [droppedPush];
    assert ConsumersIn([droppedPush], pushed) == [];
    assert ConsumersIn([droppedX, droppedPush], x) == [droppedPush];
    assert ConsumersIn([droppedX, droppedPush], pushed) == [];
    assert ConsumersIn([droppedList, droppedX, droppedPush], x) == [droppedPush];
    assert ConsumersIn([droppedList, droppedX, droppedPush], pushed) == [];
  }

  /** Looking for `x`'s accumulator in the body that drops its pushed list raises instead of
      answering None. */
  lemma DroppedPushRaises()
    ensures GetAccumulatorAsWritten(droppedBody, Output0(droppedX)).Failure?
    ensures GetAccumulator(droppedBody, Output0(droppedX)) == None
  {
    DroppedPushConsumers();
    var pushed := Output0(droppedPush);
    assert pushed !in droppedBody.outputs;
    assert FuncGraphOutputAsWritten(droppedBody, pushed).Failure?;
  }
}
