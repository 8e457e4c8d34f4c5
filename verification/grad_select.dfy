/** Which loop variables the gradient loop differentiates, and how its outputs are spread back over
    the forward loop's outputs.

    The gradient of a `While` receives one optional incoming gradient per output. Outputs without
    one are left out of the gradient loop, and the gradient loop's outputs (after its counter and
    its iteration total) are handed back in order to the positions that had one. */
module GradSelect {
  import opened Wrappers
  import opened Graph

  /** `IsTrainable`: numeric types answer their flag; resources and variants are trainable. */
  predicate IsTrainable(t: Tensor) {
    match t.dtype
    case Plain(trainable) => trainable
    case _ => true
  }

  function Min(a: nat, b: nat): nat {
    if a <= b then a else b
  }

  /** The incoming gradients paired with the outputs (as `zip` pairs them, up to the shorter
      list), with the gradient of every `TensorArray` handle dropped. */
  function MaskHandles(grads: seq<Option<Tensor>>, outs: seq<Tensor>, isHandle: Tensor -> bool)
    : (r: seq<Option<Tensor>>)
    ensures |r| == Min(|grads|, |outs|)
    ensures forall i :: 0 <= i < |r| ==> (r[i].None? <==> grads[i].None? || isHandle(outs[i]))
    ensures forall i :: 0 <= i < |r| && r[i].Some? ==> r[i] == grads[i]
  {
    var m := Min(|grads|, |outs|);
    seq(m, i requires 0 <= i < m => if isHandle(outs[i]) then None else grads[i])
  }

  /** An output that may go without an incoming gradient: a resource or an untrainable tensor. */
  predicate MayLackGradient(o: Tensor) {
    o.dtype == Resource || !IsTrainable(o)
  }

  /** The assertion that every output lacking a gradient may lack it (over the zipped pairs). */
  function CheckIncoming(outs: seq<Tensor>, grads: seq<Option<Tensor>>): (r: Result<(), Error>)
    ensures r.Failure? <==>
              exists i :: 0 <= i < Min(|outs|, |grads|) && grads[i].None? && !MayLackGradient(outs[i])
    ensures r.Failure? ==> r.error == MissingIncomingGradient
  {
    if outs == [] || grads == [] then Success(())
    else if grads[0].None? && !MayLackGradient(outs[0]) then Failure(MissingIncomingGradient)
    else
      var rest := CheckIncoming(outs[1..], grads[1..]);
      assert rest.Failure? ==> exists i :: 0 <= i < Min(|outs|, |grads|) && grads[i].None? && !MayLackGradient(outs[i]) by {
        if rest.Failure? {
          var i :| 0 <= i < Min(|outs[1..]|, |grads[1..]|) && grads[1..][i].None? && !MayLackGradient(outs[1..][i]);
          assert grads[i + 1].None? && !MayLackGradient(outs[i + 1]);
        }
      }
      assert rest.Success? ==> forall i :: 0 <= i < Min(|outs|, |grads|) ==> grads[i].Some? || MayLackGradient(outs[i]) by {
        if rest.Success? {
          forall i | 0 <= i < Min(|outs|, |grads|)
            ensures grads[i].Some? || MayLackGradient(outs[i])
          {
            if i > 0 {
              assert grads[1..][i - 1] == grads[i] && outs[1..][i - 1] == outs[i];
            }
          }
        }
      }
      rest
  }

  /** How many gradients are present. */
  function CountPresent(gs: seq<Option<Tensor>>): (r: nat)
    ensures r <= |gs|
  {
    if gs == [] then 0 else (if gs[0].Some? then 1 else 0) + CountPresent(gs[1..])
  }

  /** The positions holding a gradient, in increasing order: the independent description of what
      the selection keeps. */
  function PresentIndices(gs: seq<Option<Tensor>>): (r: seq<nat>)
    ensures |r| == CountPresent(gs)
    ensures forall i: nat :: i in r <==> i < |gs| && gs[i].Some?
    ensures forall a, b :: 0 <= a < b < |r| ==> r[a] < r[b]
  {
    PresentIndicesFrom(gs, 0)
  }

  /** The positions holding a gradient, counted from `off`. */
  function PresentIndicesFrom(gs: seq<Option<Tensor>>, off: nat): (r: seq<nat>)
    ensures |r| == CountPresent(gs)
    ensures forall i: nat :: i in r <==> off <= i < off + |gs| && gs[i - off].Some?
    ensures forall a :: 0 <= a < |r| ==> off <= r[a] < off + |gs|
    ensures forall a, b :: 0 <= a < b < |r| ==> r[a] < r[b]
  {
    if gs == [] then []
    else
      var rest := PresentIndicesFrom(gs[1..], off + 1);
      assert forall j :: 0 <= j < |gs| - 1 ==> gs[1..][j] == gs[j + 1];
      (if gs[0].Some? then [off] else []) + rest
  }

  /** The entries of `xs` at the positions where a gradient is present, in order. */
  function Present<T>(xs: seq<T>, gs: seq<Option<Tensor>>): (r: seq<T>)
    requires |xs| == |gs|
    ensures |r| == CountPresent(gs)
  {
    if xs == [] then []
    else (if gs[0].Some? then [xs[0]] else []) + Present(xs[1..], gs[1..])
  }

  /** The present gradients themselves, in order. */
  function Values(gs: seq<Option<Tensor>>): (r: seq<Tensor>)
    ensures |r| == CountPresent(gs)
  {
    if gs == [] then []
    else (if gs[0].Some? then [gs[0].value] else []) + Values(gs[1..])
  }

  predicate AllPresent(gs: seq<Option<Tensor>>) {
    forall i :: 0 <= i < |gs| ==> gs[i].Some?
  }

  /** With every gradient present, unwrapping keeps them all, in place. */
  lemma {:induction false} ValuesAllPresent(gs: seq<Option<Tensor>>)
    requires AllPresent(gs)
    ensures |Values(gs)| == |gs|
    ensures forall i :: 0 <= i < |gs| ==> gs[i] == Some(Values(gs)[i])
  {
    if gs != [] {
      ValuesAllPresent(gs[1..]);
      assert Values(gs) == [gs[0].value] + Values(gs[1..]);
      forall i | 1 <= i < |gs|
        ensures gs[i] == Some(Values(gs)[i])
      {
        assert gs[1..][i - 1] == gs[i];
      }
    }
  }

  /** The selection keeps exactly the entries at the present positions. */
  lemma PresentAt<T>(xs: seq<T>, gs: seq<Option<Tensor>>)
    requires |xs| == |gs|
    ensures forall k :: 0 <= k < |Present(xs, gs)| ==>
              PresentIndices(gs)[k] < |xs| && Present(xs, gs)[k] == xs[PresentIndices(gs)[k]]
  {
    PresentAtFrom(xs, gs, 0);
  }

  lemma {:induction false} PresentAtFrom<T>(xs: seq<T>, gs: seq<Option<Tensor>>, off: nat)
    requires |xs| == |gs|
    ensures forall k :: 0 <= k < |Present(xs, gs)| ==>
              var i := PresentIndicesFrom(gs, off)[k];
              off <= i < off + |xs| && Present(xs, gs)[k] == xs[i - off]
  {
    if xs != [] {
      PresentAtFrom(xs[1..], gs[1..], off + 1);
      var idx := PresentIndicesFrom(gs, off);
      var rest := PresentIndicesFrom(gs[1..], off + 1);
      var p := Present(xs, gs);
      var pr := Present(xs[1..], gs[1..]);
      assert idx == (if gs[0].Some? then [off] else []) + rest;
      assert p == (if gs[0].Some? then [xs[0]] else []) + pr;
      forall k | 0 <= k < |pr|
        ensures off + 1 <= rest[k] < off + |xs| && pr[k] == xs[rest[k] - off]
      {
        assert xs[1..][rest[k] - (off + 1)] == xs[rest[k] - off];
      }
    }
  }

  /** The present gradients are the selected entries of the gradient list, unwrapped. */
  lemma ValuesAt(gs: seq<Option<Tensor>>)
    ensures forall k :: 0 <= k < |Values(gs)| ==>
              PresentIndices(gs)[k] < |gs| && gs[PresentIndices(gs)[k]] == Some(Values(gs)[k])
  {
    ValuesAtFrom(gs, 0);
  }

  lemma {:induction false} ValuesAtFrom(gs: seq<Option<Tensor>>, off: nat)
    ensures forall k :: 0 <= k < |Values(gs)| ==>
              var i := PresentIndicesFrom(gs, off)[k];
              off <= i < off + |gs| && gs[i - off] == Some(Values(gs)[k])
  {
    if gs != [] {
      ValuesAtFrom(gs[1..], off + 1);
      var idx := PresentIndicesFrom(gs, off);
      var rest := PresentIndicesFrom(gs[1..], off + 1);
      var v := Values(gs);
      var vr := Values(gs[1..]);
      assert idx == (if gs[0].Some? then [off] else []) + rest;
      assert v == (if gs[0].Some? then [gs[0].value] else []) + vr;
      forall k | 0 <= k < |vr|
        ensures off + 1 <= rest[k] < off + |gs| && gs[rest[k] - off] == Some(vr[k])
      {
        assert gs[1..][rest[k] - (off + 1)] == gs[rest[k] - off];
      }
    }
  }

  /** The `(y, x, grad)` triples whose grad is present, unzipped. */
  datatype Selection = Selection(ys: seq<Tensor>, xs: seq<Tensor>, grads: seq<Tensor>)

  /** Selecting over `zip(outputs, inputs, grads)`; an empty selection cannot be unzipped. */
  function Select(outs: seq<Tensor>, ins: seq<Tensor>, gs: seq<Option<Tensor>>): (r: Result<Selection, Error>)
    ensures var m := Min(Min(|outs|, |ins|), |gs|);
            (r.Failure? <==> CountPresent(gs[..m]) == 0) && (r.Failure? ==> r.error == NothingToDifferentiate)
    ensures var m := Min(Min(|outs|, |ins|), |gs|);
            r.Success? ==>
              && r.value.ys == Present(outs[..m], gs[..m])
              && r.value.xs == Present(ins[..m], gs[..m])
              && r.value.grads == Values(gs[..m])
  {
    var m := Min(Min(|outs|, |ins|), |gs|);
    if CountPresent(gs[..m]) == 0 then Failure(NothingToDifferentiate)
    else Success(Selection(Present(outs[..m], gs[..m]), Present(ins[..m], gs[..m]), Values(gs[..m])))
  }

  /** The selected triples line up: the k-th selected output, input and gradient all come from the
      k-th position holding a gradient. */
  lemma SelectAligned(outs: seq<Tensor>, ins: seq<Tensor>, gs: seq<Option<Tensor>>)
    requires Select(outs, ins, gs).Success?
    ensures var s := Select(outs, ins, gs).value;
            var idx := PresentIndices(gs[..Min(Min(|outs|, |ins|), |gs|)]);
            && |s.ys| == |s.xs| == |s.grads| == |idx| > 0
            && forall k :: 0 <= k < |idx| ==>
                 && idx[k] < |outs| && idx[k] < |ins| && idx[k] < |gs|
                 && s.ys[k] == outs[idx[k]] && s.xs[k] == ins[idx[k]] && gs[idx[k]] == Some(s.grads[k])
  {
    var m := Min(Min(|outs|, |ins|), |gs|);
    PresentAt(outs[..m], gs[..m]);
    PresentAt(ins[..m], gs[..m]);
    ValuesAt(gs[..m]);
  }

  /** The loop of `_WhileGrad` that rebuilds the gradient list: `None` where the incoming gradient
      was absent, otherwise the next unused output, starting at `index`. */
  function PadNone(gs: seq<Option<Tensor>>, outs: seq<Tensor>, index: nat): (r: seq<Option<Tensor>>)
    requires index + CountPresent(gs) <= |outs|
    ensures |r| == |gs|
    ensures forall i :: 0 <= i < |gs| ==> (r[i].None? <==> gs[i].None?)
  {
    if gs == [] then []
    else if gs[0].None? then [None] + PadNone(gs[1..], outs, index)
    else [Some(outs[index])] + PadNone(gs[1..], outs, index + 1)
  }

  /** Padding hands out the outputs `outs[index], outs[index + 1], …` in order, one per present
      gradient and no more: its present entries are exactly that slice. */
  lemma {:induction false} PadNoneConsumes(gs: seq<Option<Tensor>>, outs: seq<Tensor>, index: nat)
    requires index + CountPresent(gs) <= |outs|
    ensures Values(PadNone(gs, outs, index)) == outs[index..index + CountPresent(gs)]
  {
    if gs != [] {
      var r := PadNone(gs, outs, index);
      if gs[0].None? {
        PadNoneConsumes(gs[1..], outs, index);
        assert r[0] == None && r[1..] == PadNone(gs[1..], outs, index);
      } else {
        PadNoneConsumes(gs[1..], outs, index + 1);
        assert r[0] == Some(outs[index]) && r[1..] == PadNone(gs[1..], outs, index + 1);
        assert outs[index..index + CountPresent(gs)] == [outs[index]] + outs[index + 1..index + CountPresent(gs)];
      }
    }
  }

  /** The entry at the k-th present position is the output `index + k`. */
  lemma PadNoneAt(gs: seq<Option<Tensor>>, outs: seq<Tensor>, index: nat)
    requires index + CountPresent(gs) <= |outs|
    ensures var idx := PresentIndices(gs);
            forall k :: 0 <= k < |idx| ==>
              idx[k] < |gs| && PadNone(gs, outs, index)[idx[k]] == Some(outs[index + k])
  {
    var r := PadNone(gs, outs, index);
    PadNoneConsumes(gs, outs, index);
    ValuesAt(r);
    PresentSame(gs, r);
    assert PresentIndices(r) == PresentIndices(gs);
    var idx := PresentIndices(gs);
    forall k | 0 <= k < |idx|
      ensures idx[k] < |gs| && r[idx[k]] == Some(outs[index + k])
    {
      assert Values(r)[k] == outs[index..index + CountPresent(gs)][k];
    }
  }

  /** Two lists with gradients at the same positions have the same present positions. */
  lemma PresentSame(a: seq<Option<Tensor>>, b: seq<Option<Tensor>>)
    requires |a| == |b| && forall i :: 0 <= i < |a| ==> (a[i].None? <==> b[i].None?)
    ensures PresentIndices(a) == PresentIndices(b)
  {
    PresentSameFrom(a, b, 0);
  }

  lemma {:induction false} PresentSameFrom(a: seq<Option<Tensor>>, b: seq<Option<Tensor>>, off: nat)
    requires |a| == |b| && forall i :: 0 <= i < |a| ==> (a[i].None? <==> b[i].None?)
    ensures PresentIndicesFrom(a, off) == PresentIndicesFrom(b, off)
  {
    if a != [] {
      assert forall i :: 0 <= i < |a[1..]| ==> a[1..][i] == a[i + 1] && b[1..][i] == b[i + 1];
      PresentSameFrom(a[1..], b[1..], off + 1);
    }
  }

  /** Selection and padding are partners: every gradient the selection sends into the gradient
      loop comes back, at the position it came from, as the matching loop output after the
      counter and the iteration total; every other position gets `None`. */
  lemma SelectThenPad(outs: seq<Tensor>, ins: seq<Tensor>, gs: seq<Option<Tensor>>, loopOuts: seq<Tensor>)
    requires |gs| <= |outs| && |gs| <= |ins|
    requires Select(outs, ins, gs).Success?
    requires 2 + CountPresent(gs) <= |loopOuts|
    ensures var s := Select(outs, ins, gs).value;
            var p := PadNone(gs, loopOuts, 2);
            && |p| == |gs|
            && (forall i :: 0 <= i < |gs| ==> (p[i].None? <==> gs[i].None?))
            && forall k :: 0 <= k < |s.grads| ==>
                 2 + k < |loopOuts| &&
                 exists i :: 0 <= i < |gs| && gs[i] == Some(s.grads[k]) && s.ys[k] == outs[i]
                             && p[i] == Some(loopOuts[2 + k])
  {
    assert gs[..|gs|] == gs;
    SelectAligned(outs, ins, gs);
    PadNoneAt(gs, loopOuts, 2);
    var s := Select(outs, ins, gs).value;
    var idx := PresentIndices(gs);
    forall k | 0 <= k < |s.grads|
      ensures exists i :: 0 <= i < |gs| && gs[i] == Some(s.grads[k]) && s.ys[k] == outs[i]
                          && PadNone(gs, loopOuts, 2)[i] == Some(loopOuts[2 + k])
    {
      var i := idx[k];
      assert 0 <= i < |gs| && gs[i] == Some(s.grads[k]) && s.ys[k] == outs[i];
    }
  }
}
