# while_v2 loop transformer, modelled in Dafny

This project models the graph bookkeeping in TensorFlow's `while_v2` module
(`tensorflow/python/ops/while_v2.py`). That bookkeeping turns a user loop into a single
`While` operation, and builds the gradient of such a loop as a second `While` loop.

The model works on an abstract graph (`graph.dfy`):

- An operation (`Node`) has a graph, a unique name, a kind string, ordered input tensors, an
  attribute and ordered output types.
- A tensor is the `index`-th output of its producing operation, with a dtype tag (`Resource`,
  `Variant`, or `Plain(trainable)`) and a static shape.
- A function graph (`FuncGraph`) has operations, ordered inputs, ordered outputs and a capture
  list of (external, internal) pairs.
- Fresh operation names come from one counter, `next`, that every construction threads through.

The modules follow the source's pieces:

| file | module | what it models |
|---|---|---|
| `wrappers.dfy` | `Wrappers` | `Option` and the failure-compatible `Result` |
| `shapes.dfy` | `Shapes` | static shapes and `_get_tensor_convertible_shape` |
| `graph.dfy` | `Graph` | tensors, operations, function graphs, the ordinary capture of an outer tensor |
| `accumulation.dfy` | `Accumulation` | `_get_accumulator` and `_get_intermediates` |
| `forward.dfy` | `Forward` | `while_loop`: loop-variable layout, capture reconciliation, accumulator wiring, `_check_shapes_compat`, `_check_num_inputs_outputs` |
| `grad_capture.dfy` | `GradCapture` | `_WhileBodyGradFuncGraph.capture` and `_capture_helper`, as a resolver state threaded through calls |
| `grad_select.dfy` | `GradSelect` | `_WhileGrad`'s handle masking, incoming-gradient assertion, selection and `None` padding |
| `grad_loop.dfy` | `GradLoop` | `_create_grad_func`, `_grad_fn` and the rest of `_WhileGrad` |
| `counting.dfy` | `Counting` | an evaluator for the counter operations, and the equal iteration counts of the two loops |

Some of what the transformer calls is foreign framework code, so the model takes it as parameters:

- The closure builder (`func_graph_from_py_func`) is a parameter.
  - `while_loop` receives the cond graph and the body graph with the user's results (`BodyClosure`).
  - Both are graphs whose inputs are the argument placeholders followed by the capture placeholders (`BuiltWithArgs`).
- The differentiator (`gradients_impl._GradientsHelper`) is the function parameter `differentiate`. It returns a `Derivative`:
  - the forward tensors the differentiator referred to, in order;
  - the gradient it produced for each `x`.
- `control_flow_ops._ShapeLessThanOrEqual` is the parameter `leq`.
- `_is_tensor_array_handle` is the parameter `isHandle`.
- The XLA-context query is the boolean `inXlaContext`.

Every Python exception the code can raise on its way becomes a `Failure` with one `Error`
constructor. This covers `ValueError`, a failing `assert`, `IndexError` on an index, and the
unpacking of an empty `zip`.

## Model

| member | source | states |
|---|---|---|
| Shapes.TensorConvertibleShape | tensorflow/python/ops/while_v2.py:739-748 | a fully defined shape comes back unchanged, unknown rank gives `-1`, and a partially known shape gives a dimension list of the same rank containing a `-1` |
| Shapes.DimsWithMinusOne | tensorflow/python/ops/while_v2.py:746-747 | the list has one entry per dimension: `-1` exactly at the unknown ones, and the known size elsewhere |
| Shapes.ConvertibleShapeRoundTrip | tensorflow/python/ops/while_v2.py:192-195 | reading the element shape given to `empty_tensor_list` back as a shape yields the intermediate's own shape |
| Accumulation.FuncGraphOutput | tensorflow/python/ops/while_v2.py:503-512 | the result is a graph output; it is `t` itself when `t` is an output; otherwise it is the output of `t`'s first consumer, which is an `Identity` |
| Accumulation.AccumulatorVia | tensorflow/python/ops/while_v2.py:514-530 | a consumer provides an accumulator exactly when it is a push whose list argument is a graph input and whose result reaches the graph output at the same position; that output is returned |
| Accumulation.FirstAccumulator | tensorflow/python/ops/while_v2.py:514-531 | the scan finds nothing exactly when no consumer is an accumulating push |
| Accumulation.GetAccumulator | tensorflow/python/ops/while_v2.py:474-531 | an accumulator is found exactly when some consumer of `t` is an accumulating push; the result is then a graph output |
| Accumulation.Intermediates | tensorflow/python/ops/while_v2.py:435-471 | `t` is returned exactly when it is an output of a non-`Identity` operation, is not the loop counter `inputs[0]`, is not a resource, and has no accumulator yet |
| Accumulation.KeepAppend | tensorflow/python/ops/while_v2.py:465-469 | the output filter preserves order: filtering a concatenation is the concatenation of the filtered parts |
| Accumulation.KeepSingle | tensorflow/python/ops/while_v2.py:466-469 | a single output is kept exactly when it is not the counter, not a resource and has no accumulator |
| Accumulation.KeepDistinct | tensorflow/python/ops/while_v2.py:465-469 | filtering a duplicate-free list of outputs yields a duplicate-free list |
| Accumulation.IntermediatesOfAppend | tensorflow/python/ops/while_v2.py:462-471 | the intermediates follow operation order: those of two operation lists in sequence are the first list's followed by the second's |
| Accumulation.IntermediatesOfSingle | tensorflow/python/ops/while_v2.py:463-469 | an `Identity` contributes nothing, and any other operation contributes its kept outputs in output order |
| Accumulation.IntermediatesOfDistinct | tensorflow/python/ops/while_v2.py:462-471 | over distinct operations no intermediate is listed twice |
| Accumulation.PushOnto | tensorflow/python/ops/while_v2.py:197-208 | the list is captured, the intermediate is pushed onto the placeholder, and the pushed list becomes the last body output |
| Accumulation.AccumulatorKept | tensorflow/python/ops/while_v2.py:474-531 | appending operations, inputs and outputs with fresh names never takes an accumulator away from an older tensor |
| Accumulation.PushOntoAccumulates | tensorflow/python/ops/while_v2.py:196-208 | in a body with as many inputs as outputs, the freshly pushed intermediate has an accumulator afterwards |
| Accumulation.FuncGraphOutputAsWritten | tensorflow/python/ops/while_v2.py:503-512 | `get_func_graph_output` as written fails exactly when `t` is not an output and has no consumer; otherwise it agrees with `FuncGraphOutput` |
| Accumulation.GetAccumulatorAsWritten | tensorflow/python/ops/while_v2.py:474-531 | `_get_accumulator` as written gives the intended answer whenever it does not raise |
| Accumulation.DroppedPushRaises | tensorflow/python/ops/while_v2.py:503-525 | in a concrete body that pushes onto its list input and drops the pushed list, `_get_accumulator` as written raises where the intended answer is `None` |
| Forward.ShapesCompatFrom | tensorflow/python/ops/while_v2.py:685-693 | the check passes exactly when every output shape is `leq` its invariant; a failure names the first position that is not |
| Forward.CaptureInCond | tensorflow/python/ops/while_v2.py:177-183 | capturing the body's captures in cond fails exactly when cond already captures one of them, and the error names such a tensor |
| Forward.WrapBody | tensorflow/python/ops/while_v2.py:122-155 | the wrapped body keeps its inputs and captures and returns an `Add` of the counter input and a constant 1, the user's results, the cond-capture inputs passed through, then its own capture placeholders |
| Forward.WireAccumulators | tensorflow/python/ops/while_v2.py:188-208 | the loop variables gain one empty list per intermediate, in order, whose element dtype is the intermediate's dtype and whose element shape is its convertible shape; cond's outputs stay as they were; the body outputs gain one push of each intermediate, in order |
| Forward.WhileLoop | tensorflow/python/ops/while_v2.py:61-245 | the loop fails only with a structure mismatch, a shared capture, a shape error or an arity error, and it returns one result per user loop variable |
| Forward.WhileLoopLoopVars | tensorflow/python/ops/while_v2.py:87-208 | the `While` takes the counter at 0, the user's variables, cond's captures, the body's captures, then one fresh list per accumulated intermediate |
| Forward.WhileLoopBodyOutputs | tensorflow/python/ops/while_v2.py:154-208 | the body returns the counter plus one, the user's results, cond's captures passed through, its own captures passed through, then one pushed list per intermediate |
| Forward.WhileLoopStructure | tensorflow/python/ops/while_v2.py:140-183 | a structure mismatch exactly when the invariants or the results differ from the loop variables in number; otherwise a shared-capture error exactly when cond already captures one of the body's captures |
| Forward.WhileLoopShapes | tensorflow/python/ops/while_v2.py:210-217 | once staging succeeds, the loop succeeds only when every result fits its invariant, and a shape error names a result that does not |
| Forward.WhileLoopArity | tensorflow/python/ops/while_v2.py:696-708 | cond and body take one input per loop variable, the body returns one output per loop variable, and cond returns one; the check can fail only when the user's cond did not return exactly one tensor |
| Forward.WhileLoopAccumulates | tensorflow/python/ops/while_v2.py:185-208 | every accumulated intermediate has an accumulator in the final body, so a second `_get_intermediates` returns none of them; none is an `Identity` output, a resource or the counter |
| Forward.EmitWhile | tensorflow/python/ops/while_v2.py:222-245 | the `While` takes the loop variables, names cond and body and carries the lowering flag, and has one output per loop variable; result `i` is the `Identity` of `While` output `1 + i`, so the counter is skipped |
| GradCapture.SkipIdentities | tensorflow/python/ops/while_v2.py:617-620 | the walk ends at a non-`Identity` producer, leaves a non-`Identity` tensor alone, and fails only on an `Identity` without inputs |
| GradCapture.Capture | tensorflow/python/ops/while_v2.py:606-611 | an out-of-scope error exactly when not whitelisted and the tensor is from neither the gradient body nor the forward body; success keeps the resolver well formed and only appends captures |
| GradCapture.ResourceIndex | tensorflow/python/ops/while_v2.py:635-646 | the position is the resource's own among the forward inputs, or, for a nested `While` output, that `While`'s input at the same position; "creates a resource in its body" exactly otherwise |
| GradCapture.ResolveCached | tensorflow/python/ops/while_v2.py:622-628 | a cached resolution returns the stored tensor, and fails only when the bookkeeping fails: the assertion that the outer tensor is captured, or the `KeyError` of a tensor with no outer tensor recorded, both reported as `InternalAssertion` |
| GradCapture.PopAccumulator | tensorflow/python/ops/while_v2.py:673-682 | the accumulator is captured, one value is popped from its placeholder, and the shorter list is recorded for that placeholder |
| GradCapture.CaptureSkipsIdentity | tensorflow/python/ops/while_v2.py:617-620 | a reference through an `Identity` resolves as a reference to its input |
| GradCapture.CaptureOther | tensorflow/python/ops/while_v2.py:606-615 | a foreign tensor is refused unless whitelisted, and when whitelisted it is captured the ordinary way |
| GradCapture.CaptureTwice | tensorflow/python/ops/while_v2.py:622-628 | resolving the same forward tensor a second time returns the first answer and changes nothing: no new placeholder, no new pop |
| GradCapture.CaptureRemembers | tensorflow/python/ops/while_v2.py:652-682 | after a forward tensor is resolved, its `Identity`-free source is cached with the answer |
| GradCapture.CaptureResource | tensorflow/python/ops/while_v2.py:630-655 | a resource is rejected exactly when it is neither a forward input nor a `While` output, or when its loop variable is not passed through unchanged; otherwise it resolves to the capture of the forward `While`'s input at that position, and nothing is popped |
| GradCapture.CaptureResourceResolves | tensorflow/python/ops/while_v2.py:630-655 | a resource that is a forward input passed through the body unchanged, at a position the forward `While` has an input for, always resolves |
| GradCapture.CaptureIntermediate | tensorflow/python/ops/while_v2.py:657-682 | a non-resource tensor is rejected exactly when it has no accumulator; otherwise it resolves to a value popped from the `While` output at the accumulator's position, adding exactly one `popped` entry |
| GradCapture.CaptureIntermediateResolves | tensorflow/python/ops/while_v2.py:657-682 | a non-resource tensor not yet mapped whose accumulator is a forward body output, at a position the forward `While` has an output for, always resolves |
| GradCapture.CaptureKeepsConsistent | tensorflow/python/ops/while_v2.py:625 | every cached entry keeps a captured outer tensor, so the assertion on a later cache hit holds |
| GradCapture.CaptureKeepsPoppedCaptured | tensorflow/python/ops/while_v2.py:676-681 | every recorded pop belongs to a placeholder the gradient body captured |
| GradCapture.CaptureKeepsBuilt | tensorflow/python/ops/while_v2.py:676-677 | the gradient body's inputs stay laid out as arguments followed by capture placeholders |
| GradSelect.MaskHandles | tensorflow/python/ops/while_v2.py:258-261 | one entry per zipped pair; it is `None` exactly when the gradient is `None` or the output is a `TensorArray` handle, and is the incoming gradient otherwise |
| GradSelect.CheckIncoming | tensorflow/python/ops/while_v2.py:263-267 | fails exactly when some output without a gradient is a trainable non-resource |
| GradSelect.PresentIndices | tensorflow/python/ops/while_v2.py:271-272 | the positions holding a gradient, each exactly once, in increasing order |
| GradSelect.Select | tensorflow/python/ops/while_v2.py:271-272 | the selection fails exactly when no zipped position has a gradient; it keeps the outputs, inputs and gradients at the present positions |
| GradSelect.SelectAligned | tensorflow/python/ops/while_v2.py:271-272 | the k-th selected output, input and gradient all come from the k-th position holding a gradient |
| GradSelect.PadNone | tensorflow/python/ops/while_v2.py:317-325 | the padded list has one entry per gradient, `None` exactly where the gradient was `None` |
| GradSelect.PadNoneConsumes | tensorflow/python/ops/while_v2.py:317-325 | the non-`None` entries are exactly `outs[index]`, `outs[index + 1]`, …, one per present gradient, in order |
| GradSelect.PadNoneAt | tensorflow/python/ops/while_v2.py:317-325 | the entry at the k-th present position is `outs[index + k]` |
| GradSelect.SelectThenPad | tensorflow/python/ops/while_v2.py:268-325 | selection and padding are partners: the k-th selected gradient comes back, at the position it was taken from, as loop output `2 + k` |
| GradLoop.ResolveAll | tensorflow/python/ops/while_v2.py:421-427 | the differentiator's references are resolved in order, one answer each; an out-of-scope error names one of them |
| GradLoop.CaptureOutputs | tensorflow/python/ops/while_v2.py:386-396 | fails exactly when some capture is neither popped nor a resource; otherwise one output per capture, the list left by its pop or the resource itself |
| GradLoop.GradFn | tensorflow/python/ops/while_v2.py:401-432 | a missing-gradient error exactly when the differentiator returned `None` for some `x`; otherwise the outputs are the counter plus one, the total unchanged, the gradients, then one per capture |
| GradLoop.GradFnPopsOut | tensorflow/python/ops/while_v2.py:386-390 | every popped list becomes an output of the gradient body |
| GradLoop.BuildGradBody | tensorflow/python/ops/while_v2.py:380-396 | the gradient body keeps its argument layout, its resolver stays consistent, and it has the output layout of `_grad_fn` plus captures |
| GradLoop.CreateGradFunc | tensorflow/python/ops/while_v2.py:355-398 | the arguments are a new counter at 0, the forward `While`'s output 0 and the incoming gradients; the body gets one placeholder per argument, and the differentiator sees the gradient placeholders |
| GradLoop.ResolveAllKeeps | tensorflow/python/ops/while_v2.py:587-682 | resolving a series of references keeps the resolver consistent and every pop tied to a captured placeholder |
| GradLoop.ResolveAllBuilt | tensorflow/python/ops/while_v2.py:587-682 | resolving a series of references keeps the argument-then-captures input layout |
| GradLoop.GradAccumulators | tensorflow/python/ops/while_v2.py:278-290 | per intermediate of the gradient body: an empty list in the outer graph with the intermediate's element dtype and convertible shape, and the gradient body's outputs gain one push of that intermediate, in order |
| GradLoop.GradAccumulatorsBuilt | tensorflow/python/ops/while_v2.py:284-285 | the whitelisted captures of the lists keep the argument-then-captures input layout |
| GradLoop.GradCond | tensorflow/python/ops/while_v2.py:292-299 | cond has one placeholder per loop variable and a single output, `counter < total_iters`, over the first two |
| GradLoop.WhileGrad | tensorflow/python/ops/while_v2.py:249-325 | the gradient hands back one entry per zipped (gradient, output) pair |
| GradLoop.DifferentiateSelection | tensorflow/python/ops/while_v2.py:274-325 | after selection, only capture, missing-gradient, unresolved-capture or arity errors remain; a built loop counts, pads, and carries the selected gradients after the two counters |
| GradLoop.EmitGrad | tensorflow/python/ops/while_v2.py:278-325 | the gradient `While` takes the arguments and then the body's external captures; the body gains one push per intermediate; cond, body and loop agree in arity |
| GradLoop.EmitLoop | tensorflow/python/ops/while_v2.py:292-325 | the arity check, the gradient `While` with its lowering attribute, and the padded gradients |
| GradLoop.EmittedCounts | tensorflow/python/ops/while_v2.py:374-432 | a loop emitted around that body counts: a counter at 0 against the forward total, incremented by the body, with the total passed through and compared by cond |
| GradLoop.PadNonePadded | tensorflow/python/ops/while_v2.py:317-325 | padding from index 2 gives `None` exactly where no gradient came in, and the loop outputs `2 …` in order otherwise |
| GradLoop.WhileGradRejects | tensorflow/python/ops/while_v2.py:258-272 | a missing-incoming-gradient error exactly when, after masking handles, a trainable non-resource output has no gradient; a nothing-to-differentiate error exactly when that check passes and no zipped position has a gradient |
| GradLoop.WhileGradBuilds | tensorflow/python/ops/while_v2.py:271-325 | a built gradient loop counts from 0 to the forward total, carries the selected gradients after its two counters, and pads its outputs back to one per forward output |
| GradLoop.WhileGradAligned | tensorflow/python/ops/while_v2.py:303-325 | loop variable `2 + k` and loop output `2 + k` belong to the same forward output, the k-th one with a gradient: its incoming gradient goes in there and its returned gradient comes out there |
| Counting.EvalIncrement | tensorflow/python/ops/while_v2.py:430-432 | the counter update adds exactly one to the counter placeholder's value |
| Counting.EvalIdentity | tensorflow/python/ops/while_v2.py:445-448 | an `Identity` wrapped around a tensor has the same value as the tensor |
| Counting.ForwardCounts | tensorflow/python/ops/while_v2.py:88-154 | after `k` forward iterations from `c` the counter is `c + k` |
| Counting.GradCounts | tensorflow/python/ops/while_v2.py:292-293 | the gradient loop from counter `c` and total `n` runs `n - c` times, or none when `c >= n` |
| Counting.GradRunsAsOften | tensorflow/python/ops/while_v2.py:374-377 | when the forward counter went round `k` times from 0, the gradient loop started at 0 with that total runs exactly `k` times |

## Left out

- Name scoping, `unique_fn_name` and `unique_grad_fn_name`: operations are told apart by a numeric name from the counter `next`.
- `_get_body_graph` and `function_def_to_graph`: the forward body graph is passed to the gradient as a parameter, together with the forward `While` node.
- `func_graph_from_py_func`, `gen_functional_ops._while` and `create_new_tf_function` are not modelled as code. For the forward body the closure builder's result is a parameter. The gradient cond and body are built by the model itself, in the form the closure builder gives them less the output wrapping below. The `While` node is built directly.
- `FuncGraph._capture_helper` lives in `func_graph.py`, which is not part of this model. `Graph.CaptureHelper` models only what `while_v2.py` relies on: reuse of an existing capture, otherwise a new placeholder appended to the inputs and the capture list.
- `_copy_handle_data`, `_pack_sequence_as`, `_tensor_array_to_flow` and `_build_signature`: handle data and the `TensorArray` flow conversion are not represented. Loop variables are the flattened tensors, and nested structures are not modelled.
- `_maybe_set_lowering_attr`: only its outcome is modelled, the `lowerUsingSwitchMerge` flag set exactly when `inXlaContext` is false.
- The counters of both loops are `float32` constants in the source (`constant(0.)`). The model gives them integer values.
- `_GradientsHelper`: the differentiator is the parameter `differentiate`, and numeric correctness of derivatives is out of scope. Its assertion that every returned gradient is present is modelled as `MissingOutputGradient`.
- `_ShapeLessThanOrEqual` is defined in `control_flow_ops`, which is not part of this model. It is the parameter `leq`.
- `_is_tensor_array_handle` is the parameter `isHandle`.
- `Forward.ShapesCompatFrom`: in Python the error text names the offending input tensor. The model reports the offending position instead.
- `GradLoop.WhileGrad`: its contract gives only the length of the result. The structure a built loop has is stated by `GradLoop.WhileGradBuilds` and `GradLoop.WhileGradAligned`, and the errors by `GradLoop.WhileGradRejects`.
- `GradLoop.WhileGradAligned`: it assumes the forward body has at least as many outputs and inputs as the forward `While` has outputs. That is how `while_loop` builds it.
- `Counting.GradRunsAsOften`: it assumes the forward body's counter input is a placeholder. The closure builder creates it as one.
- The model does not prove that the arity check of the gradient loop always passes. `_check_num_inputs_outputs` is modelled as a possible `ArityMismatch`.
- `_WhileGrad` asserts that every trainable, non-resource output has an incoming gradient; `GradSelect.CheckIncoming` models that assertion. The selection's `NothingToDifferentiate` error models the `ValueError` that unpacking an empty `zip` raises when no output is selected.
- `Forward.WhileLoop`: it uses the corrected `Accumulation.GetAccumulator` of the Findings table. As written, `_get_intermediates` (called at lines 188 and 278) can raise `IndexError` inside `get_func_graph_output` on a body that drops a push, and the model has no such failure.
- `Accumulation.Intermediates`: it uses the corrected `Accumulation.GetAccumulator` of the Findings table, so it never raises the `IndexError` the code as written can raise.
- `GradCapture.ResolveIntermediate`: it uses the corrected `Accumulation.GetAccumulator` of the Findings table, so the lookup at line 663 never raises the `IndexError` the code as written can raise.
- `GradLoop.EmitGrad`: the operations the differentiator builds are not added to the gradient body; a `Derivative` records only the forward tensors it referred to and the gradients. So the gradient body's intermediates, and hence its accumulators, omit the differentiator's own operations, and a gradient need not be a tensor of the gradient body.
- `GradLoop.GradFn`: the closure builder wraps each function output in an `Identity`; the model returns the tensors themselves. `Counting.EvalIdentity` shows the wrapping does not change a value.
- `GradLoop.GradCond`: its output is the `Less` itself, not the `Identity` the closure builder adds around it.
- `Counting.GradRunsAsOften`: it is stated for unwrapped loop outputs, as `GradLoop.GradFn` and `GradLoop.GradCond` build them; with the `Identity` wrapping each output would evaluate the same by `Counting.EvalIdentity`, but the model does not build that form.

## Findings

| source | as written | input that shows it | evidently intended | confidence | as-written member | corrected member |
|---|---|---|---|---|---|---|
| tensorflow/python/ops/while_v2.py:503-512 | `get_func_graph_output` reads `t.consumers()[0]` whenever `t` is not a graph output, and that raises `IndexError` when `t` has no consumer | a body that pushes `x` onto its list input and returns the list it received, so the pushed list is neither an output nor consumed; `_get_accumulator(x)` raises | the docstring promises `None` when neither `t` nor `Identity(t)` is an output, so `_get_accumulator` should skip that consumer and return `None` | not executed | Accumulation.DroppedPushRaises | Accumulation.GetAccumulator |
