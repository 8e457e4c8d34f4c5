/** Static tensor shapes and the element-shape encoding used for empty tensor lists. */
module Shapes {
  import opened Wrappers

  /** A static shape: either of unknown rank, or a list of dimensions each possibly unknown. */
  datatype Shape = UnknownRank | Ranked(dims: seq<Option<nat>>)

  /** The shape of a scalar. */
  const Scalar: Shape := Ranked([])

  /** Every dimension is known (a rank-0 shape is fully defined). */
  predicate IsFullyDefined(s: Shape) {
    s.Ranked? && forall i :: 0 <= i < |s.dims| ==> s.dims[i].Some?
  }

  /** What `_get_tensor_convertible_shape` hands to `empty_tensor_list` as its element shape:
      the shape itself, the scalar `-1` for "unknown rank", or a list of ints with `-1`
      for each unknown dimension. */
  datatype ConvertibleShape = AsShape(shape: Shape) | MinusOne | DimList(dims: seq<int>)

  /** The dimension list of a ranked shape, unknown dimensions written as -1. */
  function DimsWithMinusOne(dims: seq<Option<nat>>): (r: seq<int>)
    ensures |r| == |dims|
    ensures forall i :: 0 <= i < |dims| ==> (dims[i].None? <==> r[i] == -1)
    ensures forall i :: 0 <= i < |dims| && dims[i].Some? ==> r[i] == dims[i].value
  {
    if dims == [] then []
    else [if dims[0].Some? then dims[0].value as int else -1] + DimsWithMinusOne(dims[1..])
  }

  /** `_get_tensor_convertible_shape`. */
  function TensorConvertibleShape(s: Shape): (r: ConvertibleShape)
    ensures IsFullyDefined(s) <==> r.AsShape?
    ensures r.AsShape? ==> r.shape == s
    ensures s.UnknownRank? <==> r.MinusOne?
    ensures r.DimList? ==> s.Ranked? && |r.dims| == |s.dims|
    ensures r.DimList? ==> exists i :: 0 <= i < |r.dims| && r.dims[i] == -1
  {
    if IsFullyDefined(s) then AsShape(s)
    else if s.UnknownRank? then MinusOne
    else DimList(DimsWithMinusOne(s.dims))
  }

  /** Reads an element-shape argument back as the shape constraint it denotes:
      -1 means "unknown", and inside a list -1 marks an unknown dimension. */
  function ElementShape(c: ConvertibleShape): Shape {
    match c
    case AsShape(s) => s
    case MinusOne => UnknownRank
    case DimList(ds) => Ranked(seq(|ds|, i requires 0 <= i < |ds| => if ds[i] >= 0 then Some(ds[i] as nat) else None))
  }

  /** The encoding loses nothing: the element shape of an empty list is the intermediate's shape. */
  lemma ConvertibleShapeRoundTrip(s: Shape)
    ensures ElementShape(TensorConvertibleShape(s)) == s
  {
    var c := TensorConvertibleShape(s);
    if c.DimList? {
      var back := ElementShape(c);
      assert |back.dims| == |s.dims|;
      forall i | 0 <= i < |s.dims|
        ensures back.dims[i] == s.dims[i]
      {
      }
    }
  }
}
