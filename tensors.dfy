/**
 * Blobs (the engine's 4-D tensors) and host arrays (MATLAB's numeric arrays),
 * and the flat copies between them.  Both sides agree on the axis order
 * (width, height, channels, num) with width fastest, so every transfer is a
 * contiguous copy of `count` elements.
 */
module Tensors {
  import opened Wrappers
  import opened Errors

  /** A tensor element.  The bridge only copies elements and never computes with them. */
  type Elem = int

  datatype Dims = Dims(width: nat, height: nat, channels: nat, num: nat) {
    function Count(): nat { width * height * channels * num }
  }

  /** An engine blob: its shape, its values and its gradients. */
  datatype Blob = Blob(width: nat, height: nat, channels: nat, num: nat, data: seq<Elem>, diff: seq<Elem>) {
    /** Elements per image: width * height * channels. */
    function Spatial(): nat { width * height * channels }

    function Count(): nat { Spatial() * num }

    function Shape(): Dims { Dims(width, height, channels, num) }

    predicate Valid() { |data| == Count() && |diff| == Count() }
  }

  predicate AllValid(bs: seq<Blob>) { forall i | 0 <= i < |bs| :: bs[i].Valid() }

  /** A MATLAB single-precision array with exactly four dimensions. */
  datatype HostArray = HostArray(dims: Dims, elems: seq<Elem>) {
    predicate Valid() { |elems| == dims.Count() }
  }

  predicate AllHostValid(cells: seq<HostArray>) { forall i | 0 <= i < |cells| :: cells[i].Valid() }

  /** Which buffer of a blob a copy reads or writes. */
  datatype Field = Data | Diff

  function Other(f: Field): Field { if f == Data then Diff else Data }

  function Read(b: Blob, f: Field): seq<Elem> { if f == Data then b.data else b.diff }

  /** Engine to host: a new array of the blob's shape holding the blob's `count` elements of field `f`. */
  function ToHost(b: Blob, f: Field): (a: HostArray)
    requires b.Valid()
    ensures a.Valid() && a.dims == b.Shape()
  {
    HostArray(b.Shape(), Read(b, f))
  }

  /** Host to engine: the first `count` elements of `a` overwrite field `f` of the blob. */
  function Load(b: Blob, a: HostArray, f: Field): Blob
    requires |a.elems| >= b.Count()
  {
    var src := a.elems[..b.Count()];
    if f == Data then b.(data := src) else b.(diff := src)
  }

  lemma LoadPreserves(b: Blob, a: HostArray, f: Field)
    requires b.Valid() && |a.elems| >= b.Count()
    ensures Load(b, a, f).Valid() && Load(b, a, f).Shape() == b.Shape()
    ensures Read(Load(b, a, f), f) == a.elems[..b.Count()]
    ensures Read(Load(b, a, f), Other(f)) == Read(b, Other(f))
  {
  }

  /** Layout round trip, host -> engine -> host: an array of the blob's shape comes back unchanged. */
  lemma HostRoundTrip(b: Blob, a: HostArray, f: Field)
    requires b.Valid() && a.Valid() && a.dims == b.Shape()
    ensures Load(b, a, f).Valid() && ToHost(Load(b, a, f), f) == a
  {
    assert a.elems[..b.Count()] == a.elems;
  }

  /** Layout round trip, engine -> host -> engine: writing back what was read changes nothing. */
  lemma BlobRoundTrip(b: Blob, f: Field)
    requires b.Valid()
    ensures Load(b, ToHost(b, f), f) == b
  {
    assert Read(b, f)[..b.Count()] == Read(b, f);
  }

  /** Marshalling of a blob vector into a MATLAB cell array, as a specification. */
  function HostAll(bs: seq<Blob>, f: Field): (r: seq<HostArray>)
    requires AllValid(bs)
    ensures |r| == |bs|
    ensures forall i | 0 <= i < |bs| :: r[i] == ToHost(bs[i], f)
  {
    if bs == [] then [] else [ToHost(bs[0], f)] + HostAll(bs[1..], f)
  }

  /**
   * The cell-array construction loop shared by forward, backward, get_features
   * and get_weights: one cell per blob, in order, each of the blob's shape
   * holding its `count` elements.
   */
  method MarshalBlobs(bs: seq<Blob>, f: Field) returns (cells: seq<HostArray>)
    requires AllValid(bs)
    ensures cells == HostAll(bs, f)
  {
    cells := [];
    var i := 0;
    while i < |bs|
      invariant 0 <= i <= |bs| && |cells| == i
      invariant forall j | 0 <= j < i :: cells[j] == ToHost(bs[j], f)
    {
      cells := cells + [ToHost(bs[i], f)];
      i := i + 1;
    }
  }

  /** How a handler checks a cell against the blob it is copied into. */
  datatype InputRule =
    | SameCount   // forward: the element count must equal the blob's count
    | SameDims    // get_gradients / get_features: dimensions 0..3 must equal width, height, channels, num
    | Unchecked   // backward: no check at all

  /** The errors an input stage can raise. */
  predicate InputStageError(e: Error)
  {
    e == InputCountMismatch || e == InputSizeMismatch || e.DimMismatch?
  }

  /** The error the check of `rule` raises for cell `a` against blob `b`, if any. */
  function InputError(b: Blob, a: HostArray, rule: InputRule): (e: Option<Error>)
    ensures rule == SameCount ==> (e == None <==> |a.elems| == b.Count())
    ensures rule == SameDims ==> (e == None <==> a.dims == b.Shape())
    ensures rule == SameCount && e.Some? ==> e.value == InputSizeMismatch
    ensures rule == SameDims && e.Some? ==> e.value.DimMismatch? && e.value.axis < 4
    ensures rule == SameDims ==> (e == Some(DimMismatch(0)) <==> a.dims.width != b.width)
    ensures rule == SameDims ==>
      (e == Some(DimMismatch(1)) <==> a.dims.width == b.width && a.dims.height != b.height)
    ensures rule == SameDims ==>
      (e == Some(DimMismatch(2)) <==>
         a.dims.width == b.width && a.dims.height == b.height && a.dims.channels != b.channels)
    ensures rule == SameDims ==>
      (e == Some(DimMismatch(3)) <==>
         a.dims.width == b.width && a.dims.height == b.height && a.dims.channels == b.channels && a.dims.num != b.num)
    ensures rule == Unchecked ==> e == None
    ensures e.Some? ==> InputStageError(e.value)
  {
    match rule
    case SameCount => if |a.elems| != b.Count() then Some(InputSizeMismatch) else None
    case SameDims =>
      if a.dims.width != b.width then Some(DimMismatch(0))
      else if a.dims.height != b.height then Some(DimMismatch(1))
      else if a.dims.channels != b.channels then Some(DimMismatch(2))
      else if a.dims.num != b.num then Some(DimMismatch(3))
      else None
    case Unchecked => None
  }

  /** What a copy may assume of the cells: MATLAB arrays are well formed, and the unchecked copy reads `count` elements. */
  predicate Admissible(bs: seq<Blob>, cells: seq<HostArray>, rule: InputRule)
  {
    && AllHostValid(cells)
    && (rule == Unchecked && |cells| == |bs| ==> forall i | 0 <= i < |bs| :: |cells[i].elems| >= bs[i].Count())
  }

  lemma AcceptedFits(b: Blob, a: HostArray, rule: InputRule)
    requires InputError(b, a, rule) == None && a.Valid()
    requires rule == Unchecked ==> |a.elems| >= b.Count()
    ensures |a.elems| >= b.Count()
  {
  }

  datatype LoadResult = LoadResult(error: Option<Error>, blobs: seq<Blob>)

  /**
   * The per-blob copy loop as a specification, from index `i` on, with `cur`
   * the blobs as far as the loop has got: cells are checked and copied in
   * order and the first rejected cell stops the loop.
   */
  function LoadFrom(bs: seq<Blob>, cells: seq<HostArray>, rule: InputRule, f: Field, i: nat, cur: seq<Blob>): (r: LoadResult)
    requires |cells| == |bs| == |cur| && i <= |bs| && Admissible(bs, cells, rule)
    ensures |r.blobs| == |bs|
    ensures AllValid(bs) && AllValid(cur) ==> AllValid(r.blobs)
    ensures r.error == None <==> forall k | i <= k < |bs| :: InputError(bs[k], cells[k], rule) == None
    ensures r.error.Some? ==> InputStageError(r.error.value)
    ensures r.error.Some? && rule == SameCount ==> r.error.value == InputSizeMismatch
    ensures r.error.Some? && rule == SameDims ==> r.error.value.DimMismatch?
    decreases |bs| - i
  {
    if i == |bs| then LoadResult(None, cur)
    else
      match InputError(bs[i], cells[i], rule)
      case Some(e) => LoadResult(Some(e), cur)
      case None =>
        AcceptedFits(bs[i], cells[i], rule);
        var next := cur[i := Load(bs[i], cells[i], f)];
        assert AllValid(bs) && AllValid(cur) ==> AllValid(next) by {
          if AllValid(bs) { LoadPreserves(bs[i], cells[i], f); }
        }
        LoadFrom(bs, cells, rule, f, i + 1, next)
  }

  /** The whole input stage: the cell-count check, then the per-blob loop from the first blob. */
  function LoadAll(bs: seq<Blob>, cells: seq<HostArray>, rule: InputRule, f: Field): (r: LoadResult)
    requires Admissible(bs, cells, rule)
    ensures |r.blobs| == |bs|
    ensures AllValid(bs) ==> AllValid(r.blobs)
    ensures r.error == None <==> |cells| == |bs| && forall k | 0 <= k < |bs| :: InputError(bs[k], cells[k], rule) == None
    ensures |cells| != |bs| ==> r == LoadResult(Some(InputCountMismatch), bs)
    ensures r.error.Some? ==> InputStageError(r.error.value)
    ensures |cells| == |bs| && r.error.Some? && rule == SameCount ==> r.error.value == InputSizeMismatch
    ensures |cells| == |bs| && r.error.Some? && rule == SameDims ==> r.error.value.DimMismatch?
  {
    if |cells| != |bs| then LoadResult(Some(InputCountMismatch), bs) else LoadFrom(bs, cells, rule, f, 0, bs)
  }

  /** The cells before `j` all passed their check and the blobs before `j` hold them; the rest are untouched. */
  predicate CopiedBefore(bs: seq<Blob>, cells: seq<HostArray>, rule: InputRule, f: Field, j: nat, cur: seq<Blob>)
    requires |cells| == |bs|
  {
    && j <= |bs| && |cur| == |bs|
    && (forall k | 0 <= k < j :: InputError(bs[k], cells[k], rule) == None && |cells[k].elems| >= bs[k].Count())
    && (forall k | 0 <= k < |bs| :: cur[k] == if k < j then Load(bs[k], cells[k], f) else bs[k])
  }

  /** The loop stopped at index `j` (`j == |bs|`: it went through), with the blobs in state `r.blobs`. */
  predicate StoppedAt(bs: seq<Blob>, cells: seq<HostArray>, rule: InputRule, f: Field, j: nat, r: LoadResult)
    requires |cells| == |bs|
  {
    && CopiedBefore(bs, cells, rule, f, j, r.blobs)
    && (j < |bs| ==> r.error.Some? && r.error == InputError(bs[j], cells[j], rule))
    && (j == |bs| ==> r.error == None)
  }

  lemma {:induction false} LoadFromStops(bs: seq<Blob>, cells: seq<HostArray>, rule: InputRule, f: Field, i: nat, cur: seq<Blob>)
    requires |cells| == |bs| && Admissible(bs, cells, rule)
    requires CopiedBefore(bs, cells, rule, f, i, cur)
    ensures exists j: nat :: i <= j && StoppedAt(bs, cells, rule, f, j, LoadFrom(bs, cells, rule, f, i, cur))
    decreases |bs| - i
  {
    var r := LoadFrom(bs, cells, rule, f, i, cur);
    if i == |bs| {
      assert StoppedAt(bs, cells, rule, f, i, r);
    } else if InputError(bs[i], cells[i], rule).Some? {
      assert StoppedAt(bs, cells, rule, f, i, r);
    } else {
      AcceptedFits(bs[i], cells[i], rule);
      var next := cur[i := Load(bs[i], cells[i], f)];
      assert CopiedBefore(bs, cells, rule, f, i + 1, next);
      LoadFromStops(bs, cells, rule, f, i + 1, next);
    }
  }

  /**
   * The input stage stops at the first rejected cell: every blob before it is
   * already overwritten with its cell, every blob from it on is unchanged.
   */
  lemma LoadAllStops(bs: seq<Blob>, cells: seq<HostArray>, rule: InputRule, f: Field)
    requires |cells| == |bs| && Admissible(bs, cells, rule)
    ensures exists j: nat :: StoppedAt(bs, cells, rule, f, j, LoadAll(bs, cells, rule, f))
  {
    assert CopiedBefore(bs, cells, rule, f, 0, bs);
    LoadFromStops(bs, cells, rule, f, 0, bs);
    var r := LoadFrom(bs, cells, rule, f, 0, bs);
    assert LoadAll(bs, cells, rule, f) == r;
    var j: nat :| 0 <= j && StoppedAt(bs, cells, rule, f, j, r);
  }

  /**
   * `after` is `bs` with field `f` of every blob replaced by the first `count`
   * elements of its cell: shapes and the other field are kept.
   */
  predicate Overwritten(bs: seq<Blob>, cells: seq<HostArray>, f: Field, after: seq<Blob>)
  {
    && |after| == |bs| == |cells|
    && forall k | 0 <= k < |bs| ::
         && after[k].Shape() == bs[k].Shape()
         && |cells[k].elems| >= bs[k].Count()
         && Read(after[k], f) == cells[k].elems[..bs[k].Count()]
         && Read(after[k], Other(f)) == Read(bs[k], Other(f))
  }

  /** An input stage that raises no error has overwritten every blob with its cell. */
  lemma LoadAllOverwrites(bs: seq<Blob>, cells: seq<HostArray>, rule: InputRule, f: Field)
    requires AllValid(bs) && Admissible(bs, cells, rule) && LoadAll(bs, cells, rule, f).error == None
    ensures Overwritten(bs, cells, f, LoadAll(bs, cells, rule, f).blobs)
  {
    LoadAllStops(bs, cells, rule, f);
    var r := LoadAll(bs, cells, rule, f);
    var j: nat :| StoppedAt(bs, cells, rule, f, j, r);
    assert j == |bs|;
    forall k | 0 <= k < |bs|
      ensures && r.blobs[k].Shape() == bs[k].Shape()
              && |cells[k].elems| >= bs[k].Count()
              && Read(r.blobs[k], f) == cells[k].elems[..bs[k].Count()]
              && Read(r.blobs[k], Other(f)) == Read(bs[k], Other(f))
    {
      LoadPreserves(bs[k], cells[k], f);
    }
  }

  /**
   * The per-blob copy loop of do_forward, do_backward, do_get_gradients and
   * do_get_features: blob i is overwritten as soon as cell i passes its check,
   * before cell i+1 is looked at.
   */
  method LoadBlobs(bs: seq<Blob>, cells: seq<HostArray>, rule: InputRule, f: Field) returns (r: LoadResult)
    requires Admissible(bs, cells, rule)
    ensures r == LoadAll(bs, cells, rule, f)
  {
    if |cells| != |bs| {
      return LoadResult(Some(InputCountMismatch), bs);
    }
    var blobs := bs;
    var i := 0;
    while i < |bs|
      invariant 0 <= i <= |bs| && |blobs| == |bs|
      invariant LoadFrom(bs, cells, rule, f, 0, bs) == LoadFrom(bs, cells, rule, f, i, blobs)
    {
      var e := InputError(bs[i], cells[i], rule);
      if e.Some? {
        return LoadResult(e, blobs);
      }
      AcceptedFits(bs[i], cells[i], rule);
      blobs := blobs[i := Load(bs[i], cells[i], f)];
      i := i + 1;
    }
    return LoadResult(None, blobs);
  }
}
