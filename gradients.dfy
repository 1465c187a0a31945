/**
 * Channel-id validation and the batched gradient concatenation of
 * do_get_gradients: the engine hands back one diff buffer per batch of
 * selected channels, and the bridge copies a prefix of each, in batch order,
 * into one output array of width x height x channels x k elements.
 */
module Gradients {
  import opened Wrappers
  import opened Errors
  import opened Tensors

  function Min(a: nat, b: nat): nat { if a <= b then a else b }

  /** `std::max(0, x)`. */
  function Floor0(x: int): nat { if x < 0 then 0 else x }

  /** The update of `channels_left` after each batch buffer. */
  function NextLeft(left: nat, batch: nat): nat { Floor0(left - batch) }

  /** `channels_left` on entry to the buffer with index `i`, starting from `k` selected channels. */
  function ChannelsLeft(k: nat, batch: nat, i: nat): nat
  {
    if i == 0 then k else NextLeft(ChannelsLeft(k, batch, i - 1), batch)
  }

  /** `num_to_copy` for one buffer: its count, capped at one image's worth per channel still left. */
  function CopyCount(b: Blob, left: nat): nat { Min(b.Count(), b.Spatial() * left) }

  /** The elements the loop copies from `bufs`, in order, when `left` channels remain on entry. */
  function Gathered(bufs: seq<Blob>, left: nat, batch: nat): (g: seq<Elem>)
    requires AllValid(bufs)
    decreases |bufs|
  {
    if bufs == [] then []
    else bufs[0].diff[..CopyCount(bufs[0], left)] + Gathered(bufs[1..], NextLeft(left, batch), batch)
  }

  /** The elements the output array of `k` channels can hold. */
  function Capacity(bufs: seq<Blob>, k: nat): nat
    requires |bufs| >= 1
  {
    bufs[0].Spatial() * k
  }

  /**
   * What do_get_gradients returns once the engine has succeeded: the gathered
   * elements as an array of shape (width, height, channels, k) of the first
   * buffer, provided their number is exactly that array's size.
   */
  function GradientResult(bufs: seq<Blob>, k: nat, batch: nat): Result<HostArray, Error>
    requires |bufs| >= 1 && AllValid(bufs)
  {
    var g := Gathered(bufs, k, batch);
    if |g| == Capacity(bufs, k)
    then Success(HostArray(Dims(bufs[0].width, bufs[0].height, bufs[0].channels, k), g))
    else Failure(GradientCountMismatch)
  }

  // ---------------------------------------------------------------------------
  // channels_left

  /** `channels_left` is `k - i * batch`, floored at zero. */
  lemma {:induction false} ChannelsLeftClosedForm(k: nat, batch: nat, i: nat)
    ensures ChannelsLeft(k, batch, i) == Floor0(k - i * batch)
  {
    if i > 0 {
      ChannelsLeftClosedForm(k, batch, i - 1);
      assert (i - 1) * batch + batch == i * batch;
    }
  }

  /** `channels_left` never grows, and once it reaches zero it stays zero. */
  lemma {:induction false} ChannelsLeftMonotone(k: nat, batch: nat, i: nat, j: nat)
    requires i <= j
    ensures ChannelsLeft(k, batch, j) <= ChannelsLeft(k, batch, i)
    ensures ChannelsLeft(k, batch, i) == 0 ==> ChannelsLeft(k, batch, j) == 0
    decreases j - i
  {
    if i < j {
      ChannelsLeftMonotone(k, batch, i, j - 1);
    }
  }

  /** Once no channel is left, the remaining buffers contribute nothing. */
  lemma {:induction false} ExhaustedCopiesNothing(bufs: seq<Blob>, batch: nat)
    requires AllValid(bufs)
    ensures Gathered(bufs, 0, batch) == []
    decreases |bufs|
  {
    if bufs != [] {
      assert CopyCount(bufs[0], 0) == 0;
      ExhaustedCopiesNothing(bufs[1..], batch);
    }
  }

  // ---------------------------------------------------------------------------
  // The engine's result when it behaves as the loop expects

  /**
   * Buffers shaped as the loop expects: all share the first buffer's width,
   * height and channels; every buffer but the last holds `batch` images; the
   * last holds at least the channels still left when it is reached.
   */
  predicate WellFormedBatches(bufs: seq<Blob>, k: nat, batch: nat)
  {
    && |bufs| >= 1 && AllValid(bufs)
    && (forall i | 0 <= i < |bufs| ::
          bufs[i].width == bufs[0].width && bufs[i].height == bufs[0].height && bufs[i].channels == bufs[0].channels)
    && (forall i | 0 <= i < |bufs| - 1 :: bufs[i].num == batch)
    && bufs[|bufs| - 1].num >= ChannelsLeft(k, batch, |bufs| - 1)
  }

  lemma MulMonotone(s: nat, a: nat, b: nat)
    requires a <= b
    ensures s * a <= s * b
  {
  }

  lemma MulSplit(s: nat, a: nat, b: nat)
    ensures s * a + s * b == s * (a + b)
  {
  }

  /** Starting one buffer later with the updated count is the same as one more step from the start. */
  lemma {:induction false} ChannelsLeftShift(k: nat, batch: nat, i: nat)
    ensures ChannelsLeft(k, batch, i + 1) == ChannelsLeft(NextLeft(k, batch), batch, i)
  {
    if i > 0 {
      ChannelsLeftShift(k, batch, i - 1);
    }
  }

  /** The number of elements one buffer contributes when it has the expected number of images. */
  lemma CopyCountOfBatch(b: Blob, left: nat, batch: nat)
    requires b.num == batch
    ensures CopyCount(b, left) == b.Spatial() * Min(left, batch)
  {
    if left <= batch {
      MulMonotone(b.Spatial(), left, batch);
    } else {
      MulMonotone(b.Spatial(), batch, left);
    }
  }

  lemma {:induction false} GatheredLength(bufs: seq<Blob>, left: nat, batch: nat, s: nat)
    requires AllValid(bufs) && |bufs| >= 1
    requires forall i | 0 <= i < |bufs| :: bufs[i].Spatial() == s
    requires forall i | 0 <= i < |bufs| - 1 :: bufs[i].num == batch
    requires bufs[|bufs| - 1].num >= ChannelsLeft(left, batch, |bufs| - 1)
    ensures |Gathered(bufs, left, batch)| == s * left
    decreases |bufs|
  {
    var b := bufs[0];
    var here := CopyCount(b, left);
    assert |Gathered(bufs, left, batch)| == here + |Gathered(bufs[1..], NextLeft(left, batch), batch)|;
    if |bufs| == 1 {
      MulMonotone(s, left, b.num);
      assert here == s * left;
      assert Gathered(bufs[1..], NextLeft(left, batch), batch) == [];
    } else {
      var next := NextLeft(left, batch);
      var rest := bufs[1..];
      assert AllValid(rest);
      ChannelsLeftShift(left, batch, |rest| - 1);
      assert rest[|rest| - 1] == bufs[|bufs| - 1];
      GatheredLength(rest, next, batch, s);
      CopyCountOfBatch(b, left, batch);
      MulSplit(s, Min(left, batch), next);
      assert Min(left, batch) + next == left;
    }
  }

  /**
   * With well-formed batches the loop copies exactly width x height x channels
   * x k elements, so the consistency check at the end passes and the output
   * array is completely filled.
   */
  lemma WellFormedSucceeds(bufs: seq<Blob>, k: nat, batch: nat)
    requires WellFormedBatches(bufs, k, batch)
    ensures |Gathered(bufs, k, batch)| == Capacity(bufs, k)
    ensures GradientResult(bufs, k, batch).Success?
    ensures GradientResult(bufs, k, batch).value.Valid()
  {
    GatheredLength(bufs, k, batch, bufs[0].Spatial());
  }

  /**
   * What the final checks accept is a completely filled output array of
   * shape (width, height, channels, k) of the first buffer; anything else is
   * the count mismatch.
   */
  lemma GradientResultShape(bufs: seq<Blob>, k: nat, batch: nat)
    requires |bufs| >= 1 && AllValid(bufs)
    ensures var r := GradientResult(bufs, k, batch);
      && (r.Success? <==> |Gathered(bufs, k, batch)| == bufs[0].width * bufs[0].height * bufs[0].channels * k)
      && (r.Success? ==> r.value.Valid() && r.value.dims.num == k && r.value.elems == Gathered(bufs, k, batch))
      && (r.Failure? ==> r.error == GradientCountMismatch)
  {
  }

  /** As long as channels remain for a whole batch, a full batch buffer is copied whole. */
  lemma FullBatchCopiedWhole(b: Blob, left: nat, batch: nat)
    requires b.num == batch && batch <= left
    ensures CopyCount(b, left) == b.Count()
  {
    MulMonotone(b.Spatial(), batch, left);
  }

  // ---------------------------------------------------------------------------
  // The loops

  /** The conversion loop over the channel ids: every id must be non-negative, and there must be at least one. */
  method CheckChannelIds(ids: seq<int>) returns (r: Result<seq<int>, Error>)
    ensures r.Success? <==> |ids| >= 1 && forall i | 0 <= i < |ids| :: ids[i] >= 0
    ensures r.Success? ==> r.value == ids
    ensures r == Failure(NegativeChannelId) <==> exists i | 0 <= i < |ids| :: ids[i] < 0
    ensures r.Failure? ==> r.error == NegativeChannelId || r.error == EmptyChannelList
  {
    var selected: seq<int> := [];
    var i := 0;
    while i < |ids|
      invariant 0 <= i <= |ids|
      invariant selected == ids[..i]
      invariant forall j | 0 <= j < i :: ids[j] >= 0
    {
      if ids[i] < 0 {
        return Failure(NegativeChannelId);
      }
      selected := selected + [ids[i]];
      i := i + 1;
    }
    assert selected == ids;
    if |selected| < 1 {
      return Failure(EmptyChannelList);
    }
    return Success(selected);
  }

  /** `caffe_copy` of `src` into `dst` from position `at`. */
  method CopyInto(dst: array<Elem>, at: nat, src: seq<Elem>)
    requires at + |src| <= dst.Length
    modifies dst
    ensures dst[..at] == old(dst[..at])
    ensures dst[at..at + |src|] == src
    ensures dst[at + |src|..] == old(dst[at + |src|..])
  {
    var j := 0;
    while j < |src|
      invariant 0 <= j <= |src|
      invariant forall p | 0 <= p < dst.Length :: dst[p] == if at <= p < at + j then src[p - at] else old(dst[p])
    {
      dst[at + j] := src[j];
      j := j + 1;
    }
    assert forall p | 0 <= p < |src| :: dst[at..at + |src|][p] == src[p];
  }

  /** One step of `Gathered` on a suffix. */
  lemma GatheredStep(bufs: seq<Blob>, i: nat, left: nat, batch: nat)
    requires i < |bufs| && AllValid(bufs[i..])
    ensures AllValid(bufs[i + 1..])
    ensures Gathered(bufs[i..], left, batch)
         == bufs[i].diff[..CopyCount(bufs[i], left)] + Gathered(bufs[i + 1..], NextLeft(left, batch), batch)
  {
    assert bufs[i..][0] == bufs[i] && bufs[i..][1..] == bufs[i + 1..];
  }

  lemma SplitPrefix(s: seq<Elem>, at: nat, n: nat)
    requires at + n <= |s|
    ensures s[..at + n] == s[..at] + s[at..at + n]
  {
  }

  /**
   * The copy loop of do_get_gradients: for each batch buffer in order, copy
   * `num_to_copy` elements of its diff to the advancing write offset, then
   * reduce `channels_left` by the batch size, floored at zero; finally check
   * that the copied total and the write offset both reached the array's size.
   */
  method ConcatGradients(bufs: seq<Blob>, k: nat, batch: nat) returns (r: Result<HostArray, Error>)
    requires |bufs| >= 1 && AllValid(bufs)
    requires |Gathered(bufs, k, batch)| <= Capacity(bufs, k)  // otherwise the loop writes past the output array
    ensures r == GradientResult(bufs, k, batch)
  {
    var total := bufs[0].Spatial() * k;
    var out := new Elem[total];  // zero-filled, as a fresh MATLAB array is
    var dataCopied := 0;
    var offset := 0;
    var channelsLeft := k;
    ghost var written: seq<Elem> := [];
    var i := 0;
    while i < |bufs|
      invariant 0 <= i <= |bufs|
      invariant dataCopied == offset == |written| && offset <= total == out.Length
      invariant channelsLeft == ChannelsLeft(k, batch, i)
      invariant AllValid(bufs[i..])
      invariant out[..offset] == written
      invariant Gathered(bufs, k, batch) == written + Gathered(bufs[i..], channelsLeft, batch)
    {
      var numToCopy := CopyCount(bufs[i], channelsLeft);
      GatheredStep(bufs, i, channelsLeft, batch);
      ghost var src := bufs[i].diff[..numToCopy];
      ghost var rest := Gathered(bufs[i + 1..], NextLeft(channelsLeft, batch), batch);
      assert Gathered(bufs, k, batch) == (written + src) + rest;
      CopyInto(out, offset, bufs[i].diff[..numToCopy]);
      SplitPrefix(out[..], offset, numToCopy);
      written := written + src;
      dataCopied := dataCopied + numToCopy;
      offset := offset + numToCopy;
      channelsLeft := NextLeft(channelsLeft, batch);
      i := i + 1;
    }
    assert bufs[i..] == [];
    ghost var g := Gathered(bufs, k, batch);
    assert g == written;
    assert Capacity(bufs, k) == total;
    if dataCopied != total || offset != total {
      assert |g| != Capacity(bufs, k);
      return Failure(GradientCountMismatch);
    }
    assert out[..] == g;
    return Success(HostArray(Dims(bufs[0].width, bufs[0].height, bufs[0].channels, k), out[..]));
  }
}
