/**
 * What each data handler does to the network, as functions of the network
 * before the call: the reply it produces and the network it leaves behind.
 * The session's handler methods are proved to compute exactly these.
 */
module Steps {
  import opened Wrappers
  import opened Errors
  import opened Tensors
  import opened Nets
  import opened Gradients
  import opened Snapshots
  import opened Engines

  /** What a handler puts into plhs[0]. */
  datatype Reply =
    | NoReply
    | Scalar(value: int)
    | Array(host: HostArray)
    | Cells(cells: seq<HostArray>)
    | Weights(weights: seq<WeightsEntry>)
    | BlobSnapshot(blobEntries: seq<BlobEntry>)

  /** A handler's reply or error, and the network after it (kept even when the handler raises an error). */
  datatype Step = Step(reply: Result<Reply, Error>, net: Net)

  /** The outcome of an input stage: the error it stopped with, if any, and the network with the cells copied so far. */
  datatype Fed = Fed(error: Option<Error>, net: Net)

  /** `r` is a cell array holding, in order, one array per blob with the blob's shape and its field `f`. */
  predicate Mirrors(r: Reply, bs: seq<Blob>, f: Field)
  {
    && r.Cells? && |r.cells| == |bs|
    && forall i | 0 <= i < |bs| :: r.cells[i].dims == bs[i].Shape() && r.cells[i].elems == Read(bs[i], f)
  }

  lemma HostAllMirrors(bs: seq<Blob>, f: Field)
    requires AllValid(bs)
    ensures Mirrors(Cells(HostAll(bs, f)), bs, f)
  {
  }

  /** The input stage of do_forward, do_get_gradients and do_get_features: cells into the data of the input blobs. */
  function FeedInputs(n: Net, cells: seq<HostArray>, rule: InputRule): (r: Fed)
    requires n.Valid() && Admissible(n.inputBlobs, cells, rule)
    ensures r.net.Valid()
    ensures r.net.(inputBlobs := n.inputBlobs) == n
    ensures r.error == None <==>
      |cells| == |n.inputBlobs| && forall k | 0 <= k < |n.inputBlobs| :: InputError(n.inputBlobs[k], cells[k], rule) == None
    ensures r.error == None ==> Overwritten(n.inputBlobs, cells, Data, r.net.inputBlobs)
    ensures |cells| != |n.inputBlobs| ==> r == Fed(Some(InputCountMismatch), n)
    ensures r.error.Some? ==> InputStageError(r.error.value)
    ensures |cells| == |n.inputBlobs| && r.error.Some? && rule == SameCount ==> r.error.value == InputSizeMismatch
    ensures |cells| == |n.inputBlobs| && r.error.Some? && rule == SameDims ==> r.error.value.DimMismatch?
  {
    var ld := LoadAll(n.inputBlobs, cells, rule, Data);
    assert ld.error == None ==> Overwritten(n.inputBlobs, cells, Data, ld.blobs) by {
      if ld.error == None { LoadAllOverwrites(n.inputBlobs, cells, rule, Data); }
    }
    Fed(ld.error, n.(inputBlobs := ld.blobs))
  }

  /** The input stage of do_backward: cells into the diff of the output blobs, with no check but their number. */
  function FeedTopDiffs(n: Net, cells: seq<HostArray>): (r: Fed)
    requires n.Valid() && Admissible(n.outputBlobs, cells, Unchecked)
    ensures r.net.Valid()
    ensures r.net.(outputBlobs := n.outputBlobs) == n
    ensures r.error == None <==> |cells| == |n.outputBlobs|
    ensures r.error == None ==> Overwritten(n.outputBlobs, cells, Diff, r.net.outputBlobs)
    ensures r.error != None ==> r == Fed(Some(InputCountMismatch), n)
  {
    var ld := LoadAll(n.outputBlobs, cells, Unchecked, Diff);
    assert ld.error == None ==> Overwritten(n.outputBlobs, cells, Diff, ld.blobs) by {
      if ld.error == None { LoadAllOverwrites(n.outputBlobs, cells, Unchecked, Diff); }
    }
    assert ld.error.Some? ==> |cells| != |n.outputBlobs|;
    Fed(ld.error, n.(outputBlobs := ld.blobs))
  }

  /** do_forward: copy the cells in, run the forward pass, hand the output blobs' data back. */
  function ForwardStep(n: Net, cells: seq<HostArray>, e: Engine): (s: Step)
    requires n.Valid() && AllHostValid(cells) && EngineHonest(e)
    ensures s.net.Valid()
    ensures s.reply.Success? <==>
      |cells| == |n.inputBlobs| && forall k | 0 <= k < |n.inputBlobs| :: |cells[k].elems| == n.inputBlobs[k].Count()
    ensures |cells| != |n.inputBlobs| ==> s == Step(Failure(InputCountMismatch), n)
    ensures |cells| == |n.inputBlobs| && s.reply.Failure? ==> s.reply.error == InputSizeMismatch
    ensures s.reply.Failure? ==> s.net == FeedInputs(n, cells, SameCount).net
    ensures s.reply.Success? ==> s.net == e.forward(FeedInputs(n, cells, SameCount).net)
    ensures s.reply.Success? ==> Mirrors(s.reply.value, s.net.outputBlobs, Data)
  {
    var fed := FeedInputs(n, cells, SameCount);
    if fed.error.Some? then Step(Failure(fed.error.value), fed.net)
    else
      var after := e.forward(fed.net);
      HostAllMirrors(after.outputBlobs, Data);
      Step(Success(Cells(HostAll(after.outputBlobs, Data))), after)
  }

  /** do_backward: copy the cells into the output diffs, run the backward pass, hand the input blobs' diff back. */
  function BackwardStep(n: Net, cells: seq<HostArray>, e: Engine): (s: Step)
    requires n.Valid() && Admissible(n.outputBlobs, cells, Unchecked) && EngineHonest(e)
    ensures s.net.Valid()
    ensures s.reply.Success? <==> |cells| == |n.outputBlobs|
    ensures s.reply.Failure? ==> s == Step(Failure(InputCountMismatch), n)
    ensures s.reply.Success? ==> s.net == e.backward(FeedTopDiffs(n, cells).net)
    ensures s.reply.Success? ==> Mirrors(s.reply.value, s.net.inputBlobs, Diff)
  {
    var fed := FeedTopDiffs(n, cells);
    if fed.error.Some? then Step(Failure(fed.error.value), fed.net)
    else
      var after := e.backward(fed.net);
      HostAllMirrors(after.inputBlobs, Diff);
      Step(Success(Cells(HostAll(after.inputBlobs, Diff))), after)
  }

  /** The channel ids pass both checks of do_get_gradients. */
  predicate IdsAccepted(ids: seq<int>)
  {
    |ids| >= 1 && forall i | 0 <= i < |ids| :: ids[i] >= 0
  }

  /** Every check of do_get_gradients before the engine call passes. */
  predicate GradientInputsOk(n: Net, cells: seq<HostArray>, ids: seq<int>)
    requires n.Valid() && AllHostValid(cells)
  {
    IdsAccepted(ids) && FeedInputs(n, cells, SameDims).error == None
  }

  /**
   * do_get_gradients once the network is known to be loaded: the channel
   * ids, then the input cells, then the engine call, then the copy-out.
   */
  function GradientsStep(n: Net, cells: seq<HostArray>, layer: string, ids: seq<int>, e: Engine): (s: Step)
    requires n.Valid() && AllHostValid(cells) && EngineHonest(e)
    ensures s.net.Valid()
    ensures s.reply == Failure(NegativeChannelId) <==> exists i | 0 <= i < |ids| :: ids[i] < 0
    ensures s.reply == Failure(EmptyChannelList) <==> |ids| == 0
    ensures !IdsAccepted(ids) ==> s.net == n
    ensures !GradientInputsOk(n, cells, ids) ==> s.reply.Failure? && s.net.(inputBlobs := n.inputBlobs) == n
    ensures GradientInputsOk(n, cells, ids) ==>
      var m := FeedInputs(n, cells, SameDims).net;
      var o := e.gradients(m, layer, ids);
      && s.net == o.after
      && (o.status != 0 <==> s.reply == Failure(LayerNotFound))
      && (o.status == 0 ==> Concatenated(o, |ids|, m.batchSize, s.reply))
    ensures s.reply.Success? ==>
      && GradientInputsOk(n, cells, ids)
      && |cells| == |n.inputBlobs| && (forall k | 0 <= k < |cells| :: cells[k].dims == n.inputBlobs[k].Shape())
      && s.reply.value.Array? && s.reply.value.host.Valid() && s.reply.value.host.dims.num == |ids|
  {
    if exists i | 0 <= i < |ids| :: ids[i] < 0 then Step(Failure(NegativeChannelId), n)
    else if |ids| == 0 then Step(Failure(EmptyChannelList), n)
    else
      var fed := FeedInputs(n, cells, SameDims);
      if fed.error.Some? then Step(Failure(fed.error.value), fed.net)
      else CollectGradients(fed.net, layer, ids, e)
  }

  /**
   * The reply after an engine call with status 0: the batch buffers' copied
   * diff prefixes, concatenated in batch order, as an array of shape
   * (width, height, channels, k) of the first buffer when they fill it
   * exactly, and the count mismatch otherwise.
   */
  predicate Concatenated(o: Outcome, k: nat, batch: nat, reply: Result<Reply, Error>)
    requires GradientsFit(o, k, batch) && o.status == 0
  {
    var g := Gathered(o.blobs, k, batch);
    var b := o.blobs[0];
    && (reply.Success? <==> |g| == b.Spatial() * k)
    && (reply.Success? ==> reply.value == Array(HostArray(Dims(b.width, b.height, b.channels, k), g)))
    && (reply.Failure? ==> reply.error == GradientCountMismatch)
  }

  /** The engine call of do_get_gradients and the copy-out of its buffers, with the batch size of the network handed in. */
  function CollectGradients(m: Net, layer: string, ids: seq<int>, e: Engine): (s: Step)
    requires m.Valid() && |ids| >= 1 && EngineHonest(e)
    ensures var o := e.gradients(m, layer, ids);
      && s.net == o.after && s.net.Valid()
      && (o.status != 0 <==> s.reply == Failure(LayerNotFound))
      && (s.reply.Failure? ==> s.reply.error == LayerNotFound || s.reply.error == GradientCountMismatch)
      && (s.reply.Success? ==> s.reply.value.Array? && s.reply.value.host.Valid() && s.reply.value.host.dims.num == |ids|)
      && (o.status == 0 ==> Concatenated(o, |ids|, m.batchSize, s.reply))
  {
    var o := e.gradients(m, layer, ids);
    assert GradientsFit(o, |ids|, m.batchSize);
    if o.status != 0 then Step(Failure(LayerNotFound), o.after)
    else
      GradientResultShape(o.blobs, |ids|, m.batchSize);
      match GradientResult(o.blobs, |ids|, m.batchSize)
      case Success(a) => Step(Success(Array(a)), o.after)
      case Failure(err) => Step(Failure(err), o.after)
  }

  /**
   * When the engine's buffers are shaped as the copy loop expects, a call
   * that passes its checks and gets status 0 returns the concatenated
   * gradients: an array of shape (width, height, channels, k) of the first
   * buffer holding exactly width*height*channels*k elements.
   */
  lemma GradientsSucceed(n: Net, cells: seq<HostArray>, layer: string, ids: seq<int>, e: Engine)
    requires n.Valid() && AllHostValid(cells) && EngineHonest(e)
    requires GradientInputsOk(n, cells, ids)
    requires var o := e.gradients(FeedInputs(n, cells, SameDims).net, layer, ids);
      o.status == 0 && WellFormedBatches(o.blobs, |ids|, n.batchSize)
    ensures var o := e.gradients(FeedInputs(n, cells, SameDims).net, layer, ids);
      && GradientsStep(n, cells, layer, ids, e).reply.Success?
      && GradientsStep(n, cells, layer, ids, e).reply.value
         == Array(HostArray(Dims(o.blobs[0].width, o.blobs[0].height, o.blobs[0].channels, |ids|), Gathered(o.blobs, |ids|, n.batchSize)))
      && |Gathered(o.blobs, |ids|, n.batchSize)| == o.blobs[0].Spatial() * |ids|
  {
    var fed := FeedInputs(n, cells, SameDims);
    assert fed.net.batchSize == n.batchSize;
    var o := e.gradients(fed.net, layer, ids);
    WellFormedSucceeds(o.blobs, |ids|, n.batchSize);
  }

  /** do_get_features once the network is known to be loaded: the input cells, the engine call, the copy-out. */
  function FeaturesStep(n: Net, cells: seq<HostArray>, layer: string, e: Engine): (s: Step)
    requires n.Valid() && AllHostValid(cells) && EngineHonest(e)
    ensures s.net.Valid()
    ensures var fed := FeedInputs(n, cells, SameDims);
      && (fed.error.Some? ==> s == Step(Failure(fed.error.value), fed.net))
      && (fed.error.None? ==> s.net == e.features(fed.net, layer).after)
      && (s.reply.Success? <==> fed.error.None? && e.features(fed.net, layer).status == 0)
      && (fed.error.None? && e.features(fed.net, layer).status != 0 ==> s.reply == Failure(LayerNotFound))
      && (s.reply.Success? ==> Mirrors(s.reply.value, e.features(fed.net, layer).blobs, Data))
  {
    var fed := FeedInputs(n, cells, SameDims);
    if fed.error.Some? then Step(Failure(fed.error.value), fed.net)
    else
      var o := e.features(fed.net, layer);
      if o.status != 0 then Step(Failure(LayerNotFound), o.after)
      else
        HostAllMirrors(o.blobs, Data);
        Step(Success(Cells(HostAll(o.blobs, Data))), o.after)
  }
}
