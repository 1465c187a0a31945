/**
 * The Caffe engine as the bridge uses it: an opaque collaborator that loads a
 * network from files, runs passes and extracts gradients and features. Each
 * operation is a function of the network the bridge hands it.
 */
module Engines {
  import opened Wrappers
  import opened Tensors
  import opened Nets
  import opened Gradients

  /** What CalcGradientsPrefilled and GetFeaturesPrefilled hand back: a status, result blobs, and the network after the call. */
  datatype Outcome = Outcome(status: int, blobs: seq<Blob>, after: Net)

  datatype Engine = Engine(
    load: (string, string) -> Net,                  // Net construction from the definition file, then CopyTrainedLayersFrom
    forward: Net -> Net,                            // ForwardPrefilled
    backward: Net -> Net,                           // Backward
    gradients: (Net, string, seq<int>) -> Outcome,  // CalcGradientsPrefilled(layer name, channel ids)
    features: (Net, string) -> Outcome,             // GetFeaturesPrefilled(layer name)
    readMean: string -> Option<Blob>)               // reading a BlobProto from a binary file

  /**
   * A successful gradient call returns at least one buffer, and the elements
   * the copy loop takes from them fit the output array of shape
   * (width, height, channels, k) of the first buffer.
   */
  predicate GradientsFit(o: Outcome, k: nat, batch: nat)
  {
    && o.after.Valid() && AllValid(o.blobs)
    && (o.status == 0 ==> |o.blobs| >= 1 && |Gathered(o.blobs, k, batch)| <= Capacity(o.blobs, k))
  }

  /** What the bridge relies on the engine for: well-formed networks and blobs. */
  ghost predicate EngineHonest(e: Engine)
  {
    && (forall param: string, model: string :: e.load(param, model).Valid())
    && (forall n: Net :: n.Valid() ==> e.forward(n).Valid())
    && (forall n: Net :: n.Valid() ==> e.backward(n).Valid())
    && (forall n: Net, layer: string, ids: seq<int> ::
          n.Valid() && |ids| >= 1 ==> GradientsFit(e.gradients(n, layer, ids), |ids|, n.batchSize))
    && (forall n: Net, layer: string ::
          n.Valid() ==> e.features(n, layer).after.Valid() && AllValid(e.features(n, layer).blobs))
    && (forall path: string :: e.readMean(path).Some? ==> e.readMean(path).value.Valid())
  }
}
