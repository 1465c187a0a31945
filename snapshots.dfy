/** The loaded network as the bridge sees it. */
module Nets {
  import opened Tensors

  /** A layer: its name and its parameter blobs (weights, biases), in declared order. */
  datatype Layer = Layer(name: string, params: seq<Blob>)

  /**
   * A loaded network: its input and output blob vectors, its named
   * intermediate blobs, its layers, and the batch size, which is the `num` of
   * the first top blob of the first layer.
   */
  datatype Net = Net(
    inputBlobs: seq<Blob>,
    outputBlobs: seq<Blob>,
    blobNames: seq<string>,
    blobs: seq<Blob>,
    layers: seq<Layer>,
    batchSize: nat)
  {
    predicate Valid()
    {
      && AllValid(inputBlobs) && AllValid(outputBlobs) && AllValid(blobs)
      && |blobs| == |blobNames|
      && forall i | 0 <= i < |layers| :: AllValid(layers[i].params)
    }
  }
}

/**
 * do_get_weights and do_get_blobs: read-only walks over the network that
 * copy parameter and intermediate blobs out into MATLAB structure arrays.
 */
module Snapshots {
  import opened Tensors
  import opened Nets

  /** One element of the weights structure array: the layer's parameter arrays and its name. */
  datatype WeightsEntry = WeightsEntry(weights: seq<HostArray>, layerName: string)

  /** One element of the blobs structure array: a blob's gradients, its values and its name. */
  datatype BlobEntry = BlobEntry(diff: HostArray, data: HostArray, blobName: string)

  predicate ParamsValid(layers: seq<Layer>) { forall i | 0 <= i < |layers| :: AllValid(layers[i].params) }

  function EntryOf(l: Layer): WeightsEntry
    requires AllValid(l.params)
  {
    WeightsEntry(HostAll(l.params, Data), l.name)
  }

  /** The weights snapshot: one entry per layer that owns parameter blobs, in layer order. */
  function WeightsSnapshot(layers: seq<Layer>): seq<WeightsEntry>
    requires ParamsValid(layers)
  {
    if layers == [] then []
    else (if layers[0].params == [] then [] else [EntryOf(layers[0])]) + WeightsSnapshot(layers[1..])
  }

  /**
   * The count of the first pass: layers with parameter blobs whose name
   * differs from that of the last such layer counted (initially "").
   */
  function RunCount(layers: seq<Layer>, prev: string): nat
  {
    if layers == [] then 0
    else if layers[0].params == [] then RunCount(layers[1..], prev)
    else (if layers[0].name != prev then 1 else 0) + RunCount(layers[1..], layers[0].name)
  }

  /**
   * No layer with parameters has the name of the layer with parameters before
   * it (or "", for the first).  The second pass writes into an unallocated
   * cell array when this fails.
   */
  predicate DistinctRuns(layers: seq<Layer>, prev: string)
  {
    layers == [] ||
    if layers[0].params == [] then DistinctRuns(layers[1..], prev)
    else layers[0].name != prev && DistinctRuns(layers[1..], layers[0].name)
  }

  /** The first pass never counts more entries than there are layers with parameters. */
  lemma {:induction false} RunCountAtMost(layers: seq<Layer>, prev: string)
    requires ParamsValid(layers)
    ensures RunCount(layers, prev) <= |WeightsSnapshot(layers)|
  {
    if layers != [] {
      assert ParamsValid(layers[1..]);
      RunCountAtMost(layers[1..], if layers[0].params == [] then prev else layers[0].name);
    }
  }

  /** With distinct runs the first pass counts exactly the layers with parameters. */
  lemma {:induction false} RunCountDistinct(layers: seq<Layer>, prev: string)
    requires ParamsValid(layers) && DistinctRuns(layers, prev)
    ensures RunCount(layers, prev) == |WeightsSnapshot(layers)|
  {
    if layers != [] {
      assert ParamsValid(layers[1..]);
      RunCountDistinct(layers[1..], if layers[0].params == [] then prev else layers[0].name);
    }
  }

  /** The snapshot of a concatenation is the concatenation of the snapshots: entries come in layer order. */
  lemma {:induction false} WeightsSnapshotAppend(a: seq<Layer>, b: seq<Layer>)
    requires ParamsValid(a) && ParamsValid(b)
    ensures ParamsValid(a + b)
    ensures WeightsSnapshot(a + b) == WeightsSnapshot(a) + WeightsSnapshot(b)
  {
    ParamsValidAppend(a, b);
    if a == [] {
      assert a + b == b;
    } else {
      assert (a + b)[0] == a[0];
      assert (a + b)[1..] == a[1..] + b;
      assert ParamsValid(a[1..]);
      WeightsSnapshotAppend(a[1..], b);
    }
  }

  lemma ParamsValidAppend(a: seq<Layer>, b: seq<Layer>)
    requires ParamsValid(a) && ParamsValid(b)
    ensures ParamsValid(a + b)
  {
    forall i | 0 <= i < |a + b| ensures AllValid((a + b)[i].params) {
      if i >= |a| { assert (a + b)[i] == b[i - |a|]; }
    }
  }

  /** A layer without parameter blobs adds no entry, and one with parameters adds exactly its own. */
  lemma WeightsSnapshotOfLayer(l: Layer)
    requires AllValid(l.params)
    ensures ParamsValid([l])
    ensures WeightsSnapshot([l]) == if l.params == [] then [] else [EntryOf(l)]
  {
    assert [l][1..] == [];
  }

  lemma WeightsSnapshotStep(layers: seq<Layer>, i: nat)
    requires i < |layers| && ParamsValid(layers[i..])
    ensures ParamsValid(layers[i + 1..]) && AllValid(layers[i].params)
    ensures WeightsSnapshot(layers[i..])
         == (if layers[i].params == [] then [] else [EntryOf(layers[i])]) + WeightsSnapshot(layers[i + 1..])
  {
    assert layers[i..][0] == layers[i] && layers[i..][1..] == layers[i + 1..];
    assert ParamsValid(layers[i..][1..]);
  }

  lemma DistinctRunsStep(layers: seq<Layer>, i: nat, prev: string)
    requires i < |layers| && DistinctRuns(layers[i..], prev)
    ensures layers[i].params != [] ==> layers[i].name != prev && DistinctRuns(layers[i + 1..], layers[i].name)
    ensures layers[i].params == [] ==> DistinctRuns(layers[i + 1..], prev)
  {
    assert layers[i..][0] == layers[i] && layers[i..][1..] == layers[i + 1..];
  }

  /** Pass 1 of do_get_weights. */
  method CountWeightEntries(layers: seq<Layer>) returns (n: nat)
    ensures n == RunCount(layers, "")
  {
    n := 0;
    var prev := "";
    var i := 0;
    while i < |layers|
      invariant 0 <= i <= |layers|
      invariant n + RunCount(layers[i..], prev) == RunCount(layers, "")
    {
      assert layers[i..][0] == layers[i] && layers[i..][1..] == layers[i + 1..];
      if layers[i].params != [] {
        if layers[i].name != prev {
          prev := layers[i].name;
          n := n + 1;
        }
      }
      i := i + 1;
    }
    assert layers[i..] == [];
  }

  /** do_get_weights: count the entries, allocate that many, then fill them in layer order. */
  method GetWeights(layers: seq<Layer>) returns (entries: seq<WeightsEntry>)
    requires ParamsValid(layers) && DistinctRuns(layers, "")
    ensures entries == WeightsSnapshot(layers)
    ensures |entries| == RunCount(layers, "")
  {
    var n := CountWeightEntries(layers);
    RunCountDistinct(layers, "");
    var out := new WeightsEntry[n](_ => WeightsEntry([], ""));  // the structure array of pass 2
    ghost var written: seq<WeightsEntry> := [];
    var prev := "";
    var index := 0;
    var i := 0;
    while i < |layers|
      invariant 0 <= i <= |layers| && out.Length == n == |WeightsSnapshot(layers)| && index == |written| <= n
      invariant out[..index] == written
      invariant Filled(layers, i, prev, written)
    {
      var l := layers[i];
      FillStep(layers, i, prev, written);
      if l.params != [] {
        if l.name != prev {
          prev := l.name;
          var weights := MarshalBlobs(l.params, Data);
          out[index] := WeightsEntry(weights, l.name);
          written := written + [EntryOf(l)];
          assert out[..index + 1] == written;
          index := index + 1;
        }
      }
      i := i + 1;
    }
    assert layers[i..] == [];
    assert out[..] == written;
    entries := out[..];
  }

  /**
   * Pass 2 has visited the layers before `i`, the last named `prev`: `written`
   * holds their entries, and the rest of the snapshot comes from the layers after them.
   */
  predicate Filled(layers: seq<Layer>, i: nat, prev: string, written: seq<WeightsEntry>)
    requires ParamsValid(layers) && i <= |layers|
  {
    && ParamsValid(layers[i..]) && DistinctRuns(layers[i..], prev)
    && written + WeightsSnapshot(layers[i..]) == WeightsSnapshot(layers)
  }

  /** Pass 2 on the specification side: what visiting layer `i` adds to the entries so far. */
  lemma FillStep(layers: seq<Layer>, i: nat, prev: string, written: seq<WeightsEntry>)
    requires ParamsValid(layers) && i < |layers| && Filled(layers, i, prev, written)
    ensures AllValid(layers[i].params)
    ensures layers[i].params != [] ==>
      && layers[i].name != prev && |written| < |WeightsSnapshot(layers)|
      && Filled(layers, i + 1, layers[i].name, written + [EntryOf(layers[i])])
    ensures layers[i].params == [] ==> Filled(layers, i + 1, prev, written)
  {
    WeightsSnapshotStep(layers, i);
    DistinctRunsStep(layers, i, prev);
    var rest := WeightsSnapshot(layers[i + 1..]);
    if layers[i].params != [] {
      assert (written + [EntryOf(layers[i])]) + rest == written + ([EntryOf(layers[i])] + rest);
    } else {
      assert [] + rest == rest;
    }
  }

  /** do_get_blobs: one entry per blob name, entry i holding blob i's diff and data and the i-th name. */
  method GetBlobs(names: seq<string>, blobs: seq<Blob>) returns (entries: seq<BlobEntry>)
    requires |blobs| >= |names| && AllValid(blobs)
    ensures |entries| == |names|
    ensures forall i | 0 <= i < |names| :: entries[i] == BlobEntry(ToHost(blobs[i], Diff), ToHost(blobs[i], Data), names[i])
  {
    entries := [];
    var i := 0;
    while i < |names|
      invariant 0 <= i <= |names| && |entries| == i
      invariant forall j | 0 <= j < i :: entries[j] == BlobEntry(ToHost(blobs[j], Diff), ToHost(blobs[j], Data), names[j])
    {
      var data := ToHost(blobs[i], Data);
      var diff := ToHost(blobs[i], Diff);
      entries := entries + [BlobEntry(diff, data, names[i])];
      i := i + 1;
    }
  }
}
