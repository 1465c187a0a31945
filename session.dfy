/**
 * The bridge's process-wide state and its command handlers: the network
 * handle `net_`, the key `init_key`, and the engine's mode, phase and device,
 * which the handlers read and update in place.
 */
module Sessions {
  import opened Wrappers
  import opened Errors
  import opened Tensors
  import opened Nets
  import opened Gradients
  import opened Snapshots
  import opened Engines
  import opened Steps
  import opened Dispatch

  /** The key while no network is loaded. */
  const Sentinel: int := -2

  /** The largest value random() returns. */
  const RandMax: int := 0x7fffffff

  datatype Mode = Cpu | Gpu

  datatype Phase = Train | Test

  /** read_mean: the mean blob stored in a file, as a single array; it neither needs nor touches the network. */
  function LoadMean(args: seq<Arg>, e: Engine): (r: Result<Reply, Error>)
    requires EngineHonest(e)
    requires |args| == 1 ==> args[0].Text?
    ensures |args| != 1 ==> r == Failure(WrongArgumentCount)
    ensures |args| == 1 ==> (r == Failure(MeanFileUnreadable) <==> e.readMean(args[0].text).None?)
    ensures |args| == 1 && e.readMean(args[0].text).Some? ==>
      var b := e.readMean(args[0].text).value;
      r.Success? && r.value.Array? && r.value.host.Valid() && r.value.host.dims == b.Shape() && r.value.host.elems == b.data
  {
    if |args| != 1 then Failure(WrongArgumentCount)
    else
      match e.readMean(args[0].text)
      case None => Failure(MeanFileUnreadable)
      case Some(b) => Success(Array(ToHost(b, Data)))
  }

  class Session {
    var net: Option<Net>
    var initKey: int
    var mode: Mode
    var phase: Phase
    var device: int

    /** No network goes with the sentinel key; a loaded network goes with a key random() can return. */
    predicate Valid()
      reads this
    {
      match net
      case None => initKey == Sentinel
      case Some(n) => n.Valid() && 0 <= initKey <= RandMax
    }

    /** The state when the library is first loaded: no network, the sentinel key. */
    constructor(mode0: Mode, phase0: Phase, device0: int)
      ensures Valid() && net == None && initKey == Sentinel
      ensures mode == mode0 && phase == phase0 && device == device0
    {
      net := None;
      initKey := Sentinel;
      mode := mode0;
      phase := phase0;
      device := device0;
    }

    /** is_initialized: 1 exactly when a network is loaded, else 0. */
    function IsInitialized(): (r: Reply)
      reads this
      ensures r.Scalar? && (r.value == 1 <==> net.Some?) && (r.value == 0 <==> net.None?)
    {
      if net.None? then Scalar(0) else Scalar(1)
    }

    /** get_init_key: the current key, which is the sentinel exactly when no network is loaded. */
    function GetInitKey(): (r: Reply)
      requires Valid()
      reads this
      ensures r.Scalar? && (r.value == Sentinel <==> net.None?)
      ensures net.Some? ==> 0 <= r.value <= RandMax
    {
      Scalar(initKey)
    }

    /** init: two file names or an error; loading replaces any network and draws a new key. */
    method Init(nlhs: int, args: seq<Arg>, e: Engine, randomValue: int) returns (r: Result<Reply, Error>)
      requires Valid() && EngineHonest(e) && 0 <= randomValue <= RandMax
      requires |args| == 2 ==> args[0].Text? && args[1].Text?
      modifies this
      ensures Valid() && mode == old(mode) && phase == old(phase) && device == old(device)
      ensures |args| != 2 ==> r == Failure(WrongArgumentCount) && net == old(net) && initKey == old(initKey)
      ensures |args| == 2 ==>
        && net == Some(e.load(args[0].text, args[1].text))
        && initKey == randomValue && initKey != Sentinel
        && r == Success(if nlhs == 1 then Scalar(randomValue) else NoReply)
    {
      if |args| != 2 {
        return Failure(WrongArgumentCount);
      }
      net := Some(e.load(args[0].text, args[1].text));
      initKey := randomValue;
      if nlhs == 1 {
        r := Success(Scalar(initKey));
      } else {
        r := Success(NoReply);
      }
    }

    /** reset: drops a loaded network and restores the sentinel key; without a network it does nothing. */
    method Reset() returns (r: Result<Reply, Error>)
      requires Valid()
      modifies this
      ensures Valid() && r == Success(NoReply)
      ensures mode == old(mode) && phase == old(phase) && device == old(device)
      ensures old(net).Some? ==> net == None && initKey == Sentinel
      ensures old(net).None? ==> net == old(net) && initKey == old(initKey)
    {
      if net.Some? {
        net := None;
        initKey := Sentinel;
      }
      r := Success(NoReply);
    }

    /** set_mode_cpu, set_mode_gpu. */
    method SetMode(m: Mode) returns (r: Result<Reply, Error>)
      modifies this
      ensures r == Success(NoReply) && mode == m
      ensures net == old(net) && initKey == old(initKey) && phase == old(phase) && device == old(device)
    {
      mode := m;
      r := Success(NoReply);
    }

    /** set_phase_train, set_phase_test. */
    method SetPhase(p: Phase) returns (r: Result<Reply, Error>)
      modifies this
      ensures r == Success(NoReply) && phase == p
      ensures net == old(net) && initKey == old(initKey) && mode == old(mode) && device == old(device)
    {
      phase := p;
      r := Success(NoReply);
    }

    /** set_device: exactly one argument, whose first element is the device id. */
    method SetDevice(args: seq<Arg>) returns (r: Result<Reply, Error>)
      requires |args| == 1 ==> args[0].Numeric? && |args[0].values| >= 1
      modifies this
      ensures net == old(net) && initKey == old(initKey) && mode == old(mode) && phase == old(phase)
      ensures |args| != 1 ==> r == Failure(WrongArgumentCount) && device == old(device)
      ensures |args| == 1 ==> r == Success(NoReply) && device == args[0].values[0]
    {
      if |args| != 1 {
        return Failure(WrongArgumentCount);
      }
      device := args[0].values[0];
      r := Success(NoReply);
    }

    /** forward: exactly one argument; the network is dereferenced without a check. */
    method Forward(args: seq<Arg>, e: Engine) returns (r: Result<Reply, Error>)
      requires Valid() && EngineHonest(e)
      requires |args| == 1 ==> net.Some? && args[0].CellArray? && AllHostValid(args[0].cells)
      modifies this
      ensures Valid() && initKey == old(initKey) && mode == old(mode) && phase == old(phase) && device == old(device)
      ensures |args| != 1 ==> r == Failure(WrongArgumentCount) && net == old(net)
      ensures |args| == 1 ==>
        var s := ForwardStep(old(net).value, args[0].cells, e);
        r == s.reply && net == Some(s.net)
    {
      if |args| != 1 {
        return Failure(WrongArgumentCount);
      }
      var n := net.value;
      var cells := args[0].cells;
      var ld := LoadBlobs(n.inputBlobs, cells, SameCount, Data);
      var fed := n.(inputBlobs := ld.blobs);
      assert fed == FeedInputs(n, cells, SameCount).net;
      if ld.error.Some? {
        net := Some(fed);
        return Failure(ld.error.value);
      }
      var after := e.forward(fed);
      net := Some(after);
      var out := MarshalBlobs(after.outputBlobs, Data);
      r := Success(Cells(out));
    }

    /** backward: exactly one argument; the network is dereferenced without a check. */
    method Backward(args: seq<Arg>, e: Engine) returns (r: Result<Reply, Error>)
      requires Valid() && EngineHonest(e)
      requires |args| == 1 ==>
        net.Some? && args[0].CellArray? && Admissible(net.value.outputBlobs, args[0].cells, Unchecked)
      modifies this
      ensures Valid() && initKey == old(initKey) && mode == old(mode) && phase == old(phase) && device == old(device)
      ensures |args| != 1 ==> r == Failure(WrongArgumentCount) && net == old(net)
      ensures |args| == 1 ==>
        var s := BackwardStep(old(net).value, args[0].cells, e);
        r == s.reply && net == Some(s.net)
    {
      if |args| != 1 {
        return Failure(WrongArgumentCount);
      }
      var n := net.value;
      var cells := args[0].cells;
      var ld := LoadBlobs(n.outputBlobs, cells, Unchecked, Diff);
      var fed := n.(outputBlobs := ld.blobs);
      assert fed == FeedTopDiffs(n, cells).net;
      if ld.error.Some? {
        net := Some(fed);
        return Failure(ld.error.value);
      }
      var after := e.backward(fed);
      net := Some(after);
      var out := MarshalBlobs(after.inputBlobs, Diff);
      r := Success(Cells(out));
    }

    /** get_gradients: three arguments, then the loaded check, then do_get_gradients. */
    method GetGradients(args: seq<Arg>, e: Engine) returns (r: Result<Reply, Error>)
      requires Valid() && EngineHonest(e)
      requires |args| == 3 ==>
        args[0].CellArray? && AllHostValid(args[0].cells) && args[1].Text? && args[2].Numeric?
      modifies this
      ensures Valid() && initKey == old(initKey) && mode == old(mode) && phase == old(phase) && device == old(device)
      ensures |args| != 3 ==> r == Failure(WrongArgumentCount) && net == old(net)
      ensures |args| == 3 && old(net).None? ==> r == Failure(NotInitialized) && net == old(net)
      ensures |args| == 3 && old(net).Some? ==>
        var s := GradientsStep(old(net).value, args[0].cells, args[1].text, args[2].values, e);
        r == s.reply && net == Some(s.net)
    {
      if |args| != 3 {
        return Failure(WrongArgumentCount);
      }
      if net.None? {
        return Failure(NotInitialized);
      }
      var n := net.value;
      var cells := args[0].cells;
      var ids := CheckChannelIds(args[2].values);
      if ids.Failure? {
        return Failure(ids.error);
      }
      var k := |ids.value|;
      var ld := LoadBlobs(n.inputBlobs, cells, SameDims, Data);
      var fed := n.(inputBlobs := ld.blobs);
      assert fed == FeedInputs(n, cells, SameDims).net;
      if ld.error.Some? {
        net := Some(fed);
        return Failure(ld.error.value);
      }
      var batchSize := fed.batchSize;
      var o := e.gradients(fed, args[1].text, ids.value);
      assert GradientsFit(o, k, batchSize);
      net := Some(o.after);
      if o.status != 0 {
        return Failure(LayerNotFound);
      }
      var g := ConcatGradients(o.blobs, k, batchSize);
      match g
      case Success(a) => r := Success(Array(a));
      case Failure(err) => r := Failure(err);
    }

    /** get_features: two arguments, then the loaded check, then do_get_features. */
    method GetFeatures(args: seq<Arg>, e: Engine) returns (r: Result<Reply, Error>)
      requires Valid() && EngineHonest(e)
      requires |args| == 2 ==> args[0].CellArray? && AllHostValid(args[0].cells) && args[1].Text?
      modifies this
      ensures Valid() && initKey == old(initKey) && mode == old(mode) && phase == old(phase) && device == old(device)
      ensures |args| != 2 ==> r == Failure(WrongArgumentCount) && net == old(net)
      ensures |args| == 2 && old(net).None? ==> r == Failure(NotInitialized) && net == old(net)
      ensures |args| == 2 && old(net).Some? ==>
        var s := FeaturesStep(old(net).value, args[0].cells, args[1].text, e);
        r == s.reply && net == Some(s.net)
    {
      if |args| != 2 {
        return Failure(WrongArgumentCount);
      }
      if net.None? {
        return Failure(NotInitialized);
      }
      var n := net.value;
      var cells := args[0].cells;
      var ld := LoadBlobs(n.inputBlobs, cells, SameDims, Data);
      var fed := n.(inputBlobs := ld.blobs);
      assert fed == FeedInputs(n, cells, SameDims).net;
      if ld.error.Some? {
        net := Some(fed);
        return Failure(ld.error.value);
      }
      var o := e.features(fed, args[1].text);
      net := Some(o.after);
      if o.status != 0 {
        return Failure(LayerNotFound);
      }
      var out := MarshalBlobs(o.blobs, Data);
      r := Success(Cells(out));
    }

    /** get_weights: one entry per run of same-named layers with parameters; the network is dereferenced without a check. */
    method GetWeights() returns (r: Result<Reply, Error>)
      requires Valid() && net.Some? && DistinctRuns(net.value.layers, "")
      ensures r.Success? && r.value.Weights?
      ensures r.value.weights == WeightsSnapshot(net.value.layers)
      ensures |r.value.weights| == RunCount(net.value.layers, "")
    {
      var entries := Snapshots.GetWeights(net.value.layers);
      r := Success(Weights(entries));
    }

    /** get_blobs: one entry per blob name; the network is dereferenced without a check. */
    method GetBlobs() returns (r: Result<Reply, Error>)
      requires Valid() && net.Some?
      ensures r.Success? && r.value.BlobSnapshot?
      ensures |r.value.blobEntries| == |net.value.blobNames|
      ensures forall i | 0 <= i < |net.value.blobNames| ::
        r.value.blobEntries[i]
          == BlobEntry(ToHost(net.value.blobs[i], Diff), ToHost(net.value.blobs[i], Data), net.value.blobNames[i])
    {
      var entries := Snapshots.GetBlobs(net.value.blobNames, net.value.blobs);
      r := Success(BlobSnapshot(entries));
    }

    /**
     * What running the handler for `call` needs: the kinds of the arguments it
     * reads, and a loaded network where the handler dereferences it unchecked.
     */
    predicate Ready(call: Call)
      reads this
    {
      var a := call.args;
      match call.command
      case Forward => |a| == 1 ==> net.Some? && a[0].CellArray? && AllHostValid(a[0].cells)
      case Backward =>
        |a| == 1 ==> net.Some? && a[0].CellArray? && Admissible(net.value.outputBlobs, a[0].cells, Unchecked)
      case GetGradients => |a| == 3 ==> a[0].CellArray? && AllHostValid(a[0].cells) && a[1].Text? && a[2].Numeric?
      case GetFeatures => |a| == 2 ==> a[0].CellArray? && AllHostValid(a[0].cells) && a[1].Text?
      case Init => |a| == 2 ==> a[0].Text? && a[1].Text?
      case SetDevice => |a| == 1 ==> a[0].Numeric? && |a[0].values| >= 1
      case ReadMean => |a| == 1 ==> a[0].Text?
      case GetWeights => net.Some? && DistinctRuns(net.value.layers, "")
      case GetBlobs => net.Some?
      case _ => true
    }

    /**
     * What the handler for `call` replies and how it leaves the fields it
     * writes, against the state before it ran: a wrong argument count is
     * refused, and otherwise each handler answers as its own step says.
     */
    /** The mode, phase and device are as they were. */
    twostate predicate KeepsSettings()
      reads this
    {
      mode == old(mode) && phase == old(phase) && device == old(device)
    }

    /** The network handle and the key are as they were. */
    twostate predicate KeepsSession()
      reads this
    {
      net == old(net) && initKey == old(initKey)
    }

    twostate predicate Ran(nlhs: int, call: Call, e: Engine, randomValue: int, new r: Result<Reply, Error>)
      requires old(Valid()) && EngineHonest(e) && old(Ready(call))
      reads this
    {
      var a := call.args;
      if Arity(call.command).Some? && |a| != Arity(call.command).value then
        r == Failure(WrongArgumentCount) && KeepsSession() && KeepsSettings()
      else
        match call.command
        case Forward =>
          var s := ForwardStep(old(net).value, a[0].cells, e);
          r == s.reply && net == Some(s.net) && initKey == old(initKey) && KeepsSettings()
        case Backward =>
          var s := BackwardStep(old(net).value, a[0].cells, e);
          r == s.reply && net == Some(s.net) && initKey == old(initKey) && KeepsSettings()
        case GetGradients =>
          && initKey == old(initKey) && KeepsSettings()
          && if old(net).None? then r == Failure(NotInitialized) && net == old(net)
             else
               var s := GradientsStep(old(net).value, a[0].cells, a[1].text, a[2].values, e);
               r == s.reply && net == Some(s.net)
        case GetFeatures =>
          && initKey == old(initKey) && KeepsSettings()
          && if old(net).None? then r == Failure(NotInitialized) && net == old(net)
             else
               var s := FeaturesStep(old(net).value, a[0].cells, a[1].text, e);
               r == s.reply && net == Some(s.net)
        case Init =>
          && net == Some(e.load(a[0].text, a[1].text)) && initKey == randomValue && KeepsSettings()
          && r == Success(if nlhs == 1 then Scalar(randomValue) else NoReply)
        case IsInitialized =>
          r == Success(Scalar(if old(net).Some? then 1 else 0)) && KeepsSession() && KeepsSettings()
        case SetModeCpu =>
          r == Success(NoReply) && KeepsSession() && mode == Cpu && phase == old(phase) && device == old(device)
        case SetModeGpu =>
          r == Success(NoReply) && KeepsSession() && mode == Gpu && phase == old(phase) && device == old(device)
        case SetPhaseTrain =>
          r == Success(NoReply) && KeepsSession() && phase == Train && mode == old(mode) && device == old(device)
        case SetPhaseTest =>
          r == Success(NoReply) && KeepsSession() && phase == Test && mode == old(mode) && device == old(device)
        case SetDevice =>
          r == Success(NoReply) && KeepsSession() && device == a[0].values[0] && mode == old(mode) && phase == old(phase)
        case GetWeights =>
          r == Success(Weights(WeightsSnapshot(old(net).value.layers))) && KeepsSession() && KeepsSettings()
        case GetBlobs =>
          var n := old(net).value;
          && r.Success? && r.value.BlobSnapshot? && |r.value.blobEntries| == |n.blobNames|
          && (forall i | 0 <= i < |n.blobNames| ::
               r.value.blobEntries[i] == BlobEntry(ToHost(n.blobs[i], Diff), ToHost(n.blobs[i], Data), n.blobNames[i]))
          && KeepsSession() && KeepsSettings()
        case GetInitKey => r == Success(Scalar(old(initKey))) && KeepsSession() && KeepsSettings()
        case Reset =>
          && r == Success(NoReply) && net.None? && initKey == Sentinel && KeepsSettings()
        case ReadMean => r == LoadMean(a, e) && KeepsSession() && KeepsSettings()
    }

    /** Runs the handler registered for `call.command` on the stripped arguments. */
    method Execute(nlhs: int, call: Call, e: Engine, randomValue: int) returns (r: Result<Reply, Error>)
      requires Valid() && EngineHonest(e) && 0 <= randomValue <= RandMax && Ready(call)
      modifies this
      ensures Valid() && Ran(nlhs, call, e, randomValue, r)
      ensures Arity(call.command).Some? && |call.args| != Arity(call.command).value ==>
        && r == Failure(WrongArgumentCount)
        && net == old(net) && initKey == old(initKey) && mode == old(mode) && phase == old(phase) && device == old(device)
      ensures call.command !in {Command.SetModeCpu, Command.SetModeGpu} ==> mode == old(mode)
      ensures call.command !in {Command.SetPhaseTrain, Command.SetPhaseTest} ==> phase == old(phase)
      ensures call.command != Command.SetDevice ==> device == old(device)
      ensures call.command !in {Command.Init, Command.Reset} ==> initKey == old(initKey)
      ensures call.command == Command.Reset ==> net.None? && initKey == Sentinel
      ensures call.command == Command.Init && |call.args| == 2 ==> net.Some? && initKey == randomValue
      ensures call.command != Command.Reset && old(net).Some? ==> net.Some?
      ensures call.command in {Command.IsInitialized, Command.GetInitKey, Command.GetWeights, Command.GetBlobs, Command.ReadMean,
                               Command.SetModeCpu, Command.SetModeGpu, Command.SetPhaseTrain, Command.SetPhaseTest,
                               Command.SetDevice} ==>
        net == old(net)
    {
      match call.command
      case Forward => r := Forward(call.args, e);
      case Backward => r := Backward(call.args, e);
      case GetGradients => r := GetGradients(call.args, e);
      case GetFeatures => r := GetFeatures(call.args, e);
      case Init => r := Init(nlhs, call.args, e, randomValue);
      case IsInitialized => r := Success(IsInitialized());
      case SetModeCpu => r := SetMode(Cpu);
      case SetModeGpu => r := SetMode(Gpu);
      case SetPhaseTrain => r := SetPhase(Train);
      case SetPhaseTest => r := SetPhase(Test);
      case SetDevice => r := SetDevice(call.args);
      case GetWeights => r := GetWeights();
      case GetBlobs => r := GetBlobs();
      case GetInitKey => r := Success(GetInitKey());
      case Reset => r := Reset();
      case ReadMean => r := LoadMean(call.args, e);
    }

    /** mexFunction: dispatch on the first argument, then run that handler on the others. */
    method Handle(nlhs: int, args: seq<Arg>, e: Engine, randomValue: int) returns (r: Result<Reply, Error>)
      requires Valid() && EngineHonest(e) && 0 <= randomValue <= RandMax
      requires |args| > 0 ==> args[0].Text? && forall c: Command :: RegisteredAs(args[0].text, c) ==> Ready(Call(c, args[1..]))
      modifies this
      ensures Valid()
      ensures |args| == 0 ==> r == Failure(NoCommand)
      ensures |args| > 0 && Unregistered(args[0].text) ==> r == Failure(UnknownCommand)
      ensures |args| > 0 && args[0].text == "END" ==> r == Failure(UnknownCommand)
      ensures |args| == 0 || Unregistered(args[0].text) ==>
        net == old(net) && initKey == old(initKey) && mode == old(mode) && phase == old(phase) && device == old(device)
      ensures |args| > 0 ==> forall c: Command :: RegisteredAs(args[0].text, c) && Arity(c).Some? && |args| - 1 != Arity(c).value ==>
        r == Failure(WrongArgumentCount) && net == old(net) && initKey == old(initKey)
      ensures |args| > 0 ==> forall c: Command :: RegisteredAs(args[0].text, c) ==>
        Ran(nlhs, Call(c, args[1..]), e, randomValue, r)
    {
      var d := Resolve(args);
      if d.Failure? {
        return Failure(d.error);
      }
      EndIsUnregistered();
      r := Execute(nlhs, d.value, e, randomValue);
      forall c: Command | RegisteredAs(args[0].text, c)
        ensures c == d.value.command && Call(c, args[1..]) == d.value
      {
        RegistrationUnique(args[0].text, c, d.value.command);
      }
    }
  }
}
