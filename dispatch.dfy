/**
 * The command table of mexFunction and its scan: the first entry whose name
 * equals the command wins, the scan stops at the entry without a handler, and
 * the chosen handler receives the arguments after the command name.
 */
module Dispatch {
  import opened Wrappers
  import opened Errors
  import opened Tensors

  /** A MATLAB argument, as far as the handlers read it. */
  datatype Arg =
    | Text(text: string)                  // a char array
    | CellArray(cells: seq<HostArray>)    // a cell array of single arrays
    | Numeric(values: seq<int>)           // a numeric array, read in column order

  datatype Command =
    | Forward | Backward | GetGradients | GetFeatures | Init | IsInitialized
    | SetModeCpu | SetModeGpu | SetPhaseTrain | SetPhaseTest | SetDevice
    | GetWeights | GetBlobs | GetInitKey | Reset | ReadMean

  /** An entry of the handler registry: a command name and its handler, absent in the terminating entry. */
  datatype Registration = Registration(cmd: string, func: Option<Command>)

  const Handlers: seq<Registration> := [
    Registration("forward", Some(Forward)),
    Registration("backward", Some(Backward)),
    Registration("get_gradients", Some(GetGradients)),
    Registration("get_features", Some(GetFeatures)),
    Registration("init", Some(Init)),
    Registration("is_initialized", Some(IsInitialized)),
    Registration("set_mode_cpu", Some(SetModeCpu)),
    Registration("set_mode_gpu", Some(SetModeGpu)),
    Registration("set_phase_train", Some(SetPhaseTrain)),
    Registration("set_phase_test", Some(SetPhaseTest)),
    Registration("set_device", Some(SetDevice)),
    Registration("get_weights", Some(GetWeights)),
    Registration("get_blobs", Some(GetBlobs)),
    Registration("get_init_key", Some(GetInitKey)),
    Registration("reset", Some(Reset)),
    Registration("read_mean", Some(ReadMean)),
    Registration("END", None)
  ]

  /** The index of the terminating entry, the first one without a handler. */
  const SentinelIndex: nat := 16

  /** The scan can see exactly the entries before the sentinel. */
  lemma SentinelIsFirstWithoutHandler()
    ensures SentinelIndex < |Handlers| && Handlers[SentinelIndex].func == None
    ensures forall i | 0 <= i < SentinelIndex :: Handlers[i].func.Some?
  {
  }

  /** Entry `i` is the first entry before the sentinel that carries `name`. */
  predicate FirstMatch(name: string, i: nat)
  {
    && i < SentinelIndex
    && Handlers[i].cmd == name
    && forall j | 0 <= j < i :: Handlers[j].cmd != name
  }

  /** The scan dispatches `name` to `c`. */
  predicate RegisteredAs(name: string, c: Command)
  {
    exists i | 0 <= i < SentinelIndex :: FirstMatch(name, i) && Handlers[i].func == Some(c)
  }

  predicate Unregistered(name: string)
  {
    forall i | 0 <= i < SentinelIndex :: Handlers[i].cmd != name
  }

  /** At most one handler runs for a name: the first match is unique. */
  lemma RegistrationUnique(name: string, c1: Command, c2: Command)
    requires RegisteredAs(name, c1) && RegisteredAs(name, c2)
    ensures c1 == c2
  {
    var i :| 0 <= i < SentinelIndex && FirstMatch(name, i) && Handlers[i].func == Some(c1);
    var j :| 0 <= j < SentinelIndex && FirstMatch(name, j) && Handlers[j].func == Some(c2);
    assert i == j;
  }

  /** The names before the sentinel are pairwise distinct, so every entry is the first match for its own name. */
  lemma EveryEntryReachable(i: nat)
    requires i < SentinelIndex
    ensures FirstMatch(Handlers[i].cmd, i)
    ensures RegisteredAs(Handlers[i].cmd, Handlers[i].func.value)
  {
    SentinelIsFirstWithoutHandler();
    assert FirstMatch(Handlers[i].cmd, i);
  }

  /** The scan stops before the terminating entry, so its name is not a command. */
  lemma EndIsUnregistered()
    ensures Unregistered("END")
  {
  }

  /** The dispatch loop of mexFunction, over the registry until the entry without a handler. */
  method Lookup(name: string) returns (r: Option<Command>)
    ensures r.None? <==> Unregistered(name)
    ensures r.Some? ==> RegisteredAs(name, r.value)
  {
    SentinelIsFirstWithoutHandler();
    var dispatched := false;
    var i := 0;
    r := None;
    while Handlers[i].func.Some?
      invariant 0 <= i <= SentinelIndex
      invariant !dispatched && r == None
      invariant forall j | 0 <= j < i :: Handlers[j].cmd != name
      decreases SentinelIndex - i
    {
      if Handlers[i].cmd == name {
        r := Handlers[i].func;
        dispatched := true;
        assert FirstMatch(name, i);
        break;
      }
      i := i + 1;
    }
    if !dispatched {
      assert forall j | 0 <= j < SentinelIndex :: Handlers[j].cmd != name;
    }
  }

  /** A handler invocation: the command chosen and the arguments after the command name. */
  datatype Call = Call(command: Command, args: seq<Arg>)

  /** mexFunction up to the handler call: no argument at all, or an unregistered name, is an error. */
  method Resolve(args: seq<Arg>) returns (r: Result<Call, Error>)
    requires |args| > 0 ==> args[0].Text?
    ensures |args| == 0 <==> r == Failure(NoCommand)
    ensures |args| > 0 ==> (r == Failure(UnknownCommand) <==> Unregistered(args[0].text))
    ensures r.Failure? ==> r.error == NoCommand || r.error == UnknownCommand
    ensures r.Success? ==> |args| > 0 && r.value.args == args[1..] && RegisteredAs(args[0].text, r.value.command)
  {
    if |args| == 0 {
      return Failure(NoCommand);
    }
    var found := Lookup(args[0].text);
    if found.None? {
      return Failure(UnknownCommand);
    }
    return Success(Call(found.value, args[1..]));
  }

  /** The argument count a handler insists on, for the handlers that check it. */
  function Arity(c: Command): Option<nat>
  {
    match c
    case Forward => Some(1)
    case Backward => Some(1)
    case GetGradients => Some(3)
    case GetFeatures => Some(2)
    case Init => Some(2)
    case SetDevice => Some(1)
    case ReadMean => Some(1)
    case _ => None
  }
}
