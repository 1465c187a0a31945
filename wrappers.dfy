/** Failure-carrying wrappers used throughout the model. */
module Wrappers {
  datatype Option<+T> = None | Some(value: T)

  datatype Result<+T, +E> = Success(value: T) | Failure(error: E)
}

/** Every error the MATLAB bridge raises, one constructor per distinct check. */
module Errors {
  datatype Error =
    | NoCommand               // mexFunction called with no arguments at all
    | UnknownCommand          // no handler registered under the command name
    | WrongArgumentCount      // a handler's own argument-count check failed
    | NotInitialized          // get_gradients / get_features before a network is loaded
    | NegativeChannelId       // a selected channel id below zero
    | EmptyChannelList        // no channel selected
    | InputCountMismatch      // cell count differs from the number of blobs to fill
    | InputSizeMismatch       // forward: a cell's element count differs from its blob's count
    | DimMismatch(axis: nat)  // get_gradients / get_features: dimension `axis` (0..3) differs
    | LayerNotFound           // the engine reported a non-zero status
    | GradientCountMismatch   // the copied-element total is not spatial size times channel count
    | MeanFileUnreadable      // read_mean could not read the file
}
