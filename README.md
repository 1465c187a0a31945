# matcaffe bridge, modelled in Dafny

This project models the sequential logic of `matlab/caffe/matcaffe.cpp`, the
MEX bridge between MATLAB and a Caffe network. The bridge keeps one
process-wide network handle `net_` and a session key `init_key`. A single
entry point, `mexFunction`, scans a static command table and runs the
handler found there. The handlers cover:

- copying MATLAB cell arrays into the network's input blobs, with a check per
  blob;
- running the forward and backward passes;
- gathering per-batch gradient buffers into one output array;
- building snapshots of the weights and the intermediate blobs.

The Caffe engine is an opaque collaborator: a record of functions that load a
network and run its passes (`Engines.Engine`). Blobs are values with `width`,
`height`, `channels`, `num`, a `data` sequence and a `diff` sequence. MATLAB
arrays are shaped sequences (`Tensors.HostArray`). Element values are `int`:
the bridge only copies them.

The modules follow the shape of the program:

| file | module | what |
|---|---|---|
| `wrappers.dfy` | `Wrappers`, `Errors` | `Option`, `Result`, and one error per `mexErrMsgTxt`/`CHECK` site |
| `tensors.dfy` | `Tensors` | blobs, host arrays, the copy-out of blobs, and the checked copy-in loop shared by four handlers |
| `gradients.dfy` | `Gradients` | channel-id validation and the batched gradient concatenation loop of `do_get_gradients` |
| `snapshots.dfy` | `Nets`, `Snapshots` | the network record; both passes of `do_get_weights`; `do_get_blobs` |
| `engine.dfy` | `Engines` | the engine record and what the bridge relies on it for |
| `steps.dfy` | `Steps` | each data handler as a function from the network before the call to its reply and the network after it |
| `dispatch.dfy` | `Dispatch` | the `handlers[]` table and the scan in `mexFunction` |
| `session.dfy` | `Sessions` | `class Session` holding `net_`, `init_key`, mode, phase and device, with one method per handler |

The imperative parts keep their imperative form. The following are `method`s
with `while` loops, each proved equal to a specification function:

- the gradient loop (it writes into a fresh `array` at an advancing offset);
- the copy-in loop;
- the marshalling loops;
- both passes of `do_get_weights` (pass 2 fills an `array` of entries);
- the dispatch scan (it uses an index and a `dispatched` flag).

The handle and the key are fields of `Sessions.Session`, and its handler
methods update them.

Some behaviour of the code that the model keeps as written:

- Only `get_gradients` and `get_features` test that a network is loaded.
  `forward`, `backward`, `get_weights` and `get_blobs` never test `net_`, so
  a loaded network is a precondition there.
- Input cells are checked and copied one at a time. A rejected cell therefore
  leaves every blob before it already overwritten (`Tensors.LoadAllStops`),
  so a failing command can have changed the network.
- The key is whatever `random()` returns. It is never the sentinel -2,
  because `random()` does not return negative values.
- Some error texts do not match their checks:
  - The check on dimension 0 compares against `width` but reports "height"
    (lines 173-176).
  - The negative-id check reports "greater than zero", yet it accepts id 0.

  The model names each error after what is checked (`DimMismatch(axis)`,
  `NegativeChannelId`).

## Model

| member | source | states |
|---|---|---|
| Tensors.ToHost | matlab/caffe/matcaffe.cpp:76-95 | a blob handed to MATLAB is a well-formed array of shape (width, height, channels, num) |
| Tensors.LoadPreserves | matlab/caffe/matcaffe.cpp:58-71 | copying a cell into a blob keeps its shape and the other field, and the copied field becomes exactly the first `count` elements of the cell |
| Tensors.HostRoundTrip | matlab/caffe/matcaffe.cpp:58-95 | an array of the blob's shape copied in and handed back out comes back unchanged |
| Tensors.BlobRoundTrip | matlab/caffe/matcaffe.cpp:58-95 | handing a blob out and copying the result back in leaves the blob unchanged |
| Tensors.HostAll | matlab/caffe/matcaffe.cpp:74-95 | the output cell array has one entry per blob and entry i is blob i handed out |
| Tensors.MarshalBlobs | matlab/caffe/matcaffe.cpp:75-95 | the copy-out loop builds exactly `HostAll` |
| Tensors.InputError | matlab/caffe/matcaffe.cpp:173-180 | forward (lines 56-57) rejects a cell exactly when its element count differs from the blob's count; gradients and features reject a cell exactly when dims 0-3 differ from width, height, channels, num, and the error names the first differing axis in that order (axis j is reported exactly when axes before j agree and axis j differs); backward rejects nothing |
| Tensors.LoadFrom | matlab/caffe/matcaffe.cpp:170-195 | the copy-in from blob i on succeeds exactly when every remaining cell passes its check, and keeps blob validity |
| Tensors.LoadAll | matlab/caffe/matcaffe.cpp:168-195 | the input stage succeeds exactly when the cell count equals the blob count and every cell passes; a count mismatch changes nothing |
| Tensors.LoadFromStops | matlab/caffe/matcaffe.cpp:170-195 | from any point of the loop, the loop stops at some index with every earlier blob holding its cell and every later blob untouched |
| Tensors.LoadAllStops | matlab/caffe/matcaffe.cpp:170-195 | the input stage stops at the first rejected cell and reports its error; blobs before it are overwritten, blobs from it on are unchanged |
| Tensors.LoadAllOverwrites | matlab/caffe/matcaffe.cpp:181-194 | after a successful input stage, every blob's data is exactly the first `count` elements of its cell; its shape and diff are kept |
| Tensors.LoadBlobs | matlab/caffe/matcaffe.cpp:170-195 | the copy-in loop computes exactly `LoadAll` |
| Gradients.ChannelsLeftClosedForm | matlab/caffe/matcaffe.cpp:198-234 | `channels_left` on entry to batch i equals max(0, k - i*batch_size) |
| Gradients.ChannelsLeftMonotone | matlab/caffe/matcaffe.cpp:234 | `channels_left` never increases, and once 0 it stays 0 |
| Gradients.ExhaustedCopiesNothing | matlab/caffe/matcaffe.cpp:218-219 | with no channels left, every later batch contributes no elements |
| Gradients.ChannelsLeftShift | matlab/caffe/matcaffe.cpp:234 | running one batch and then i more equals starting i batches from the decremented count |
| Gradients.CopyCountOfBatch | matlab/caffe/matcaffe.cpp:218-219 | a buffer holding `batch_size` images contributes w*h*c*min(channels_left, batch_size) elements |
| Gradients.FullBatchCopiedWhole | matlab/caffe/matcaffe.cpp:218-219 | while at least a batch of channels remains, a full buffer is copied whole |
| Gradients.GatheredLength | matlab/caffe/matcaffe.cpp:207-235 | with buffers of uniform image size, full batches before the last, and a last buffer holding the channels left, exactly w*h*c*k elements are copied |
| Gradients.WellFormedSucceeds | matlab/caffe/matcaffe.cpp:207-237 | for such buffers, the total copied equals the output size, both final checks pass, and the result is a well-formed array |
| Gradients.GradientResultShape | matlab/caffe/matcaffe.cpp:213-216 | the final checks accept exactly a total of w*h*c*k of the first buffer; the result has dims (w, h, c, k) and holds the concatenated prefixes, and otherwise the error is the count mismatch |
| Gradients.CheckChannelIds | matlab/caffe/matcaffe.cpp:159-165 | ids are rejected exactly when one is negative (checked first) or the list is empty; id 0 is accepted and accepted ids are kept in order |
| Gradients.CopyInto | matlab/caffe/matcaffe.cpp:222-223 | the copy writes src at the offset and leaves the array before and after it unchanged |
| Gradients.ConcatGradients | matlab/caffe/matcaffe.cpp:207-237 | the loop leaves exactly `GradientResult`: the concatenation, in batch order, of each buffer's copied diff prefix, or the count-mismatch error |
| Snapshots.RunCountAtMost | matlab/caffe/matcaffe.cpp:383-396 | pass 1 never counts more entries than there are layers with parameter blobs |
| Snapshots.RunCountDistinct | matlab/caffe/matcaffe.cpp:383-396 | when consecutive layers with parameters have distinct names, pass 1 counts exactly the entries pass 2 creates |
| Snapshots.WeightsSnapshotAppend | matlab/caffe/matcaffe.cpp:408-425 | the weights snapshot of a concatenation of layer lists is the concatenation of their snapshots (entries in layer order) |
| Snapshots.WeightsSnapshotOfLayer | matlab/caffe/matcaffe.cpp:411-425 | a layer without parameter blobs adds no entry; a layer with parameters adds exactly its own entry |
| Snapshots.CountWeightEntries | matlab/caffe/matcaffe.cpp:383-396 | the pass-1 loop computes `RunCount` |
| Snapshots.GetWeights | matlab/caffe/matcaffe.cpp:378-455 | the structure array holds one entry per layer with parameters, in layer order, each with the layer's name and its parameter blobs' data; its length is the pass-1 count |
| Snapshots.FillStep | matlab/caffe/matcaffe.cpp:410-425 | visiting a layer in pass 2 adds its entry when it has parameters and otherwise nothing, keeping the rest of the snapshot intact |
| Snapshots.GetBlobs | matlab/caffe/matcaffe.cpp:318-376 | one entry per blob name; entry i carries blob i's diff and data and name i |
| Steps.FeedInputs | matlab/caffe/matcaffe.cpp:168-195 | only the input blobs change; the stage succeeds exactly when all cells pass, and then each input blob holds its cell |
| Steps.FeedTopDiffs | matlab/caffe/matcaffe.cpp:103-123 | backward checks only the cell count; on success each output blob's diff holds its cell and nothing else changes |
| Steps.ForwardStep | matlab/caffe/matcaffe.cpp:48-98 | forward succeeds exactly when the counts match; a cell count mismatch is the count error with nothing changed, and a per-cell size mismatch is the size error; the result has one entry per output blob, with its shape and data, taken after the pass over the copied-in inputs |
| Steps.BackwardStep | matlab/caffe/matcaffe.cpp:100-148 | backward succeeds exactly when the cell count matches; the result has one entry per input blob, with its shape and diff, taken after the pass |
| Steps.GradientsStep | matlab/caffe/matcaffe.cpp:150-247 | on a loaded network, the id checks run first and touch nothing; a rejected input leaves all but the input blobs untouched; the engine is consulted only after all checks; a non-zero status is the error; with status 0 the reply is the batch-ordered concatenation of the buffers' copied prefixes as a (w, h, c, k) array when it fills that array exactly, and the count mismatch otherwise |
| Steps.CollectGradients | matlab/caffe/matcaffe.cpp:197-237 | after the engine call, a non-zero status is exactly the layer error; with status 0 the reply succeeds exactly when the concatenated prefixes number w*h*c*k of the first buffer, is then that (w, h, c, k) array holding them, and is otherwise the count mismatch |
| Steps.GradientsSucceed | matlab/caffe/matcaffe.cpp:197-237 | with valid inputs, status 0 and well-formed batch buffers, get_gradients returns the (w, h, c, k) array of concatenated gradients holding w*h*c*k elements |
| Steps.FeaturesStep | matlab/caffe/matcaffe.cpp:250-316 | features fail on a rejected input (a dimension mismatch) before the engine runs, or with the layer error on a non-zero status; on success, one entry per returned blob with its shape and data |
| Dispatch.SentinelIsFirstWithoutHandler | matlab/caffe/matcaffe.cpp:606-626 | the `END` entry is the first and only entry without a handler, so the scan visits exactly the 16 commands |
| Dispatch.RegistrationUnique | matlab/caffe/matcaffe.cpp:643-648 | at most one handler runs for a command name |
| Dispatch.EveryEntryReachable | matlab/caffe/matcaffe.cpp:606-626 | the 16 names are distinct, so every registered handler is reached by its own name |
| Dispatch.EndIsUnregistered | matlab/caffe/matcaffe.cpp:625 | the name `END` does not dispatch |
| Dispatch.Lookup | matlab/caffe/matcaffe.cpp:641-649 | the scan finds nothing exactly when no entry before the sentinel has the name; otherwise it returns the first matching entry's handler |
| Dispatch.Resolve | matlab/caffe/matcaffe.cpp:632-653 | no arguments fails with the missing-command error; an unknown name fails with the unknown-command error; otherwise the first matching handler gets the arguments without the command name |
| Sessions.LoadMean | matlab/caffe/matcaffe.cpp:573-596 | read_mean needs one argument; an unreadable file is the error; otherwise the mean blob comes back with its shape and data |
| Sessions.Session.constructor | matlab/caffe/matcaffe.cpp:19-20 | initially no network is loaded and the key is the sentinel -2 |
| Sessions.Session.IsInitialized | matlab/caffe/matcaffe.cpp:565-571 | returns 1 if and only if a network is loaded, else 0 |
| Sessions.Session.GetInitKey | matlab/caffe/matcaffe.cpp:493-495 | returns the key, which is -2 exactly when no network is loaded |
| Sessions.Session.Init | matlab/caffe/matcaffe.cpp:497-517 | any argument count but 2 fails with nothing changed; otherwise it loads the network from both files and sets a new non-sentinel key, returned only when one output was requested |
| Sessions.Session.Reset | matlab/caffe/matcaffe.cpp:519-525 | when loaded, it drops the network and restores the key -2; when not loaded, nothing changes |
| Sessions.Session.SetMode | matlab/caffe/matcaffe.cpp:467-473 | sets the mode and nothing else |
| Sessions.Session.SetPhase | matlab/caffe/matcaffe.cpp:475-481 | sets the phase and nothing else |
| Sessions.Session.SetDevice | matlab/caffe/matcaffe.cpp:483-491 | any argument count but 1 fails; otherwise it sets the device id and nothing else |
| Sessions.Session.Forward | matlab/caffe/matcaffe.cpp:527-534 | any argument count but 1 fails with nothing changed; otherwise the reply and the new network are those of `ForwardStep` |
| Sessions.Session.Backward | matlab/caffe/matcaffe.cpp:536-543 | any argument count but 1 fails with nothing changed; otherwise the reply and new network are those of `BackwardStep` |
| Sessions.Session.GetGradients | matlab/caffe/matcaffe.cpp:545-554 | any argument count but 3 fails; then an unloaded network fails, both with nothing changed; otherwise the result is that of `GradientsStep` |
| Sessions.Session.GetFeatures | matlab/caffe/matcaffe.cpp:556-563 | any argument count but 2 fails; then an unloaded network fails, both with nothing changed; otherwise the result is that of `FeaturesStep` |
| Sessions.Session.GetWeights | matlab/caffe/matcaffe.cpp:463-465 | returns the weights snapshot, whose length is the pass-1 count |
| Sessions.Session.GetBlobs | matlab/caffe/matcaffe.cpp:458-460 | returns one entry per blob name, entry i holding blob i |
| Sessions.Session.Execute | matlab/caffe/matcaffe.cpp:645 | a handler given the wrong argument count (init 2; forward, backward, set_device, read_mean 1; get_gradients 3; get_features 2) fails with nothing changed; otherwise each command gives its own handler's reply and new state, and keeps every field it does not write (`Ran`: the data handlers' steps, init's load and key, the mode, phase and device setters, the snapshots, the key, reset, read_mean); also states which commands may change mode, phase, device, key and handle |
| Sessions.Session.Handle | matlab/caffe/matcaffe.cpp:632-656 | no command or an unknown command, `END` included, fails without touching state; a registered command runs its handler on the arguments after the name and returns exactly that handler's reply and state (`Ran`), with every field that handler does not write unchanged; a dispatched handler with the wrong argument count fails with the handle and the key unchanged |

## Left out

- The Caffe engine itself is not modelled. This covers network construction
  with `CopyTrainedLayersFrom`, `ForwardPrefilled`, `Backward`,
  `CalcGradientsPrefilled`, `GetFeaturesPrefilled` and `ReadProtoFromBinaryFile`.
  These are the functions of `Engines.Engine`. The bridge relies only on the
  engine returning well-formed networks and blobs, and on gradient buffers
  that fit the output array (`Engines.EngineHonest`). What the passes compute
  is not modelled.
- MEX allocation and conversion (`mxCreate*`, `mxGetPr`, `mxArrayToString`,
  `mxFree`) are not modelled. Arguments are `Dispatch.Arg` values. A handler
  that reads an argument as a string, a cell array or a number requires it to
  be one (`Sessions.Session.Ready`); the source does not check this.
- `mexFunction`'s command argument must be a string (`Dispatch.Resolve`,
  `Sessions.Session.Handle`). For any other array `mxArrayToString` returns
  NULL, which the table scan then compares against (lines 640, 644); that is
  undefined behaviour.
- The CPU/GPU distinction is only the `mode` field. Both branches perform the
  same copy, so the copies ignore it. The `LOG(FATAL)` default branch cannot
  occur with a two-valued mode.
- Floating point is not modelled. Elements are `int`. Channel ids are taken
  as integers, so the `(int)(x + 0.5)` rounding (line 162) and a negative
  fraction that would round to 0 are out of scope. So is the `mxIsSingle`
  check (lines 54-55), and the `static_cast<int>` of the device id
  (line 489).
- `random()` (line 512) is the parameter `randomValue`. It is any value in
  [0, 2^31 - 1].
- Logging and the manual `delete` of the temporary gradient buffers
  (lines 240-245) are not modelled. Neither is the warning text of
  `read_mean`.
- `CHECK` failures (lines 50, 56, 103, 236-237) abort the process. The model
  returns them as errors with the network as it stood, as for
  `mexErrMsgTxt`.
- 32-bit overflow is not modelled. `count`, `num_to_copy`, `data_copied` and
  the product w*h*c*k are unbounded integers.
- Aliasing is not modelled. `input_blobs()` and `output_blobs()` point into
  the network's blob list, but the model keeps `inputBlobs`, `outputBlobs`
  and `blobs` as separate sequences. A copy into an input blob is not seen
  through `get_blobs`.
- MATLAB array shapes are simplified. Every host array is 4-D, so dims
  beyond the stored ones (`mxGetDimensions(elem)[3]` on a 3-D array) are
  never read. The cell count is the number of cells; the source reads
  `mxGetDimensions(bottom)[0]`, which differs for row-shaped cell arrays.
- The engine's network changes during get_gradients and get_features are not
  specified. The network after the call is whatever the engine returns.
- Sessions.Session.Forward, Sessions.Session.Backward, Sessions.Session.GetWeights, Sessions.Session.GetBlobs: a loaded network is a precondition, because the source dereferences `net_` without checking it.
- Sessions.Session.Backward: cells with fewer than `count` elements are excluded by precondition. The source reads `count` elements from each cell without checking.
- Snapshots.GetWeights: two cases are excluded by precondition. In both, pass 1 does not count the layer and pass 2 writes into a NULL cell array (lines 416-435). The cases are:
  - consecutive layers with parameters and the same name;
  - a first layer with parameters whose name is the empty string.
- Gradients.ConcatGradients: an engine that returns no buffer is excluded by precondition. So is a total copy larger than the output array. The source reads an uninitialised `mx_out` or writes past the array in those cases.
