# DynamicResources: frame scheduling and bindless filter setup in Dafny

DynamicResources is a Direct3D 12 sample built on the XUSG library. It loads a DDS image, runs one compute pass over it, copies the result into the swap chain's back buffer and presents it. The compute pass reads its source texture, its result texture and its sampler through descriptor-heap indices ("bindless"). Those indices are passed to the shader in a small record uploaded to a GPU buffer.

This project models the parts of the sample that hold logic of their own:

- **The frame scheduler** of `DynamicResources` (module `Sample`, class `Sample.DynamicResources`). It keeps one fence value per swap-chain slot (`FRAME_COUNT` = 3) and a current slot index. It signals a fence marker at the end of every frame and waits for the device before a slot's allocator is reused.
  - The fence is the class `GpuFence.Fence`. It has a completed value that only grows and a ghost history of the values signalled.
  - A ghost `stamped` sequence records, per slot, the marker `MoveToNextFrame` signalled after the last frame recorded with that slot's allocator. The setup commands are not in `stamped`. `LoadPipeline` creates the command list with the allocator of the slot current before line 136 sets `m_frameIndex` (lines 107-108), and `BindlessFilter::Init` records into it (line 114). `LoadAssets` then closes and executes it (lines 151-152). That work is covered by `Drained()`, which holds after `LoadAssets` waits for the device.
  - The invariant `Valid()` states three things. The current slot holds the next marker. Every other slot holds a value no larger than the last value signalled, so waiting for it returns. The device has finished the current slot's last frame.
- **Command-line parsing** (`ParseCommandLineArgs`). `_wcsnicmp` is modelled as `WideString.NICompare`. Because the count passed is the argument's own length, an argument is the image flag exactly when it is, ignoring ASCII case, a prefix of `-image` or `/image`.
- **The hot keys** (`OnKeyUp`). Space toggles the pause, F1 toggles the frame-rate display and Escape quits.
- **The commands recorded for one frame** (`PopulateCommandList`), around the filter's own pass, and the resource states those barriers request.
- **`BindlessFilter`** (module `Filter`).
  - `Init` runs a fixed order of fallible steps and stops at the first that fails. `createDescriptorTables` stops at the first index equal to the `UINT32_MAX` sentinel.
  - The high part of the index buffer's address is taken by clearing its low 32 bits.
  - `Process` records the compute pass, with a dispatch grid of 8 x 8 groups rounded up.
- **The `ResourceIndices` record** of `BindlessFilter.h` (module `ResourceIndexLayout`): three 32-bit words, 12 bytes, little-endian, with defaults 0, 1 and 0.

Calls into DXGI, Direct3D 12, Win32 and XUSG are not modelled as code. Those that can fail or return a value the core inspects become inputs:

- `Filter.External` says how each library call in `Init` turns out.
- The barrier counts are what the state trackers report.
- `observed` is the fence value the device has reached when `GetCompletedValue` reads it.
- `backBufferIndex` is the swap chain's current back buffer.

The command list and the vector of upload buffers are modelled as the sequences of what is appended to them (module `Commands`).

The constructor of `DynamicResources` does not initialise `m_fenceValues` or `m_isPaused`, and the object lives on the stack of `WinMain` (`Main.cpp:20`). Their starting values are therefore parameters of the model's constructor. `LoadAssets` requires, in `Fresh()`, that no other slot starts above the current one. Without that, a later `MoveToNextFrame` could wait at lines 307-310 for a value that is never signalled. `Fresh()` also requires the current slot to start below 2^63 (`FENCE_VALUE_HEADROOM`), and every slot is then below it too.

## Model

| member | source | states |
|---|---|---|
| Types.TruncateToUint32 | DynamicResources/Content/BindlessFilter.cpp:44 | the cast keeps the value when it fits in 32 bits and otherwise differs from it by a multiple of 2^32 |
| ResourceIndexLayout.Serialize | DynamicResources/Content/BindlessFilter.h:32-37 | the record occupies exactly 12 bytes, which sizes the index buffer and the upload |
| ResourceIndexLayout.WordRoundTrip | DynamicResources/Content/BindlessFilter.h:32-37 | reading back the four little-endian bytes of a 32-bit field gives the field |
| ResourceIndexLayout.BytesRoundTrip | DynamicResources/Content/BindlessFilter.h:32-37 | any four bytes of a buffer are the little-endian encoding of the word read from them |
| ResourceIndexLayout.SerializeFieldOrder | DynamicResources/Content/BindlessFilter.h:32-37 | word i of the record's bytes is the i-th declared field: TexIn, then TexOut, then SmpLinear |
| ResourceIndexLayout.DecodeSerialize | DynamicResources/Content/BindlessFilter.h:32-37 | decoding the uploaded bytes returns the same three field values |
| ResourceIndexLayout.SerializeDecode | DynamicResources/Content/BindlessFilter.h:32-37 | every 12-byte buffer decodes, and is the encoding of the record it decodes to |
| ResourceIndexLayout.SerializeInjective | DynamicResources/Content/BindlessFilter.h:32-37 | two records have the same bytes if and only if they are equal |
| ResourceIndexLayout.Defaults | DynamicResources/Content/BindlessFilter.h:34-36 | the default TexOut is the index right after the default TexIn, so the two differ (the values themselves are stated by DefaultsLayout) |
| ResourceIndexLayout.DefaultsLayout | DynamicResources/Content/BindlessFilter.h:34-36 | the defaults are TexIn = 0, TexOut = TexIn + 1 = 1 and SmpLinear = 0, laid out as the bytes 0 0 0 0 1 0 0 0 0 0 0 0 |
| ResourceIndexLayout.DefaultsFitFixedTables | DynamicResources/Content/BindlessFilter.h:34-36 | the default TexIn and TexOut are distinct and below 2, and SmpLinear is below 1 (the two-descriptor and one-sampler tables of the disabled branch) |
| ResourceIndexLayout.PipelineIndexInRange | DynamicResources/Content/BindlessFilter.h:25-30 | NUM_PIPELINE is 1 and IMAGE_PROC indexes the pipeline and layout arrays in range |
| WideString.NICompare | DynamicResources/DynamicResources.cpp:234-235 | a nonzero result means some position below the count holds two characters that differ after folding; a zero result means the strings agree, after folding, at every position below the count up to the first terminator of the first string |
| WideString.NICompareZeroIff | DynamicResources/DynamicResources.cpp:234-235 | _wcsnicmp over the first n characters of a string (n at most its length) is 0 exactly when those characters are a case-insensitive prefix of the other string |
| WideString.IsImageFlag | DynamicResources/DynamicResources.cpp:234-235 | a C-string argument passes the test exactly when it is, ignoring case, a prefix of "-image" or of "/image" |
| WideString.ImageFlagMatches | DynamicResources/DynamicResources.cpp:234-235 | the empty argument, "-im", "-IMAGE" and "/Image" are taken for the flag |
| WideString.ImageFlagMismatches | DynamicResources/DynamicResources.cpp:234-235 | "-images", "image" and "-imx" are not taken for the flag |
| GpuFence.Fence.constructor | DynamicResources/DynamicResources.cpp:159 | the fence starts completed at its initial value, with nothing signalled |
| GpuFence.Fence.Signal | DynamicResources/DynamicResources.cpp:286 | a signal appends its value to the history; it must exceed every earlier one |
| GpuFence.Fence.GetCompletedValue | DynamicResources/DynamicResources.cpp:307 | the value read lies between the last value read and the last value signalled |
| GpuFence.Fence.WaitFor | DynamicResources/DynamicResources.cpp:289-290 | the wait returns with the completed value at least the target, never lower than before, and signals nothing |
| Filter.DivUp | DynamicResources/Content/BindlessFilter.cpp:77 | q groups of n cover x and q - 1 groups do not |
| Filter.AddressHi | DynamicResources/Content/BindlessFilter.cpp:55 | the high part has its low 32 bits clear, adding the low 32 bits of the address gives the address back, and it is at most the address |
| Filter.AddressWords | DynamicResources/Content/BindlessFilter.cpp:73-74 | the address is passed as two 32-bit constants whose recombination (low + high * 2^32) is the address; the low word completes the high part |
| Filter.OkIffAllSucceed | DynamicResources/Content/BindlessFilter.cpp:24-62 | a sequence of fallible steps reports success if and only if every step in its order succeeds |
| Filter.RunIsDetermined | DynamicResources/Content/BindlessFilter.cpp:24-62 | the steps attempted and the result are determined by the outcomes of the calls |
| Filter.Abandon | DynamicResources/Content/BindlessFilter.cpp:57-59 | when every step before a block succeeded and the block fails, the whole order stops there and fails, having attempted the earlier steps and the block's run |
| Filter.Continue | DynamicResources/Content/BindlessFilter.cpp:57-59 | when every step before a block succeeded and the block succeeds, every step through the block succeeded |
| Filter.Finish | DynamicResources/Content/BindlessFilter.cpp:59-61 | when every step before the last block succeeded, the whole order's run and result are the earlier steps followed by the last block's run, and the last block's result |
| Filter.BindlessFilter.constructor | DynamicResources/Content/BindlessFilter.cpp:14-18 | the image size starts at 1 x 1, with nothing created or uploaded |
| Filter.BindlessFilter.GetImageSize | DynamicResources/Content/BindlessFilter.cpp:80-84 | returns exactly the stored width and height |
| Filter.BindlessFilter.LoadSource | DynamicResources/Content/BindlessFilter.cpp:33-45 | one staging buffer is appended before the load; the size is taken from the texture (width cast to 32 bits) only when the load succeeds |
| Filter.BindlessFilter.CreateResources | DynamicResources/Content/BindlessFilter.cpp:47-55 | the result texture, then the 12-byte index buffer, stopping at the first failure; on success the high part of the buffer's address is stored |
| Filter.BindlessFilter.CreatePipelineLayouts | DynamicResources/Content/BindlessFilter.cpp:91-105 | the layout obtained is stored, and the step fails exactly when it is null |
| Filter.BindlessFilter.CreatePipelines | DynamicResources/Content/BindlessFilter.cpp:107-122 | the shader is created first; the pipeline is requested only if that succeeds, and the step fails when either fails |
| Filter.BindlessFilter.CreateDescriptorTables | DynamicResources/Content/BindlessFilter.cpp:124-176 | indices are requested in the order TexIn, TexOut, SmpLinear, stopping at the first UINT32_MAX; one uploader is appended and the record's bytes uploaded exactly when all three are valid, and the result is the upload's |
| Filter.BindlessFilter.Init | DynamicResources/Content/BindlessFilter.cpp:24-62 | one uploader is appended before the load; the steps run in the order load, result texture, index buffer, layout, shader, pipeline, three indices, upload, stopping with false at the first failure; true only if all succeed, and then the filter is ready to process, holding the index buffer's address and its high part, the layout and the pipeline obtained |
| Filter.BindlessFilter.ProcessCommands | DynamicResources/Content/BindlessFilter.cpp:64-78 | the pass: the result moved to unordered access, a non-null layout and pipeline, the buffer address as two root constants and its high part as the root view, and ceil(w/8) x ceil(h/8) x 1 groups covering the image |
| Filter.BindlessFilter.Process | DynamicResources/Content/BindlessFilter.cpp:64-78 | appends exactly those commands to the command list |
| Sample.AfterKeyUp | DynamicResources/DynamicResources.cpp:212-226 | the pause flag changes exactly on Space and the frame-rate flag exactly on F1 |
| Sample.KeyUpTwiceRestores | DynamicResources/DynamicResources.cpp:212-226 | releasing the same key twice restores both flags |
| Sample.OtherKeysChangeNothing | DynamicResources/DynamicResources.cpp:212-226 | any key other than Space and F1 changes neither flag |
| Sample.FrameCommands | DynamicResources/DynamicResources.cpp:242-280 | a frame starts with the allocator and list reset for its slot and the two descriptor pools, then holds the filter's commands, and ends with the copy into the back buffer, its present barrier and Close |
| Sample.FrameResourceStates | DynamicResources/DynamicResources.cpp:264-277 | the last state requested for the result before the dispatch is unordered access; the last states requested before the copy are copy destination for the back buffer and copy source for the result; the last state requested for the back buffer at the end of the frame is present |
| Sample.DynamicResources.constructor | DynamicResources/DynamicResources.cpp:17-22 | slot 0, the frame rate shown, the default file name, no fence; the fence values and the pause flag are given |
| Sample.DynamicResources.TakeBackBufferIndex | DynamicResources/DynamicResources.cpp:136 | the current slot becomes the swap chain's back buffer |
| Sample.DynamicResources.LoadAssets | DynamicResources/DynamicResources.cpp:155-170 | the fence is created with the current slot's value, which is then post-incremented; after the wait the device has reached every value signalled and the scheduler invariant holds |
| Sample.DynamicResources.WaitForGpu | DynamicResources/DynamicResources.cpp:283-294 | signals the current slot's value (one above the last marker), returns once the device has reached it, then increments that slot alone by one |
| Sample.DynamicResources.MoveToNextFrame | DynamicResources/DynamicResources.cpp:297-315 | signals the old slot's value V, one above the last marker, and moves to the new slot. It waits exactly when the completed value read is below the new slot's stored value, and returns with the device past it and past that slot's last frame. The new slot gets V + 1 and no other entry changes |
| Sample.DynamicResources.OnDestroy | DynamicResources/DynamicResources.cpp:202-209 | after one more wait the device has reached every value ever signalled, the current slot's value is signalled and advanced by one and no other slot changes; the event is closed |
| Sample.DynamicResources.OnKeyUp | DynamicResources/DynamicResources.cpp:212-226 | the flags change as AfterKeyUp says, and quitting is requested exactly on Escape |
| Sample.DynamicResources.ParseCommandLineArgs | DynamicResources/DynamicResources.cpp:228-240 | for arguments that are C strings, the file name becomes the argument after the last image flag at a position from 1 on that has one after it; without such a flag it is unchanged |
| Sample.DynamicResources.PopulateCommandList | DynamicResources/DynamicResources.cpp:242-280 | the slot's allocator is reset only after the device has finished its last frame; the commands appended are those of FrameCommands |
| Sample.DynamicResources.OnRender | DynamicResources/DynamicResources.cpp:188-200 | records the frame for the current slot, then moves to the next frame, keeping the scheduler invariant: the marker signalled is the old slot's value, one above the last marker, the new slot's value becomes that marker plus one and no other slot changes |

## Left out

- Device, adapter, command queue, allocator, swap-chain, render-target and window creation in `LoadPipeline` (lines 48-145, apart from line 136), and the debug console in the constructor and destructor: foreign DXGI, Direct3D 12 and Win32 calls with no logic of their own. `OnInit` (lines 40-45) only calls `LoadPipeline` and then `LoadAssets`.
- Closing and executing the command list in `LoadAssets` (lines 151-152), executing and presenting in `OnRender` (lines 194-197), and the event creation failure path (line 164): queue and OS calls. Failures reported through `ThrowIfFailed` end the program and are not modelled.
- The operating-system wait and the device's concurrent progress. The fence is an abstract counter: a wait returns with the completed value raised to its target, and progress between waits appears only as the value `GetCompletedValue` reads.
- `OnUpdate` and `CalculateFrameStats`: floating-point timing with static locals and title formatting.
- DDS loading, result-texture and buffer creation, pipeline-layout, shader and pipeline creation, and `Upload`. These are calls into XUSG that are not part of this model. Their outcomes are the inputs in `Filter.External`.
- Descriptor index allocation (`GetCbvSrvUavTableIndex`, `GetSamplerTableIndex`) and the state trackers behind `SetBarrier`. Only their results are modelled: an index that may be `UINT32_MAX`, and a barrier count that fits the array it is written into.
- `BindlessFilter::GetResult` (lines 86-89): a getter; the result texture is the target `FilterResult`.
- The compile-time alternative in `createDescriptorTables` (lines 146-171) is disabled. It is used only to state `DefaultsFitFixedTables`.
- `DXFramework::ParseCommandLineArgs`, the base-class call at line 230, is not part of this model.
- `Main.cpp` holds only the entry point and SDK export constants.
- Locale-dependent case folding: `_wcsnicmp` is modelled with ASCII folding of `A`-`Z`.
- Sample.DynamicResources.MoveToNextFrame: fence values are unbounded integers, so the 64-bit wrap-around of `m_fenceValues` is not modelled. Because `Fresh()` bounds every starting value below 2^63, a wrap needs at least 2^63 markers to be signalled. Starting values at or above 2^63, which the uninitialised array could hold, are excluded by `Fresh()` rather than modelled.
- Filter.DivUp: `XUSG_DIV_UP` is taken as ceiling division on unbounded integers. Its definition is not part of this model, and a 32-bit overflow of `x + n - 1` for widths near 2^32 is not modelled.
- Filter.AddressHi: the mask with `~uint64_t(UINT32_MAX)` is written as division and multiplication by 2^32, which clears the same low 32 bits.
- GpuFence.Fence.Signal: signalling a value no larger than an earlier one is excluded by its precondition; the scheduler's invariant shows it never happens.
