# ProcessLoopbackCapture: a Dafny model

ProcessLoopbackCapture records the audio of one Windows process, together with its child processes, through WASAPI's process-loopback activation. This project models its sequential core.

- **`CaptureTypes`** holds the two enumerations of `ProcessLoopbackCapture.h` and the error-code to text mapping `LoopbackCaptureConst::GetErrorText`:
  - `eCaptureState`: READY, CAPTURING, PAUSED;
  - `eCaptureError`: NONE through INTERFACE.
- **`WaveFormat`** holds the validation and derivation arithmetic of `SetCaptureFormat`:
  - the range checks;
  - the IEEE-float override to 32 bits;
  - `nBlockAlign` and `nAvgBytesPerSec`, with the source's `(WORD)`/`(DWORD)` casts written out.
- **`BytePipeline`** holds the byte handling of the capture threads, as functions on sequences:
  - the skip counter `m_dwMainThreadBytesToSkip` that the producer loops apply to every batch the endpoint hands out;
  - the aligned flush of the intermediate consumer;
  - what a run of its ticks delivers.
  The per-byte producer loops are methods proved against these functions.
- **`Capture`** holds the class `ProcessLoopbackCapture`: the session object with the fields the source updates in place.
  - The state-guarded setters.
  - `StartCapture`, `StopCapture`, `PauseCapture` and `ResumeCapture`. The audio endpoint's replies are HRESULT parameters.
  - `Reset`, `StartThreads` and `StopThreads`.
  - One sequential step for each thread body: `ProcessMainToCallback`, `ProcessMainToQueue` and `ProcessIntermediate`.
  - The session invariant `Valid()`: the endpoint is held exactly outside READY; no thread runs in READY; a stored format is well formed; a non-READY session has a format and a process id; the FIFO and the buffer are empty unless the intermediate threads run; a stored format has a rate and frame size within the limits.
- **`Toolhelp`** holds the process snapshot of the simple_recorder helpers as an input sequence of (executable name, pid, parent pid) entries. It specifies what the helpers compute:
  - the matching entries;
  - their pids in snapshot order;
  - the parent filter, which drops every candidate whose parent is another candidate.
  It also holds the nested filter loop `KeepTopLevel` that both headers share.
- **`ProcessInfo`** and **`ParentProcess`** hold the loops of `examples/simple_recorder/ProcessInfo.h` and `examples/simple_recorder/ParentProcess.h`, proved against those functions.
  - `ProcessInfo.h` compares names with `std::wstring::compare`.
  - `ParentProcess.h` compares names with `wcscmp`.

## Where the header and the code disagree

The code of `ProcessLoopbackCapture.cpp` is followed in each case:

- The header declares `SetIntermediateThreadEnabled`, `GetQueueSize`, `m_AudioData` and the macro `PROCESS_LOOPBACK_CAPTURE_USE_QUEUE`. The code defines `SetIntermediateBufferEnabled`, `GetIntermediateBuffer`, `m_vecIntermediateBuffer` and `PROCESS_LOOPBACK_CAPTURE_QUEUE_AVAILABLE`. The model uses the code's names and behaviour.
- The header says that a failed `StartCapture`, and `StopCapture`, reset "everything to initial state". The code's `Reset` only stops the threads, releases the endpoint and returns to READY. It keeps the format, the target process, the callback and the interval, and so does the model (`Capture.ProcessLoopbackCapture.Reset`).
- The compile-time queue flag is the constructor parameter `queueAvailable`. Both of its branches are modelled.

## Model

| member | source | states |
|---|---|---|
| CaptureTypes.StateValue | ProcessLoopbackCapture.h:40-45 | eCaptureState has three values in 0..2, and READY is the one with value 0 |
| CaptureTypes.ErrorValue | ProcessLoopbackCapture.h:47-66 | eCaptureError has fourteen values in 0..13, and NONE is the one with value 0 |
| CaptureTypes.ErrorOfValue | ProcessLoopbackCapture.h:47-66 | every integer in 0..13 is the value of an enumerator, namely the one returned |
| CaptureTypes.ErrorValueRoundTrip | ProcessLoopbackCapture.h:47-66 | enumerator to value to enumerator is the identity, so the values are distinct |
| CaptureTypes.ErrorText | ProcessLoopbackCapture.h:70-92 | GetErrorText is total, and it gives "Unknown" exactly for values outside the enumeration |
| CaptureTypes.Message | ProcessLoopbackCapture.h:74-88 | each enumerator's message is non-empty and is not the fallback "Unknown" |
| CaptureTypes.ErrorTextOfEnumerator | ProcessLoopbackCapture.h:72-89 | each enumerator, through its integer value, gets its own message |
| CaptureTypes.ErrorTextDistinct | ProcessLoopbackCapture.h:74-88 | two different enumerator values get different texts |
| CaptureTypes.MessagesDistinct | ProcessLoopbackCapture.h:74-88 | the fourteen messages are pairwise distinct |
| CaptureTypes.CarriesHResult | ProcessLoopbackCapture.h:57-65 | the errors with an associated HRESULT are exactly DEVICE through INTERFACE |
| WaveFormat.StreamBitDepth | ProcessLoopbackCapture.cpp:137-138 | the caller's bit depth is kept unless the tag is IEEE float (then 32); an accepted bit depth stays a positive whole number of bytes |
| WaveFormat.MakeCaptureFormat | ProcessLoopbackCapture.cpp:128-147 | PARAM exactly when the rate, the bit depth (checked before the float override), the channel count or the tag is out of range; otherwise a format |
| WaveFormat.AcceptedFormat | ProcessLoopbackCapture.cpp:137-147 | an accepted format is well formed: blockAlign = channels × bits / 8 > 0, avgBytesPerSec = rate × blockAlign, tag/rate/channels as given, float forced to 32 bits; its rate and frame lie within the limits |
| WaveFormat.ByteRateFits | ProcessLoopbackCapture.cpp:147 | under valid limits, the byte rate of a format within them fits a DWORD |
| WaveFormat.DerivationExact | ProcessLoopbackCapture.cpp:142-147 | under valid limits no WORD or DWORD cast of an accepted format loses bits, and the frame is between 1 byte and the largest frame |
| WaveFormat.FloatIsThirtyTwoBit | ProcessLoopbackCapture.h:104-106 | whatever bit depth is passed, an accepted IEEE-float format has 32 bits per sample, 4 bytes per channel per frame, and 4 × channels × rate bytes per second |
| BytePipeline.Discard | ProcessLoopbackCapture.cpp:540-550 | the counter falls by exactly the number of bytes dropped; it never rises; it is zero whenever a byte is kept |
| BytePipeline.DiscardKeepsTail | ProcessLoopbackCapture.cpp:540-550 | the kept bytes are the batch's tail in order: only a prefix is dropped |
| BytePipeline.DiscardConcat | ProcessLoopbackCapture.cpp:536-553 | skipping two batches one after the other equals skipping their concatenation, so the batch boundaries do not matter |
| BytePipeline.SkipBytes | ProcessLoopbackCapture.cpp:540-550 | the per-byte loop (decrement while non-zero, else append) computes Discard |
| BytePipeline.SkipBatches | ProcessLoopbackCapture.cpp:536-553 | the GetBuffer loop over all batches of a wake-up computes Discard of their concatenation |
| BytePipeline.SkipByteCount | ProcessLoopbackCapture.cpp:440 | the skip in bytes is frames × nBlockAlign as a DWORD, and exactly that product when it fits |
| BytePipeline.DefaultResumeSkipFrames | ProcessLoopbackCapture.h:146-147 | the default 0.1 s skip is the whole number of frames f with 10f <= rate < 10(f+1) |
| BytePipeline.DirectDeliveryAligned | ProcessLoopbackCapture.cpp:536-565 | when the skip and every batch are whole frames, the bytes that survive the skip are whole frames and so is the count left over |
| BytePipeline.TenthSecondSkip | ProcessLoopbackCapture.cpp:440 | when rate × nBlockAlign fits a DWORD, the default skip is (rate / 10) × nBlockAlign bytes: no wrap-around, whole frames, a tenth of the byte rate rounded down by less than one frame |
| BytePipeline.SkipWrapMisaligns | ProcessLoopbackCapture.cpp:440 | the DWORD product can wrap to a count that is not whole frames: 715827883 frames of 6 bytes arm a skip of 2 bytes |
| BytePipeline.AlignedSize | ProcessLoopbackCapture.cpp:643 | size / nBlockAlign × nBlockAlign is a multiple of nBlockAlign, at most size, and less than one frame short of it |
| BytePipeline.Flush | ProcessLoopbackCapture.cpp:643-655 | delivered ++ retained = buffer, the delivered prefix is whole frames, and the retained rest is shorter than a frame |
| BytePipeline.FlushEmptyOut | ProcessLoopbackCapture.cpp:645 | nothing is delivered exactly when the buffer holds less than one frame |
| BytePipeline.IntermediateRounds | ProcessLoopbackCapture.cpp:629-658 | a run of intermediate ticks calls the callback at most once per tick |
| BytePipeline.IntermediateRoundsLossless | ProcessLoopbackCapture.cpp:629-658 | over any run of intermediate ticks, the deliveries followed by the final remainder are the initial buffer followed by all arrivals: nothing is lost, duplicated or reordered |
| BytePipeline.IntermediateRoundsAligned | ProcessLoopbackCapture.cpp:629-658 | every buffered delivery is a non-empty whole number of frames, and after a tick less than a frame remains |
| Capture.StartOutcome | ProcessLoopbackCapture.cpp:256-320 | StartCapture's endpoint phase succeeds exactly when every endpoint call succeeds and the event exists; every failure is an HRESULT-carrying error, DEVICE when activation is refused |
| Capture.StartHResult | ProcessLoopbackCapture.cpp:256-320 | the HRESULT left in m_hrLastError is S_OK after success, and the failing call's error code after every failure except an event that was not created while SetEventHandle returned S_OK |
| Capture.ProcessLoopbackCapture.constructor | ProcessLoopbackCapture.cpp:82-110 | a new session is READY and valid, with HRESULT S_OK, no format, pid 0, intermediate buffer on, no callback, a 100 ms interval, no threads and no skip |
| Capture.ProcessLoopbackCapture.SetCaptureFormat | ProcessLoopbackCapture.cpp:123-152 | outside READY: STATE and nothing changes; invalid arguments: PARAM and nothing changes; otherwise the derived format is stored, marked initialised, and nothing else changes |
| Capture.ProcessLoopbackCapture.CopyCaptureFormat | ProcessLoopbackCapture.cpp:154-162 | false with the destination untouched until a format was set; afterwards true with exactly the stored, well-formed format |
| Capture.ProcessLoopbackCapture.SetTargetProcess | ProcessLoopbackCapture.cpp:164-176 | outside READY: STATE, unchanged; pid 0: PARAM, unchanged; otherwise only the pid and the inclusive flag change |
| Capture.ProcessLoopbackCapture.SetCallback | ProcessLoopbackCapture.cpp:178-187 | outside READY: STATE, unchanged; otherwise only the callback and its user data change |
| Capture.ProcessLoopbackCapture.SetCallbackInterval | ProcessLoopbackCapture.cpp:189-200 | outside READY: STATE, unchanged; otherwise only the interval changes, to max(interval, 1) |
| Capture.ProcessLoopbackCapture.SetIntermediateBufferEnabled | ProcessLoopbackCapture.cpp:202-214 | without queue support: NOT_AVAILABLE before the state check; outside READY: STATE; otherwise only the flag changes |
| Capture.ProcessLoopbackCapture.StartCapture | ProcessLoopbackCapture.cpp:221-327 | STATE, FORMAT, PROCESSID in that order and with nothing changed; an endpoint failure leaves READY with only the HRESULT recorded; success is CAPTURING with the endpoint held, threads started and a skip of 0 |
| Capture.ProcessLoopbackCapture.ConnectEndpoint | ProcessLoopbackCapture.cpp:256-320 | each endpoint call's HRESULT is recorded; the first failure goes through Reset back to a valid READY session with only the HRESULT changed |
| Capture.ProcessLoopbackCapture.StopCapture | ProcessLoopbackCapture.cpp:329-337 | from READY: STATE, unchanged; otherwise READY, with the endpoint released, the threads stopped, the FIFO and buffer emptied, and the settings kept |
| Capture.ProcessLoopbackCapture.PauseCapture | ProcessLoopbackCapture.cpp:339-354 | only from CAPTURING; PAUSED is set before the stop, so a failed stop is STOP in PAUSED with the threads still running; a successful one discards all queued bytes |
| Capture.ProcessLoopbackCapture.ResumeCapture | ProcessLoopbackCapture.cpp:356-372 | only from PAUSED; CAPTURING is set before the start, a failed start is START; on success the threads restart with the requested skip unless a failed pause left them running |
| Capture.ProcessLoopbackCapture.GetIntermediateBuffer | ProcessLoopbackCapture.cpp:389-397 | STATE in READY; otherwise the intermediate buffer's contents |
| Capture.ProcessLoopbackCapture.Reset | ProcessLoopbackCapture.cpp:401-430 | from any consistent state: a valid READY session with the endpoint released and the threads stopped; settings and the recorded HRESULT are kept |
| Capture.ProcessLoopbackCapture.StartThreads | ProcessLoopbackCapture.cpp:432-472 | no-op when the threads run; otherwise they start with frames × nBlockAlign bytes to skip |
| Capture.ProcessLoopbackCapture.StopThreads | ProcessLoopbackCapture.cpp:474-511 | no-op when no thread runs; otherwise the FIFO and the buffer are emptied and nothing else changes |
| Capture.ProcessLoopbackCapture.MainToCallbackTick | ProcessLoopbackCapture.cpp:536-565 | one wake-up in direct mode, over batches of whole frames: the counter becomes Discard's remainder, and the surviving bytes, when non-empty and a callback is set, are handed over whole; the buffer stays empty; from a whole-frame counter, every range handed over is whole frames and the counter stays whole frames |
| Capture.ProcessLoopbackCapture.MainToQueueTick | ProcessLoopbackCapture.cpp:600-617 | one wake-up of the producer in intermediate mode, over batches of whole frames: the surviving bytes are appended to the FIFO in order and the counter becomes Discard's remainder; from a whole-frame counter, whole frames are enqueued |
| Capture.DefaultResumeSkip | ProcessLoopbackCapture.h:146-147 | for any valid session with a format, the 0.1 s default of ResumeCapture arms (rate / 10) × nBlockAlign bytes: no wrap-around, whole frames, a tenth of the byte rate rounded down by less than one frame |
| Capture.ProcessLoopbackCapture.IntermediateTick | ProcessLoopbackCapture.cpp:636-655 | one tick of the consumer: the FIFO is drained into the buffer, Flush's aligned prefix is delivered when non-empty, and exactly that prefix is erased |
| Toolhelp.Enumeration | examples/simple_recorder/ProcessInfo.h:27 | on a failed (INVALID_HANDLE_VALUE) snapshot, Process32FirstW fails and no entry is visited |
| Toolhelp.CString | examples/simple_recorder/ProcessInfo.h:31 | szExeFile as a C string: a prefix of the array without NUL, ended by the first NUL |
| Toolhelp.NameMatches | examples/simple_recorder/ProcessInfo.h:31 | under std::wstring::compare a name holding a NUL never matches, because szExeFile ends at its first NUL |
| Toolhelp.OpenedAsWritten | examples/simple_recorder/ProcessInfo.h:22 | the `!handle` test as written lets INVALID_HANDLE_VALUE, the failure value of CreateToolhelp32Snapshot, through |
| Toolhelp.Opened | examples/simple_recorder/ProcessInfo.h:22 | the corrected handle test differs from the test as written only in rejecting INVALID_HANDLE_VALUE |
| Toolhelp.ComparisonsAgree | examples/simple_recorder/ParentProcess.h:27 | for a name without an embedded NUL, wcscmp and std::wstring::compare match the same entries |
| Toolhelp.EmbeddedNulDiffers | examples/simple_recorder/ParentProcess.h:27 | a name with an embedded NUL ("a\0b") matches "a" under wcscmp but not under std::wstring::compare |
| Toolhelp.Matching | examples/simple_recorder/ProcessInfo.h:27-37 | the matching entries are no more than the snapshot |
| Toolhelp.MatchingMembers | examples/simple_recorder/ProcessInfo.h:31-34 | an entry is a candidate exactly when the snapshot holds it and its name matches |
| Toolhelp.MatchingMultiplicity | examples/simple_recorder/ProcessInfo.h:27-37 | every matching entry is kept as often as the snapshot holds it, every other entry is dropped |
| Toolhelp.MatchingSubsequence | examples/simple_recorder/ProcessInfo.h:56-65 | the matching entries keep snapshot order |
| Toolhelp.Pids | examples/simple_recorder/ProcessInfo.h:60-62 | the id list has one id per entry, position by position |
| Toolhelp.Roots | examples/simple_recorder/ProcessInfo.h:113-127 | the filter keeps at most the candidates |
| Toolhelp.RootsMembers | examples/simple_recorder/ProcessInfo.h:113-127 | a candidate is kept exactly when no candidate is a different process and its parent |
| Toolhelp.RootsSubsequence | examples/simple_recorder/ProcessInfo.h:113-127 | the kept candidates keep the candidates' order |
| Toolhelp.TopLevelMembers | examples/simple_recorder/ProcessInfo.h:113-124 | soundness and completeness of the parent filter; a candidate that names itself as parent is kept |
| Toolhelp.TopLevelSubsequence | examples/simple_recorder/ProcessInfo.h:113-127 | the parent filter's result is an order-preserving subsequence of the candidates' pids |
| Toolhelp.KeepTopLevel | examples/simple_recorder/ParentProcess.h:104-118 | the nested loop with its `goto next` produces exactly the pids of the kept candidates, in order |
| Toolhelp.CountAsWritten | examples/simple_recorder/ProcessInfo.h:20-41 | the count as written: a false result always has count 0 |
| Toolhelp.FailedSnapshotLooksEmpty | examples/simple_recorder/ProcessInfo.h:20-23 | with the `!handle` test, a failed snapshot reports success with count 0, the same as a usable snapshot with no process |
| Toolhelp.FindAsWritten | examples/simple_recorder/ProcessInfo.h:45-71 | the id list as written: false only on a NULL handle, with an empty list; otherwise the matching ids of the enumerated entries |
| Toolhelp.FindParentsAsWritten | examples/simple_recorder/ProcessInfo.h:75-130 | the parent list as written: false only on a NULL handle, with an empty list; otherwise the parent filter over the enumerated candidates |
| Toolhelp.FailedSnapshotListsNothing | examples/simple_recorder/ProcessInfo.h:49-52 | with the `!handle` test, both list helpers report success with an empty list for a failed snapshot, the same as for a usable snapshot with no process |
| ProcessInfo.CountProcesses | examples/simple_recorder/ProcessInfo.h:16-42 | the count starts at 0 and ends as the number of entries whose name equals the argument; with the corrected handle test (see Findings) a failed snapshot gives false |
| ProcessInfo.FindProcessIDs | examples/simple_recorder/ProcessInfo.h:45-71 | the list starts empty and ends with the matching pids in snapshot order; with the corrected handle test (see Findings) a failed snapshot gives false and an empty list |
| ProcessInfo.FindParentProcessIDs | examples/simple_recorder/ProcessInfo.h:75-130 | the list is the pids of the candidates no other candidate parents, an order-preserving subsequence of the candidates' pids; with the corrected handle test (see Findings) a failed snapshot gives false and an empty list |
| ParentProcess.CountAllProcesses | examples/simple_recorder/ParentProcess.h:12-38 | the count starts at 0 and ends as the number of wcscmp matches; with the corrected handle test (see Findings) a failed snapshot gives false |
| ParentProcess.FindAllProcesses | examples/simple_recorder/ParentProcess.h:41-67 | the list starts empty and ends with the wcscmp-matching pids in snapshot order; with the corrected handle test (see Findings) a failed snapshot gives false and an empty list |
| ParentProcess.FindAllParentProcesses | examples/simple_recorder/ParentProcess.h:71-121 | the list is the pids of the candidates no other candidate parents, an order-preserving subsequence of the candidates' pids; with the corrected handle test (see Findings) a failed snapshot gives false and an empty list |

## Left out

- The endpoint and COM objects are not modelled: `ActivateAudioInterfaceAsyncCallback`, `MFStartup`/`MFShutdown`, the `IAudioClient`/`IAudioCaptureClient` calls, `CreateEventW`, `ResetEvent`, `SetEvent` and `CloseHandle`. They are foreign OS calls. Their results are parameters: `EndpointReplies`, `stopResult`, `startResult`, and the batches a wake-up reads. The audio client, the capture client and the event handle are one flag, `endpointOpen`.
- Threads and synchronisation are not modelled: thread creation and join, the atomics, `WaitForSingleObject`, `Sleep` and the thread priority. Each thread body is one sequential step (`MainToCallbackTick`, `MainToQueueTick`, `IntermediateTick`), so interleavings of the producer and the consumer are not covered.
- The readerwriterqueue `m_Queue` is an unbounded FIFO sequence. Its block size and allocation are not modelled.
- GetIntermediateBuffer: the model returns the buffer's contents at the time of the call. The code instead hands out a pointer to the live `m_vecIntermediateBuffer` (ProcessLoopbackCapture.cpp:394), which the intermediate thread keeps changing. Writes through that pointer are not modelled: a caller that changes the vector would break the premise of `IntermediateTick` and `IntermediateRoundsLossless` that only the consumer touches the buffer.
- The timing diagnostics `GetMaxExecutionTime`, `ResetMaxExecutionTime` and `m_fMaxExecutionTime` are not modelled. They measure floating-point wall-clock time.
- StartThreads / ResumeCapture: the `double` duration is not modelled. This covers the clamp of negative values to 0 and the `(DWORD)(nSamplesPerSec * seconds)` conversion. The skip is passed as a whole number of frames.
- DefaultResumeSkipFrames: states that the 0.1 s default is `sampleRate / 10` frames without modelling the floating-point product. That equality holds because the double nearest 0.1 lies slightly above it.
- `GetState` and `GetLastErrorResult` are plain reads of the `state` and `lastError` fields. They have no members of their own.
- The destructor (`StopCapture` plus `MFShutdown`) is not modelled, because the model has no object lifetime.
- The callback is an integer id (0 for nullptr) with opaque user data. The `delivered` log records what it receives; what it does with that data is not modelled.
- The values of the `LoopbackCaptureConst` limits are not part of this model. They are the `Limits` parameter. `Limits.Valid()` restricts them so that no cast in `SetCaptureFormat` truncates. It also requires a minimum of at least one channel, which keeps `nBlockAlign` positive and so keeps the division in `ProcessIntermediate` (ProcessLoopbackCapture.cpp:643) defined.
- The default arguments of the header are not modelled as defaults: `iFormatTag = WAVE_FORMAT_PCM`, `bInclusive = true`, `pUserData = nullptr` and `fInitialDurationToSkip = 0.1` (ProcessLoopbackCapture.h:107, 113, 115, 147). Every parameter is passed explicitly. The 0.1 s default is `DefaultResumeSkipFrames`, and `Capture.DefaultResumeSkip` states what it arms.
- The batches a producer wake-up reads are whole frames (`iFramesAvailable * nBlockAlign` bytes, ProcessLoopbackCapture.cpp:538, 602), and the tick methods require this. Which frame counts the endpoint hands out is not modelled.
- StartThreads / SkipByteCount: the DWORD wrap of `frames * nBlockAlign` at ProcessLoopbackCapture.cpp:440 is modelled as written. It can leave a skip that is not whole frames (`BytePipeline.SkipWrapMisaligns`), after which the delivered stream starts mid-frame. The producer ticks therefore promise whole-frame output only from a whole-frame counter. `Capture.DefaultResumeSkip` shows the default 0.1 s never wraps. A skip of more than about 2^32 bytes is taken to be outside intended use, so it is not claimed as a defect.
- `size_t` counts are unbounded naturals.
- The example programs `main.cpp` and `simple_recorder.cpp` are not part of this model (console input and WAV file output). Nor are the OS-only helpers `GetProcessExecutablePath` and `GetVisibleWindowsFromProcessName`.
- `CreateToolhelp32Snapshot`, `Process32FirstW`/`Process32NextW` and `CloseHandle` are not modelled as calls. The snapshot is an input: a handle value and the entries it enumerates.

## Findings

In each row the as-written member models the `!handle` test as written. The corrected member is the helper modelled with `Toolhelp.Opened`, which rejects both NULL and INVALID_HANDLE_VALUE. A failed snapshot then gives false, with a zero count or an empty list.

| source | as written | input that shows it | evidently intended | confidence | as-written member | corrected member |
|---|---|---|---|---|---|---|
| examples/simple_recorder/ProcessInfo.h:22 | `if (!handle) return false;` only catches NULL; on failure `CreateToolhelp32Snapshot` returns INVALID_HANDLE_VALUE, Process32FirstW then fails, and CountProcesses returns true with a count of 0 | a snapshot that fails, i.e. handle INVALID_HANDLE_VALUE | report the failure: return false | high, not executed | Toolhelp.FailedSnapshotLooksEmpty | ProcessInfo.CountProcesses |
| examples/simple_recorder/ProcessInfo.h:51 | the same test in FindProcessIDs: a failed snapshot returns true with an empty list | a snapshot that fails, i.e. handle INVALID_HANDLE_VALUE | report the failure: return false | high, not executed | Toolhelp.FailedSnapshotListsNothing | ProcessInfo.FindProcessIDs |
| examples/simple_recorder/ProcessInfo.h:81 | the same test in FindParentProcessIDs: a failed snapshot returns true with an empty list | a snapshot that fails, i.e. handle INVALID_HANDLE_VALUE | report the failure: return false | high, not executed | Toolhelp.FailedSnapshotListsNothing | ProcessInfo.FindParentProcessIDs |
| examples/simple_recorder/ParentProcess.h:18 | `if (!hndl) return false;` in CountAllProcesses: a failed snapshot returns true with a count of 0 | a snapshot that fails, i.e. handle INVALID_HANDLE_VALUE | report the failure: return false | high, not executed | Toolhelp.FailedSnapshotLooksEmpty | ParentProcess.CountAllProcesses |
| examples/simple_recorder/ParentProcess.h:47 | the same test in FindAllProcesses: a failed snapshot returns true with an empty list | a snapshot that fails, i.e. handle INVALID_HANDLE_VALUE | report the failure: return false | high, not executed | Toolhelp.FailedSnapshotListsNothing | ParentProcess.FindAllProcesses |
| examples/simple_recorder/ParentProcess.h:77 | the same test in FindAllParentProcesses: a failed snapshot returns true with an empty list | a snapshot that fails, i.e. handle INVALID_HANDLE_VALUE | report the failure: return false | high, not executed | Toolhelp.FailedSnapshotListsNothing | ParentProcess.FindAllParentProcesses |
