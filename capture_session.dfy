/** The capture session of ProcessLoopbackCapture.cpp: its state machine,
    the state-guarded setters, Start/Stop/Pause/Resume with the audio
    endpoint's replies given as HRESULT parameters, and one sequential step
    for the body of each capture thread. */
module Capture {
  import opened CaptureTypes
  import opened WaveFormat
  import opened BytePipeline

  /** The HRESULTs (and the event handle) the endpoint gives the calls that
      StartCapture makes, in the order it makes them. */
  datatype EndpointReplies = EndpointReplies(
    activateCall: int,     // ActivateAudioInterfaceAsync
    activateResult: int,   // GetActivateResult once activation completed
    initialize: int,       // IAudioClient::Initialize
    getService: int,       // IAudioClient::GetService for the capture client
    eventCreated: bool,    // CreateEventW returned a handle
    setEventHandle: int,   // IAudioClient::SetEventHandle
    start: int)            // IAudioClient::Start

  /** The error StartCapture returns once its usage checks have passed: the
      first endpoint step that failed, or None when all succeeded. */
  function StartOutcome(r: EndpointReplies): (e: CaptureError)
    ensures e == None <==>
      && r.activateCall == S_OK && r.activateResult == S_OK && r.initialize == S_OK
      && r.getService == S_OK && r.eventCreated && r.setEventHandle == S_OK && r.start == S_OK
    ensures e != None ==> CarriesHResult(e)
    ensures r.activateCall != S_OK ==> e == Device
  {
    if r.activateCall != S_OK then Device
    else if r.activateResult != S_OK then Activation
    else if r.initialize != S_OK then Initialize
    else if r.getService != S_OK then Service
    else if r.setEventHandle != S_OK || !r.eventCreated then Event
    else if r.start != S_OK then Start
    else None
  }

  /** The HRESULT StartCapture leaves in `m_hrLastError`: that of the last
      endpoint call it made. It is S_OK after a successful start, and it is
      the failing call's error code for every failure except one: an event
      that was not created while SetEventHandle still returned S_OK. */
  function StartHResult(r: EndpointReplies): (h: int)
    ensures StartOutcome(r) == None ==> h == S_OK
    ensures StartOutcome(r) != None ==> h != S_OK || (StartOutcome(r) == Event && !r.eventCreated)
  {
    if r.activateCall != S_OK then r.activateCall
    else if r.activateResult != S_OK then r.activateResult
    else if r.initialize != S_OK then r.initialize
    else if r.getService != S_OK then r.getService
    else if r.setEventHandle != S_OK || !r.eventCreated then r.setEventHandle
    else r.start
  }

  /** Every field of a session, so that a contract can say which ones an
      operation changes and that all others keep their values. */
  datatype Fields = Fields(
    lastError: int,
    state: CaptureState,
    endpointOpen: bool,
    formatInitialized: bool,
    captureFormat: WaveFormatEx,
    processId: DWord,
    processInclusive: bool,
    useIntermediateBuffer: bool,
    callback: nat,
    callbackUserData: nat,
    callbackInterval: DWord,
    threadsStarted: bool,
    bytesToSkip: DWord,
    queue: seq<Byte>,
    buffer: seq<Byte>,
    delivered: seq<seq<Byte>>)

  class ProcessLoopbackCapture {
    /** The `LoopbackCaptureConst` limits SetCaptureFormat checks against. */
    const limits: Limits
    /** Whether the build has the intermediate queue
        (`PROCESS_LOOPBACK_CAPTURE_QUEUE_AVAILABLE`). */
    const queueAvailable: bool

    var lastError: int                 // m_hrLastError
    var state: CaptureState            // m_CaptureState
    /** The activated audio client, its capture client and the sample-ready
        event are held. */
    var endpointOpen: bool
    var formatInitialized: bool        // m_bCaptureFormatInitialized
    var captureFormat: WaveFormatEx    // m_CaptureFormat
    var processId: DWord               // m_dwProcessId
    var processInclusive: bool         // m_bProcessInclusive
    var useIntermediateBuffer: bool    // m_bUseIntermediateBuffer
    /** The user callback (0 stands for nullptr) and its user data. */
    var callback: nat
    var callbackUserData: nat
    var callbackInterval: DWord        // m_dwCallbackInterval, in milliseconds
    var threadsStarted: bool           // m_bThreadsStarted
    var bytesToSkip: DWord             // m_dwMainThreadBytesToSkip
    /** The single-producer single-consumer queue `m_Queue`, as a FIFO. */
    var queue: seq<Byte>
    /** `m_vecIntermediateBuffer`. */
    var buffer: seq<Byte>
    /** Every byte range handed to the callback so far, in call order. */
    var delivered: seq<seq<Byte>>

    function View(): Fields
      reads this
    {
      Fields(lastError, state, endpointOpen, formatInitialized, captureFormat, processId,
             processInclusive, useIntermediateBuffer, callback, callbackUserData,
             callbackInterval, threadsStarted, bytesToSkip, queue, buffer, delivered)
    }

    /** The threads StartThreads runs: producer to queue plus the
        intermediate consumer, or producer to callback alone. */
    predicate IntermediateMode()
      reads this
    {
      queueAvailable && useIntermediateBuffer
    }

    /** What holds between any two steps, also halfway through StartCapture. */
    ghost predicate Consistent()
      reads this
    {
      && limits.Valid()
      && (formatInitialized ==> WellFormed(captureFormat) && WithinLimits(limits, captureFormat))
      && (state != Ready ==> formatInitialized && processId != 0)
      && (!threadsStarted ==> queue == [] && buffer == [])
      && (!IntermediateMode() ==> queue == [] && buffer == [])
      && callbackInterval >= 1
    }

    /** The session invariant: the endpoint is held exactly outside Ready, and
        no thread runs in Ready. */
    ghost predicate Valid()
      reads this
    {
      && Consistent()
      && (endpointOpen <==> state != Ready)
      && (threadsStarted ==> state != Ready)
    }

    constructor (limits: Limits, queueAvailable: bool)
      requires limits.Valid()
      ensures Valid()
      ensures this.limits == limits && this.queueAvailable == queueAvailable
      ensures View() == Fields(S_OK, Ready, false, false, EmptyFormat, 0, false, true,
                               0, 0, 100, false, 0, [], [], [])
    {
      this.limits := limits;
      this.queueAvailable := queueAvailable;
      lastError := S_OK;
      state := Ready;
      endpointOpen := false;
      formatInitialized := false;
      captureFormat := EmptyFormat;
      processId := 0;
      processInclusive := false;
      useIntermediateBuffer := true;
      callback := 0;
      callbackUserData := 0;
      callbackInterval := 100;
      threadsStarted := false;
      bytesToSkip := 0;
      queue := [];
      buffer := [];
      delivered := [];
    }

    /** Outside Ready nothing is stored; invalid arguments store nothing;
        otherwise the derived format is stored and marked initialised. */
    method SetCaptureFormat(sampleRate: DWord, bitDepth: DWord, channelCount: DWord, formatTag: DWord)
      returns (err: CaptureError)
      requires Valid()
      modifies this
      ensures Valid()
      ensures old(state) != Ready ==> err == State && unchanged(this)
      ensures old(state) == Ready ==>
        var r := MakeCaptureFormat(limits, sampleRate, bitDepth, channelCount, formatTag);
        if r.Ok? then
          err == None && View() == old(View()).(formatInitialized := true, captureFormat := r.value)
        else
          err == Param && unchanged(this)
    {
      if state != Ready {
        return State;
      }
      var r := MakeCaptureFormat(limits, sampleRate, bitDepth, channelCount, formatTag);
      if r.Err? {
        return r.error;
      }
      AcceptedFormat(limits, sampleRate, bitDepth, channelCount, formatTag);
      captureFormat := r.value;
      formatInitialized := true;
      return None;
    }

    /** False until a format was set; afterwards the stored format, which is
        always well formed. The destination is left as it was on failure. */
    method CopyCaptureFormat(destination: WaveFormatEx) returns (ok: bool, format: WaveFormatEx)
      requires Valid()
      ensures ok == formatInitialized
      ensures format == if ok then captureFormat else destination
      ensures ok ==> WellFormed(format) && format.blockAlign > 0
    {
      if !formatInitialized {
        return false, destination;
      }
      return true, captureFormat;
    }

    method SetTargetProcess(pid: DWord, inclusive: bool) returns (err: CaptureError)
      requires Valid()
      modifies this
      ensures Valid()
      ensures old(state) != Ready ==> err == State && unchanged(this)
      ensures old(state) == Ready && pid == 0 ==> err == Param && unchanged(this)
      ensures old(state) == Ready && pid != 0 ==>
        err == None && View() == old(View()).(processId := pid, processInclusive := inclusive)
    {
      if state != Ready {
        return State;
      }
      if pid == 0 {
        return Param;
      }
      processId := pid;
      processInclusive := inclusive;
      return None;
    }

    method SetCallback(fn: nat, userData: nat) returns (err: CaptureError)
      requires Valid()
      modifies this
      ensures Valid()
      ensures old(state) != Ready ==> err == State && unchanged(this)
      ensures old(state) == Ready ==>
        err == None && View() == old(View()).(callback := fn, callbackUserData := userData)
    {
      if state != Ready {
        return State;
      }
      callback := fn;
      callbackUserData := userData;
      return None;
    }

    /** The interval is stored as at least one millisecond. */
    method SetCallbackInterval(interval: DWord) returns (err: CaptureError)
      requires Valid()
      modifies this
      ensures Valid()
      ensures old(state) != Ready ==> err == State && unchanged(this)
      ensures old(state) == Ready ==>
        && err == None
        && View() == old(View()).(callbackInterval := if interval < 1 then 1 else interval)
    {
      if state != Ready {
        return State;
      }
      if interval < 1 {
        callbackInterval := 1;
      } else {
        callbackInterval := interval;
      }
      return None;
    }

    /** Without queue support the call fails before the state is looked at. */
    method SetIntermediateBufferEnabled(enable: bool) returns (err: CaptureError)
      requires Valid()
      modifies this
      ensures Valid()
      ensures !queueAvailable ==> err == NotAvailable && unchanged(this)
      ensures queueAvailable && old(state) != Ready ==> err == State && unchanged(this)
      ensures queueAvailable && old(state) == Ready ==>
        err == None && View() == old(View()).(useIntermediateBuffer := enable)
    {
      if !queueAvailable {
        return NotAvailable;
      }
      if state != Ready {
        return State;
      }
      useIntermediateBuffer := enable;
      return None;
    }

    /** Usage errors in order (state, format, process id) before any endpoint
        call; an endpoint failure resets the session to Ready with only the
        HRESULT recorded; success captures with nothing to skip. */
    method StartCapture(replies: EndpointReplies) returns (err: CaptureError)
      requires Valid()
      modifies this
      ensures Valid()
      ensures old(state) != Ready ==> err == State && unchanged(this)
      ensures old(state) == Ready && !old(formatInitialized) ==> err == Format && unchanged(this)
      ensures old(state) == Ready && old(formatInitialized) && old(processId) == 0 ==>
        err == ProcessId && unchanged(this)
      ensures old(state) == Ready && old(formatInitialized) && old(processId) != 0 ==>
        && err == StartOutcome(replies)
        && (err != None ==> View() == old(View()).(lastError := StartHResult(replies)))
        && (err == None ==>
              View() == old(View()).(lastError := StartHResult(replies), state := Capturing,
                                     endpointOpen := true, threadsStarted := true, bytesToSkip := 0))
    {
      if state != Ready {
        return State;
      }
      if !formatInitialized {
        return Format;
      }
      if processId == 0 {
        return ProcessId;
      }
      err := ConnectEndpoint(replies);
      if err != None {
        return err;
      }
      StartThreads(0);
      state := Capturing;
      return None;
    }

    /** The endpoint calls of StartCapture in order, each one's HRESULT
        recorded; the first failure resets the session. On success the
        endpoint is held but the session is still Ready. */
    method ConnectEndpoint(replies: EndpointReplies) returns (err: CaptureError)
      requires Valid() && state == Ready
      modifies this
      ensures Consistent() && state == Ready
      ensures err == StartOutcome(replies)
      ensures err != None ==> Valid() && View() == old(View()).(lastError := StartHResult(replies))
      ensures err == None ==> View() == old(View()).(lastError := StartHResult(replies), endpointOpen := true)
    {
      lastError := replies.activateCall;
      if lastError != S_OK {
        Reset();
        return Device;
      }
      lastError := replies.activateResult;
      if lastError != S_OK {
        Reset();
        return Activation;
      }
      endpointOpen := true;
      lastError := replies.initialize;
      if lastError != S_OK {
        Reset();
        return Initialize;
      }
      lastError := replies.getService;
      if lastError != S_OK {
        Reset();
        return Service;
      }
      lastError := replies.setEventHandle;
      if lastError != S_OK || !replies.eventCreated {
        Reset();
        return Event;
      }
      lastError := replies.start;
      if lastError != S_OK {
        Reset();
        return Start;
      }
      return None;
    }

    /** From Capturing or Paused: stop the threads, drop what they held,
        release the endpoint and return to Ready. Settings are kept. */
    method StopCapture() returns (err: CaptureError)
      requires Valid()
      modifies this
      ensures Valid()
      ensures old(state) == Ready ==> err == State && unchanged(this)
      ensures old(state) != Ready ==>
        && err == None
        && View() == old(View()).(state := Ready, endpointOpen := false,
                                  threadsStarted := false, queue := [], buffer := [])
    {
      if state == Ready {
        return State;
      }
      Reset();
      return None;
    }

    /** Paused is set before the endpoint is stopped, so a failed stop leaves
        the session Paused with its threads running; a successful one stops
        the threads and discards every byte not yet delivered. */
    method PauseCapture(stopResult: int) returns (err: CaptureError)
      requires Valid()
      modifies this
      ensures Valid()
      ensures old(state) != Capturing ==> err == State && unchanged(this)
      ensures old(state) == Capturing && stopResult != S_OK ==>
        err == Stop && View() == old(View()).(state := Paused, lastError := stopResult)
      ensures old(state) == Capturing && stopResult == S_OK ==>
        && err == None
        && View() == old(View()).(state := Paused, lastError := stopResult,
                                  threadsStarted := false, queue := [], buffer := [])
    {
      if state != Capturing {
        return State;
      }
      state := Paused;
      lastError := stopResult;
      if stopResult != S_OK {
        return Stop;
      }
      StopThreads();
      return None;
    }

    /** Capturing is set before the endpoint is restarted. On success the
        threads start again with `skipFrames` frames to discard, unless a
        failed pause left them running. */
    method ResumeCapture(startResult: int, skipFrames: DWord) returns (err: CaptureError)
      requires Valid()
      modifies this
      ensures Valid()
      ensures old(state) != Paused ==> err == State && unchanged(this)
      ensures old(state) == Paused && startResult != S_OK ==>
        err == Start && View() == old(View()).(state := Capturing, lastError := startResult)
      ensures old(state) == Paused && startResult == S_OK && old(threadsStarted) ==>
        err == None && View() == old(View()).(state := Capturing, lastError := startResult)
      ensures old(state) == Paused && startResult == S_OK && !old(threadsStarted) ==>
        && err == None
        && View() == old(View()).(state := Capturing, lastError := startResult, threadsStarted := true,
                                  bytesToSkip := SkipByteCount(skipFrames, captureFormat.blockAlign))
    {
      if state != Paused {
        return State;
      }
      state := Capturing;
      lastError := startResult;
      if startResult != S_OK {
        return Start;
      }
      StartThreads(skipFrames);
      return None;
    }

    /** The buffer can be inspected only while a capture exists. */
    method GetIntermediateBuffer() returns (err: CaptureError, contents: seq<Byte>)
      ensures err == (if state == Ready then State else None)
      ensures err == None ==> contents == buffer
    {
      if state == Ready {
        return State, [];
      }
      return None, buffer;
    }

    /** Stops the threads, releases the endpoint and returns to Ready. When
        Capturing it first stops the endpoint, whose HRESULT is ignored. */
    method Reset()
      requires Consistent()
      modifies this
      ensures Valid()
      ensures View() == old(View()).(state := Ready, endpointOpen := false,
                                     threadsStarted := false, queue := [], buffer := [])
    {
      StopThreads();
      endpointOpen := false;
      state := Ready;
    }

    /** Arms the skip counter with whole frames and starts the threads of the
        current mode; nothing happens when they already run. */
    method StartThreads(skipFrames: DWord)
      requires Consistent() && formatInitialized
      modifies this
      ensures Consistent()
      ensures old(threadsStarted) ==> unchanged(this)
      ensures !old(threadsStarted) ==>
        View() == old(View()).(threadsStarted := true,
                               bytesToSkip := SkipByteCount(skipFrames, captureFormat.blockAlign))
    {
      if threadsStarted {
        return;
      }
      bytesToSkip := SkipByteCount(skipFrames, captureFormat.blockAlign);
      threadsStarted := true;
    }

    /** Joins the threads and discards the queue and the buffer; nothing
        happens when no thread runs. */
    method StopThreads()
      requires Consistent()
      modifies this
      ensures Consistent()
      ensures !old(threadsStarted) ==> unchanged(this)
      ensures old(threadsStarted) ==>
        View() == old(View()).(threadsStarted := false, queue := [], buffer := [])
    {
      if !threadsStarted {
        return;
      }
      if queueAvailable {
        queue := [];
      }
      buffer := [];
      threadsStarted := false;
    }

    /** One wake-up of ProcessMainToCallback: the batches the endpoint hands
        out (each `frames * nBlockAlign` bytes long) go through the skip
        counter into the buffer; a non-empty buffer is passed whole to the
        callback (when one is set) and cleared, so the buffer is empty again
        between wake-ups. From a whole-frame skip count, what the callback
        receives is whole frames and the count stays whole frames. */
    method MainToCallbackTick(batches: seq<seq<Byte>>)
      requires Valid() && threadsStarted && !IntermediateMode()
      requires forall i :: 0 <= i < |batches| ==> |batches[i]| % captureFormat.blockAlign == 0
      modifies this
      ensures Valid()
      ensures var s := Discard(old(bytesToSkip), Concat(batches));
              View() == old(View()).(bytesToSkip := s.left,
                                     delivered := old(delivered) + (if s.kept != [] && callback != 0 then [s.kept] else []))
      ensures old(bytesToSkip) % captureFormat.blockAlign == 0 ==>
        && bytesToSkip % captureFormat.blockAlign == 0
        && forall i :: |old(delivered)| <= i < |delivered| ==> |delivered[i]| % captureFormat.blockAlign == 0
    {
      var collected, skip := SkipBatches(bytesToSkip, batches);
      if bytesToSkip % captureFormat.blockAlign == 0 {
        DirectDeliveryAligned(bytesToSkip, batches, captureFormat.blockAlign);
      }
      bytesToSkip := skip;
      if |collected| > 0 && callback != 0 {
        delivered := delivered + [collected];
      }
    }

    /** One wake-up of ProcessMainToQueue: as above, but the surviving bytes
        are enqueued for the intermediate thread; from a whole-frame skip
        count, whole frames are enqueued. */
    method MainToQueueTick(batches: seq<seq<Byte>>)
      requires Valid() && threadsStarted && IntermediateMode()
      requires forall i :: 0 <= i < |batches| ==> |batches[i]| % captureFormat.blockAlign == 0
      modifies this
      ensures Valid()
      ensures var s := Discard(old(bytesToSkip), Concat(batches));
              View() == old(View()).(bytesToSkip := s.left, queue := old(queue) + s.kept)
      ensures old(bytesToSkip) % captureFormat.blockAlign == 0 ==>
        && bytesToSkip % captureFormat.blockAlign == 0
        && (|queue| - |old(queue)|) % captureFormat.blockAlign == 0
    {
      var enqueued, skip := SkipBatches(bytesToSkip, batches);
      if bytesToSkip % captureFormat.blockAlign == 0 {
        DirectDeliveryAligned(bytesToSkip, batches, captureFormat.blockAlign);
      }
      bytesToSkip := skip;
      queue := queue + enqueued;
    }

    /** One period of ProcessIntermediate: drain the queue into the buffer,
        hand the largest whole-frame prefix to the callback (when one is set)
        and erase exactly that prefix. */
    method IntermediateTick()
      requires Valid() && threadsStarted && IntermediateMode()
      modifies this
      ensures Valid()
      ensures var f := Flush(old(buffer) + old(queue), old(captureFormat).blockAlign);
              View() == old(View()).(queue := [], buffer := f.retained,
                                     delivered := old(delivered) + (if f.out != [] && callback != 0 then [f.out] else []))
    {
      var drained, pending := buffer, queue;
      while pending != []
        invariant drained + pending == buffer + queue
        decreases |pending|
      {
        drained := drained + [pending[0]];
        pending := pending[1..];
      }
      assert drained == buffer + queue;
      var alignedSize := AlignedSize(|drained|, captureFormat.blockAlign);
      ghost var f := Flush(drained, captureFormat.blockAlign);
      assert f.out == drained[..alignedSize] && f.retained == drained[alignedSize..];
      if alignedSize > 0 && callback != 0 {
        delivered := delivered + [drained[..alignedSize]];
      }
      queue := [];
      buffer := drained[alignedSize..];
    }
  }

  /** ResumeCapture's default of 0.1 s, for any session that has a format:
      the skip StartThreads arms is `(rate / 10) * nBlockAlign` bytes with no
      DWORD wrap-around, a whole number of frames, and a tenth of the byte
      rate rounded down by less than one frame. */
  lemma DefaultResumeSkip(c: ProcessLoopbackCapture)
    requires c.Valid() && c.formatInitialized
    ensures var f := c.captureFormat;
            var n := SkipByteCount(DefaultResumeSkipFrames(f.samplesPerSec), f.blockAlign);
            && n == (f.samplesPerSec / 10) * f.blockAlign
            && n % f.blockAlign == 0
            && n * 10 <= f.avgBytesPerSec < n * 10 + 10 * f.blockAlign
  {
    ByteRateFits(c.limits, c.captureFormat);
    TenthSecondSkip(c.captureFormat.samplesPerSec, c.captureFormat.blockAlign);
  }
}
