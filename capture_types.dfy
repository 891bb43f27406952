/** The value types shared by the capture session: the Win32 integer widths
    it uses, the two enumerations of ProcessLoopbackCapture.h and the
    error-code to text mapping `LoopbackCaptureConst::GetErrorText`. */
module CaptureTypes {

  /** A Win32 DWORD: an unsigned 32-bit integer. */
  type DWord = x: int | 0 <= x < 0x1_0000_0000

  /** One byte of captured audio (`unsigned char`). */
  type Byte = x: int | 0 <= x < 0x100

  /** The HRESULT that Windows interface functions return on success. */
  const S_OK: int := 0

  /** `eCaptureState`: exactly one of these is current at any time. */
  datatype CaptureState = Ready | Capturing | Paused

  /** The integer value of an `eCaptureState` (READY = 0, then in order). */
  function StateValue(s: CaptureState): (v: int)
    ensures 0 <= v < 3
    ensures v == 0 <==> s == Ready
  {
    match s
    case Ready => 0
    case Capturing => 1
    case Paused => 2
  }

  /** `eCaptureError`. The first six carry no HRESULT; Device through
      Interface are the device errors whose HRESULT GetLastErrorResult keeps. */
  datatype CaptureError =
    | None | Param | State | NotAvailable | Format | ProcessId
    | Device | Activation | Initialize | Service | Start | Stop | Event | Interface

  /** A value, or the error that replaced it. */
  datatype Result<T> = Ok(value: T) | Err(error: CaptureError)

  /** The number of enumerators of `eCaptureError`. */
  const ErrorCount: int := 14

  /** The integer value of an `eCaptureError` (NONE = 0, then in order). */
  function ErrorValue(e: CaptureError): (v: int)
    ensures 0 <= v < ErrorCount
    ensures v == 0 <==> e == None
  {
    match e
    case None => 0
    case Param => 1
    case State => 2
    case NotAvailable => 3
    case Format => 4
    case ProcessId => 5
    case Device => 6
    case Activation => 7
    case Initialize => 8
    case Service => 9
    case Start => 10
    case Stop => 11
    case Event => 12
    case Interface => 13
  }

  /** The enumerator that has a given in-range integer value. */
  function ErrorOfValue(v: int): (e: CaptureError)
    requires 0 <= v < ErrorCount
    ensures ErrorValue(e) == v
  {
    if v == 0 then None
    else if v == 1 then Param
    else if v == 2 then State
    else if v == 3 then NotAvailable
    else if v == 4 then Format
    else if v == 5 then ProcessId
    else if v == 6 then Device
    else if v == 7 then Activation
    else if v == 8 then Initialize
    else if v == 9 then Service
    else if v == 10 then Start
    else if v == 11 then Stop
    else if v == 12 then Event
    else Interface
  }

  /** Errors reported together with an HRESULT (the second group of the
      enum): exactly DEVICE through INTERFACE. */
  predicate CarriesHResult(e: CaptureError)
    ensures CarriesHResult(e) <==> e in {Device, Activation, Initialize, Service, Start, Stop, Event, Interface}
  {
    ErrorValue(e) >= ErrorValue(Device)
  }

  /** The fixed message of each enumerator; none is empty and none is the
      fallback "Unknown". */
  function Message(e: CaptureError): (m: string)
    ensures m != [] && m != "Unknown"
  {
    match e
    case None => "Success"
    case Param => "Invalid parameter"
    case State => "Invalid operation for current state"
    case NotAvailable => "Feature not available"
    case Format => "CaptureFormat is invalid or not initialized"
    case ProcessId => "ProcessId is invalid (0/not set)"
    case Device => "Failed to get device"
    case Activation => "Failed to activate device"
    case Initialize => "Failed to init device"
    case Service => "Failed to get interface pointer via service"
    case Start => "Failed to start capture"
    case Stop => "Failed to stop capture"
    case Event => "Failed to create and set event"
    case Interface => "Failed to call Windows interface function"
  }

  /** `GetErrorText`: the switch over the enum's integer value, falling
      through to "Unknown" for a value outside the enumeration. */
  function ErrorText(value: int): (t: string)
    ensures t == "Unknown" <==> !(0 <= value < ErrorCount)
  {
    if 0 <= value < ErrorCount then Message(ErrorOfValue(value)) else "Unknown"
  }

  /** Every enumerator maps back to itself through its integer value. */
  lemma ErrorValueRoundTrip(e: CaptureError)
    ensures ErrorOfValue(ErrorValue(e)) == e
  {
  }

  /** GetErrorText gives each enumerator, through its integer value, its own
      message. */
  lemma ErrorTextOfEnumerator(e: CaptureError)
    ensures ErrorText(ErrorValue(e)) == Message(e)
  {
    ErrorValueRoundTrip(e);
  }

  /** The fourteen messages are pairwise distinct, so the text identifies
      the error. */
  lemma ErrorTextDistinct(a: int, b: int)
    requires 0 <= a < ErrorCount && 0 <= b < ErrorCount && a != b
    ensures ErrorText(a) != ErrorText(b)
  {
    var ea, eb := ErrorOfValue(a), ErrorOfValue(b);
    assert ea != eb;
    MessagesDistinct(ea, eb);
  }

  /** Distinct enumerators have distinct messages. */
  lemma MessagesDistinct(a: CaptureError, b: CaptureError)
    requires a != b
    ensures Message(a) != Message(b)
  {
    match a
    case None =>
    case Param =>
    case State =>
    case NotAvailable =>
    case Format =>
    case ProcessId =>
    case Device =>
    case Activation =>
    case Initialize =>
    case Service =>
    case Start =>
    case Stop =>
    case Event =>
    case Interface =>
  }
}
