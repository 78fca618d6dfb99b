/**
 * The tagged transfer requests and results exchanged with the USB backend:
 * one constructor per tag of `eUSBTransferRequestType` and
 * `eUSBTransferResultType`, each carrying the fields of its payload struct.
 * The fixed payload arrays are sequences whose length is the array's size.
 */
module UsbTransfer {
  import opened Wrappers
  import UsbControl
  import RequestCodes

  /** `t_usb_device_handle`, defined outside this header. */
  type DeviceHandle(==)
  /** `eUSBResultCode`, defined outside this header. */
  type ResultCode(==)
  /** `usb_bulk_transfer_cb_fn`, a function pointer into the caller. */
  type BulkTransferCallback(==)
  /** The caller's `void *` handed back to the bulk callback. */
  type UserData(==)
  /** The `std::function` completion callback of a request or result state. */
  type CompletionCallback

  type uint16 = x: int | 0 <= x < 0x1_0000
  type uint32 = x: int | 0 <= x < 0x1_0000_0000
  type int32 = x: int | -0x8000_0000 <= x < 0x8000_0000

  /** MAX_INTERRUPT_TRANSFER_PAYLOAD, MAX_CONTROL_TRANSFER_PAYLOAD, MAX_BULK_TRANSFER_PAYLOAD. */
  const MaxInterruptTransferPayload: nat := 512
  const MaxControlTransferPayload: nat := 512
  const MaxBulkTransferPayload: nat := 512

  /** `eUSBTransferRequestType`. */
  datatype TransferRequestType =
    | InterruptTransferRequestType
    | ControlTransferRequestType
    | BulkTransferRequestType
    | StartBulkTransferBundleRequestType
    | CancelBulkTransferBundleRequestType

  /** `eUSBTransferResultType`. */
  datatype TransferResultType =
    | InterruptTransferResultType
    | ControlTransferResultType
    | BulkTransferResultType
    | BulkTransferBundleResultType

  /** The value the C enumeration gives each request tag, counting from 0. */
  function RequestTypeValue(k: TransferRequestType): (v: nat)
    ensures v < 5
  {
    match k
    case InterruptTransferRequestType => 0
    case ControlTransferRequestType => 1
    case BulkTransferRequestType => 2
    case StartBulkTransferBundleRequestType => 3
    case CancelBulkTransferBundleRequestType => 4
  }

  /** The value the C enumeration gives each result tag, counting from 0. */
  function ResultTypeValue(k: TransferResultType): (v: nat)
    ensures v < 4
  {
    match k
    case InterruptTransferResultType => 0
    case ControlTransferResultType => 1
    case BulkTransferResultType => 2
    case BulkTransferBundleResultType => 3
  }

  /** Distinct tags have distinct enumeration values. */
  lemma TypeValuesDistinct(a: TransferRequestType, b: TransferRequestType, x: TransferResultType, y: TransferResultType)
    ensures RequestTypeValue(a) == RequestTypeValue(b) ==> a == b
    ensures ResultTypeValue(x) == ResultTypeValue(y) ==> x == y
  {
  }

  /**
   * The result tag a request of kind `k` is answered with. A Cancel request
   * has no result tag of its own.
   */
  function ResultTypeOf(k: TransferRequestType): (r: Option<TransferResultType>)
    ensures r.None? <==> k == CancelBulkTransferBundleRequestType
    ensures r.Some? ==> ResultTypeValue(r.value) == RequestTypeValue(k)
  {
    match k
    case InterruptTransferRequestType => Some(InterruptTransferResultType)
    case ControlTransferRequestType => Some(ControlTransferResultType)
    case BulkTransferRequestType => Some(BulkTransferResultType)
    case StartBulkTransferBundleRequestType => Some(BulkTransferBundleResultType)
    case CancelBulkTransferBundleRequestType => None
  }

  /** The request tag whose requests are answered with result tag `k`. */
  function RequestTypeFor(k: TransferResultType): (r: TransferRequestType)
    ensures ResultTypeOf(r) == Some(k)
  {
    match k
    case InterruptTransferResultType => InterruptTransferRequestType
    case ControlTransferResultType => ControlTransferRequestType
    case BulkTransferResultType => BulkTransferRequestType
    case BulkTransferBundleResultType => StartBulkTransferBundleRequestType
  }

  /**
   * Each result tag answers exactly one request tag: ResultTypeOf is
   * injective on the result-bearing request tags and RequestTypeFor is its
   * inverse.
   */
  lemma ResultTypeOfBijective(a: TransferRequestType, b: TransferRequestType)
    ensures ResultTypeOf(a).Some? && ResultTypeOf(a) == ResultTypeOf(b) ==> a == b
    ensures ResultTypeOf(a).Some? ==> RequestTypeFor(ResultTypeOf(a).value) == a
  {
    TypeValuesDistinct(a, b, InterruptTransferResultType, InterruptTransferResultType);
  }

  /** `USBTransferRequest`: the payload struct of each request tag. */
  datatype TransferRequest =
    | InterruptTransferRequest(handle: DeviceHandle, timeout: uint32, length: uint32, data: seq<bv8>, endpoint: bv8)
    | ControlTransferRequest(handle: DeviceHandle, timeout: uint32, wValue: uint16, wIndex: uint16, wLength: uint16,
                             data: seq<bv8>, bmRequestType: bv8, bRequest: bv8)
    | BulkTransferRequest(handle: DeviceHandle, timeout: uint32, length: uint32, data: seq<bv8>, endpoint: bv8)
    | StartBulkTransferBundleRequest(handle: DeviceHandle, transferPacketSize: int32, inFlightTransferPacketCount: int32,
                                     onDataCallback: BulkTransferCallback, transferCallbackUserdata: UserData,
                                     autoResubmit: bool)
    | CancelBulkTransferBundleRequest(handle: DeviceHandle)

  /** `USBTransferResult`: the payload struct of each result tag. */
  datatype TransferResult =
    | InterruptTransferResult(handle: DeviceHandle, resultCode: ResultCode, data: seq<bv8>, dataLength: int32)
    | ControlTransferResult(handle: DeviceHandle, resultCode: ResultCode, data: seq<bv8>, dataLength: int32)
    | BulkTransferResult(handle: DeviceHandle, resultCode: ResultCode, data: seq<bv8>, dataLength: int32)
    | BulkTransferBundleResult(handle: DeviceHandle, resultCode: ResultCode)

  /** `USBTransferRequestState`: a request with the callback that receives its result. */
  datatype TransferRequestState = TransferRequestState(request: TransferRequest, callback: CompletionCallback)

  /** `USBTransferResultState`: a result with the callback it is delivered to. */
  datatype TransferResultState = TransferResultState(result: TransferResult, callback: CompletionCallback)

  /** The request's payload holds a data array (interrupt, control and bulk transfers). */
  predicate RequestCarriesData(r: TransferRequest) {
    r.InterruptTransferRequest? || r.ControlTransferRequest? || r.BulkTransferRequest?
  }

  /** The result's payload holds a data array and `dataLength` (every result but the bundle's). */
  predicate ResultCarriesData(r: TransferResult) {
    !r.BulkTransferBundleResult?
  }

  /** The `request_type` tag of a request. */
  function RequestTypeOf(r: TransferRequest): (k: TransferRequestType)
    ensures RequestCapacity(k).Some? <==> RequestCarriesData(r)
  {
    match r
    case InterruptTransferRequest(_, _, _, _, _) => InterruptTransferRequestType
    case ControlTransferRequest(_, _, _, _, _, _, _, _) => ControlTransferRequestType
    case BulkTransferRequest(_, _, _, _, _) => BulkTransferRequestType
    case StartBulkTransferBundleRequest(_, _, _, _, _, _) => StartBulkTransferBundleRequestType
    case CancelBulkTransferBundleRequest(_) => CancelBulkTransferBundleRequestType
  }

  /** The `result_type` tag of a result. */
  function ResultTypeOfResult(r: TransferResult): (k: TransferResultType)
    ensures ResultCapacity(k).Some? <==> ResultCarriesData(r)
  {
    match r
    case InterruptTransferResult(_, _, _, _) => InterruptTransferResultType
    case ControlTransferResult(_, _, _, _) => ControlTransferResultType
    case BulkTransferResult(_, _, _, _) => BulkTransferResultType
    case BulkTransferBundleResult(_, _) => BulkTransferBundleResultType
  }

  /** The size of the data array of a request tag's payload, if it has one. */
  function RequestCapacity(k: TransferRequestType): (c: Option<nat>)
    ensures c.Some? ==> c.value == 512
    ensures c.Some? <==> k in {InterruptTransferRequestType, ControlTransferRequestType, BulkTransferRequestType}
  {
    match k
    case InterruptTransferRequestType => Some(MaxInterruptTransferPayload)
    case ControlTransferRequestType => Some(MaxControlTransferPayload)
    case BulkTransferRequestType => Some(MaxBulkTransferPayload)
    case _ => None
  }

  /** The size of the data array of a result tag's payload, if it has one. */
  function ResultCapacity(k: TransferResultType): (c: Option<nat>)
    ensures c.Some? ==> c.value == 512
    ensures c.None? <==> k == BulkTransferBundleResultType
  {
    match k
    case InterruptTransferResultType => Some(MaxInterruptTransferPayload)
    case ControlTransferResultType => Some(MaxControlTransferPayload)
    case BulkTransferResultType => Some(MaxBulkTransferPayload)
    case BulkTransferBundleResultType => None
  }

  /** A request and its result carry data arrays of the same size, or neither carries one. */
  lemma CapacitiesAgree(k: TransferRequestType)
    requires ResultTypeOf(k).Some?
    ensures RequestCapacity(k) == ResultCapacity(ResultTypeOf(k).value)
  {
  }

  /** The number of bytes a data-carrying request transfers: `length`, or `wLength` for a control transfer. */
  function TransferLength(r: TransferRequest): (n: int)
    requires RequestCarriesData(r)
    ensures 0 <= n < 0x1_0000_0000
    ensures r.ControlTransferRequest? ==> n < 0x1_0000
  {
    if r.ControlTransferRequest? then r.wLength else r.length
  }

  /**
   * A request whose data array has its declared size and whose transfer
   * length fits in it (`length` for interrupt and bulk transfers, `wLength`
   * for control transfers).
   */
  predicate RequestWellFormed(r: TransferRequest)
    ensures RequestWellFormed(r) <==>
              (RequestCarriesData(r) ==>
                 |r.data| == RequestCapacity(RequestTypeOf(r)).value && TransferLength(r) <= |r.data|)
  {
    match r
    case InterruptTransferRequest(_, _, length, data, _) =>
      |data| == MaxInterruptTransferPayload && length <= MaxInterruptTransferPayload
    case ControlTransferRequest(_, _, _, _, wLength, data, _, _) =>
      |data| == MaxControlTransferPayload && wLength <= MaxControlTransferPayload
    case BulkTransferRequest(_, _, length, data, _) =>
      |data| == MaxBulkTransferPayload && length <= MaxBulkTransferPayload
    case StartBulkTransferBundleRequest(_, _, _, _, _, _) => true
    case CancelBulkTransferBundleRequest(_) => true
  }

  /** A result whose data array has its declared size and whose `dataLength` lies between 0 and it. */
  predicate ResultWellFormed(r: TransferResult)
    ensures ResultWellFormed(r) <==>
              (ResultCarriesData(r) ==>
                 |r.data| == ResultCapacity(ResultTypeOfResult(r)).value && 0 <= r.dataLength <= |r.data|)
  {
    match r
    case InterruptTransferResult(_, _, data, dataLength) =>
      |data| == MaxInterruptTransferPayload && 0 <= dataLength <= MaxInterruptTransferPayload
    case ControlTransferResult(_, _, data, dataLength) =>
      |data| == MaxControlTransferPayload && 0 <= dataLength <= MaxControlTransferPayload
    case BulkTransferResult(_, _, data, dataLength) =>
      |data| == MaxBulkTransferPayload && 0 <= dataLength <= MaxBulkTransferPayload
    case BulkTransferBundleResult(_, _) => true
  }

  /**
   * The result tag a request of kind `k` is answered with by the transfer
   * service. It agrees with ResultTypeOf on every request tag that has a
   * result tag of its own; a Cancel request is answered with a
   * BulkTransferBundle result, the result tag of the bundle it cancels.
   */
  function AnswerTypeOf(k: TransferRequestType): (r: TransferResultType)
    ensures ResultTypeOf(k).Some? ==> ResultTypeOf(k) == Some(r)
    ensures r == BulkTransferBundleResultType <==>
              k == StartBulkTransferBundleRequestType || k == CancelBulkTransferBundleRequestType
  {
    match ResultTypeOf(k)
    case Some(t) => t
    case None => BulkTransferBundleResultType
  }

  /** A result answers a request when its tag is the one the request is answered with. */
  predicate Answers(res: TransferResult, req: TransferRequest)
    ensures ResultTypeOf(RequestTypeOf(req)).Some? ==>
              (Answers(res, req) <==> ResultTypeOf(RequestTypeOf(req)) == Some(ResultTypeOfResult(res)))
    ensures req.CancelBulkTransferBundleRequest? ==> (Answers(res, req) <==> res.BulkTransferBundleResult?)
  {
    ResultTypeOfResult(res) == AnswerTypeOf(RequestTypeOf(req))
  }

  /**
   * A result answering a request carries a data array exactly when the
   * request does, and a well-formed one never received more bytes than the
   * request's data array holds.
   */
  lemma AnswerFitsRequest(res: TransferResult, req: TransferRequest)
    requires Answers(res, req) && ResultWellFormed(res) && RequestWellFormed(req)
    ensures ResultCarriesData(res) <==> RequestCarriesData(req)
    ensures ResultCarriesData(res) ==> res.dataLength <= |req.data|
  {
    if !req.CancelBulkTransferBundleRequest? {
      CapacitiesAgree(RequestTypeOf(req));
    }
  }

  /**
   * Only a BulkTransferBundle result answers a Cancel request, and all
   * results answering one request share one tag.
   */
  lemma AnsweredByOneTag(req: TransferRequest, a: TransferResult, b: TransferResult)
    ensures req.CancelBulkTransferBundleRequest? ==> (Answers(a, req) <==> a.BulkTransferBundleResult?)
    ensures Answers(a, req) && Answers(b, req) ==> ResultTypeOfResult(a) == ResultTypeOfResult(b)
  {
  }

  /**
   * Every request can be answered, whatever the result code, by a
   * well-formed result of its handle.
   */
  lemma AnswerExists(req: TransferRequest, code: ResultCode)
    ensures exists res :: ResultWellFormed(res) && Answers(res, req) && res.handle == req.handle && res.resultCode == code
  {
    var empty := seq(512, _ => 0 as bv8);
    var res :=
      match req
      case InterruptTransferRequest(h, _, _, _, _) => InterruptTransferResult(h, code, empty, 0)
      case ControlTransferRequest(h, _, _, _, _, _, _, _) => ControlTransferResult(h, code, empty, 0)
      case BulkTransferRequest(h, _, _, _, _) => BulkTransferResult(h, code, empty, 0)
      case StartBulkTransferBundleRequest(h, _, _, _, _, _) => BulkTransferBundleResult(h, code)
      case CancelBulkTransferBundleRequest(h) => BulkTransferBundleResult(h, code);
    assert ResultWellFormed(res) && Answers(res, req);
  }

  /**
   * A class-specific GET_REPORT control request addressed to an interface,
   * built from USB_CTRL_IN and HID_GET_REPORT with a 64-byte data phase, is
   * well-formed, reads as a device-to-host class request to an interface,
   * names GET_REPORT, and is answered by a control transfer result.
   */
  lemma GetReportControlRequest(h: DeviceHandle, timeout: uint32, data: seq<bv8>)
    requires |data| == MaxControlTransferPayload
    ensures var req := ControlTransferRequest(h, timeout, 0x0100, 0, 64, data, UsbControl.UsbCtrlIn(),
                                              RequestCodes.HidRequestCode(RequestCodes.GetReport));
            && RequestWellFormed(req)
            && UsbControl.Decode(req.bmRequestType)
               == UsbControl.RequestTypeFields(UsbControl.In, UsbControl.Class, UsbControl.Interface)
            && RequestCodes.DecodeHidRequest(req.bRequest) == Some(RequestCodes.GetReport)
            && ResultTypeOf(RequestTypeOf(req)) == Some(ControlTransferResultType)
  {
    RequestCodes.HidRequestRoundTrip(RequestCodes.GetReport);
  }
}
