/**
 * The `bRequest` codes of control transfers: the standard requests
 * (table 9-4 of the USB 2.0 specification, table 9-5 of USB 3.x) and the
 * class-specific requests of the HID class (section 7.2 of the Device Class
 * Definition for HID 1.11), with the report types used by GET_REPORT and
 * SET_REPORT.
 */
module RequestCodes {
  import opened Wrappers
  import CodeTables

  /** `usb_standard_request`. */
  datatype StandardRequest =
    | GetStatus | ClearFeature | SetFeature | SetAddress | GetDescriptor
    | SetDescriptor | GetConfiguration | SetConfiguration | GetInterface
    | SetInterface | SynchFrame | SetSel | SetIsochDelay

  /** The code of a standard request; 0x02 and 0x04 are reserved and name no request. */
  function StandardRequestCode(r: StandardRequest): (c: bv8)
    ensures c != 0x02 && c != 0x04
    ensures c <= 0x0C || c == 0x30 || c == 0x31
  {
    match r
    case GetStatus => 0x00
    case ClearFeature => 0x01
    case SetFeature => 0x03
    case SetAddress => 0x05
    case GetDescriptor => 0x06
    case SetDescriptor => 0x07
    case GetConfiguration => 0x08
    case SetConfiguration => 0x09
    case GetInterface => 0x0A
    case SetInterface => 0x0B
    case SynchFrame => 0x0C
    case SetSel => 0x30
    case SetIsochDelay => 0x31
  }

  /** Every standard request, in the order of the enumeration. */
  function StandardRequests(): (t: seq<StandardRequest>)
    ensures |t| == 13
  {
    [GetStatus, ClearFeature, SetFeature, SetAddress, GetDescriptor,
     SetDescriptor, GetConfiguration, SetConfiguration, GetInterface,
     SetInterface, SynchFrame, SetSel, SetIsochDelay]
  }

  /** The table StandardRequests lists every enumerator. */
  lemma StandardRequestsComplete()
    ensures forall r :: r in StandardRequests()
  {
    forall r: StandardRequest ensures r in StandardRequests() {
      match r {
        case GetStatus =>
        case ClearFeature =>
        case SetFeature =>
        case SetAddress =>
        case GetDescriptor =>
        case SetDescriptor =>
        case GetConfiguration =>
        case SetConfiguration =>
        case GetInterface =>
        case SetInterface =>
        case SynchFrame =>
        case SetSel =>
        case SetIsochDelay =>
      }
    }
  }

  /** The standard request codes are pairwise distinct. */
  lemma StandardRequestCodesDistinct(a: StandardRequest, b: StandardRequest)
    ensures StandardRequestCode(a) == StandardRequestCode(b) ==> a == b
  {
  }

  /** The standard request a received `bRequest` code names, if any. */
  function DecodeStandardRequest(c: bv8): (r: Option<StandardRequest>)
    ensures r.Some? ==> StandardRequestCode(r.value) == c
    ensures r.None? <==> forall s :: StandardRequestCode(s) != c
  {
    StandardRequestsComplete();
    CodeTables.Find(StandardRequests(), StandardRequestCode, c)
  }

  /** Decoding the code of a standard request gives that request back. */
  lemma StandardRequestRoundTrip(r: StandardRequest)
    ensures DecodeStandardRequest(StandardRequestCode(r)) == Some(r)
  {
    var d := DecodeStandardRequest(StandardRequestCode(r));
    StandardRequestCodesDistinct(d.value, r);
  }

  /** The reserved codes 0x02 and 0x04 decode to no request. */
  lemma ReservedStandardCodes()
    ensures DecodeStandardRequest(0x02) == None
    ensures DecodeStandardRequest(0x04) == None
  {
  }

  /** The HID class-specific requests HID_GET_REPORT .. HID_SET_PROTOCOL. */
  datatype HidRequest = GetReport | GetIdle | GetProtocol | SetReport | SetIdle | SetProtocol

  /** The code of a HID class-specific request. */
  function HidRequestCode(r: HidRequest): (c: bv8)
    ensures 0x01 <= c <= 0x03 || 0x09 <= c <= 0x0B
  {
    match r
    case GetReport => 0x01
    case GetIdle => 0x02
    case GetProtocol => 0x03
    case SetReport => 0x09
    case SetIdle => 0x0A
    case SetProtocol => 0x0B
  }

  /** Every HID class-specific request. */
  function HidRequests(): (t: seq<HidRequest>)
    ensures |t| == 6
  {
    [GetReport, GetIdle, GetProtocol, SetReport, SetIdle, SetProtocol]
  }

  /** The table HidRequests lists every enumerator. */
  lemma HidRequestsComplete()
    ensures forall r :: r in HidRequests()
  {
    forall r: HidRequest ensures r in HidRequests() {
      match r {
        case GetReport =>
        case GetIdle =>
        case GetProtocol =>
        case SetReport =>
        case SetIdle =>
        case SetProtocol =>
      }
    }
  }

  /** The HID request codes are pairwise distinct. */
  lemma HidRequestCodesDistinct(a: HidRequest, b: HidRequest)
    ensures HidRequestCode(a) == HidRequestCode(b) ==> a == b
  {
  }

  /** The HID request a received `bRequest` code names, if any. */
  function DecodeHidRequest(c: bv8): (r: Option<HidRequest>)
    ensures r.Some? ==> HidRequestCode(r.value) == c
    ensures r.None? <==> forall s :: HidRequestCode(s) != c
  {
    HidRequestsComplete();
    CodeTables.Find(HidRequests(), HidRequestCode, c)
  }

  /** Decoding the code of a HID request gives that request back. */
  lemma HidRequestRoundTrip(r: HidRequest)
    ensures DecodeHidRequest(HidRequestCode(r)) == Some(r)
  {
    var d := DecodeHidRequest(HidRequestCode(r));
    HidRequestCodesDistinct(d.value, r);
  }

  /** HID_REPORT_TYPE_INPUT, HID_REPORT_TYPE_OUTPUT, HID_REPORT_TYPE_FEATURE. */
  datatype HidReportType = InputReport | OutputReport | FeatureReport

  /** The code of a HID report type: 1, 2 or 3. */
  function HidReportTypeCode(t: HidReportType): (c: bv8)
    ensures 1 <= c <= 3
  {
    match t
    case InputReport => 0x01
    case OutputReport => 0x02
    case FeatureReport => 0x03
  }

  /** Every HID report type. */
  function HidReportTypes(): (t: seq<HidReportType>)
    ensures |t| == 3
  {
    [InputReport, OutputReport, FeatureReport]
  }

  /** The table HidReportTypes lists every enumerator. */
  lemma HidReportTypesComplete()
    ensures forall r :: r in HidReportTypes()
  {
    forall r: HidReportType ensures r in HidReportTypes() {
      match r {
        case InputReport =>
        case OutputReport =>
        case FeatureReport =>
      }
    }
  }

  /** The HID report type codes are pairwise distinct. */
  lemma HidReportTypeCodesDistinct(a: HidReportType, b: HidReportType)
    ensures HidReportTypeCode(a) == HidReportTypeCode(b) ==> a == b
  {
  }

  /** The HID report type a code names, if any. */
  function DecodeHidReportType(c: bv8): (r: Option<HidReportType>)
    ensures r.Some? ==> HidReportTypeCode(r.value) == c
    ensures r.None? <==> forall s :: HidReportTypeCode(s) != c
  {
    HidReportTypesComplete();
    CodeTables.Find(HidReportTypes(), HidReportTypeCode, c)
  }

  /** Decoding the code of a HID report type gives that report type back. */
  lemma HidReportTypeRoundTrip(t: HidReportType)
    ensures DecodeHidReportType(HidReportTypeCode(t)) == Some(t)
  {
    var d := DecodeHidReportType(HidReportTypeCode(t));
    HidReportTypeCodesDistinct(d.value, t);
  }
}
