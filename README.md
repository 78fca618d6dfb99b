# USB transfer request vocabulary of the PSVR service

This project models `src/psvrservice/Device/USB/USBDeviceRequest.h`, the
header that defines the vocabulary used by the PSVR service's asynchronous
USB transport. The header contains only declarations: enumerations, macros
and struct/union layouts. It has no function bodies, so the model is made of
datatypes, functions and lemmas:

- `UsbControl` (`usb_control.dfy`): the `bmRequestType` byte of a control
  transfer, as laid out in section 9.3.1 of the USB 2.0 specification.
  - Bit 7 is the direction: `USB_ENDPOINT_IN` 0x80, `USB_ENDPOINT_OUT` 0x00.
  - Bits 6..5 are `usb_request_type`, whose values are `k << 5`.
  - Bits 4..0 are `usb_request_recipient`: codes 0 to 3 are named, and 4 to 31 decode as reserved.
  - `Compose` ORs the three fields together, and `Decode` masks the byte with 0x80, 0x60 and 0x1F.
  - `USB_CTRL_IN` and `USB_CTRL_OUT` are modelled as the same OR of header constants.
- `RequestCodes` (`request_codes.dfy`): the `bRequest` code tables, each an
  enumeration with its codes and a decoder.
  - The standard requests of `usb_standard_request` (table 9-4 of USB 2.0, table 9-5 of USB 3.x).
  - The HID class-specific requests, from section 7.2 of the Device Class Definition for HID 1.11.
  - The HID report types.
- `UsbTransfer` (`usb_transfer.dfy`): the request and result tags, and the
  tagged unions `USBTransferRequest` and `USBTransferResult`.
  - Each union is a datatype with one constructor per tag, and each constructor carries the fields of its payload struct.
  - The fixed 512-byte arrays are sequences. Well-formedness predicates say the sequence has the array's size and the transfer length fits in it.
  - `ResultTypeOf` maps each request tag to the result tag that answers it.
- `CodeTables` (`code_tables.dfy`) and `Wrappers` (`wrappers.dfy`) are helpers.
  `CodeTables.Find` is the table lookup behind the three `bRequest` decoders, and `Wrappers` holds `Option`.

`t_usb_device_handle` and `eUSBResultCode` come from `USBApiInterface.h`,
which is not part of this model; they are opaque types. The header's own
callback types are opaque types too, because the model never calls them:
the bulk callback `usb_bulk_transfer_cb_fn` (line 131), the `void *` user
data (line 172) and the `std::function` completion callback (lines 240 and
246). C's `unsigned short`, `unsigned int` and
`int` fields are the subset types `uint16`, `uint32` and `int32`. The
`unsigned char` fields are `bv8`.

A Cancel request has no result tag of its own in `eUSBTransferResultType`,
so `ResultTypeOf`, the map between the two enumerations, returns `None` for
it. The service still answers a Cancel: once the cancelled bundle's in-flight
packets drain, whoever issued the Cancel receives a BulkTransferBundle result
with code cancelled, and a Cancel on a handle with no active bundle receives
a BulkTransferBundle result with a device error. `AnswerTypeOf` is the
resulting answer map: it agrees with `ResultTypeOf` and sends Cancel to
BulkTransferBundle, and `Answers` relates results to requests through it.
When and with which code the answer is sent belongs to the bundle manager,
which is not part of this model.

## Model

| member | source | states |
|---|---|---|
| UsbControl.DirectionBits | src/psvrservice/Device/USB/USBDeviceRequest.h:21-25 | the direction value lies in bit 7 alone |
| UsbControl.RequestTypeBits | src/psvrservice/Device/USB/USBDeviceRequest.h:27-40 | each request type value `k << 5` lies in bits 6..5 alone |
| UsbControl.RecipientBits | src/psvrservice/Device/USB/USBDeviceRequest.h:42-56 | the recipient value lies in bits 4..0 alone, and is 4 or more exactly when the recipient is reserved |
| UsbControl.RequestTypeValues | src/psvrservice/Device/USB/USBDeviceRequest.h:28-40 | Standard, Class, Vendor and Reserved are 0x00, 0x20, 0x40 and 0x60 |
| UsbControl.FieldsDisjoint | src/psvrservice/Device/USB/USBDeviceRequest.h:21-56 | the three field masks are pairwise disjoint and cover the byte, and so are any direction, type and recipient values |
| UsbControl.BitsInjective | src/psvrservice/Device/USB/USBDeviceRequest.h:21-56 | distinct directions, request types and valid recipients have distinct values |
| UsbControl.Compose | src/psvrservice/Device/USB/USBDeviceRequest.h:106-107 | masking the OR of the fields with 0x80, 0x60 and 0x1F gives back each field's value |
| UsbControl.DecodeDirection | src/psvrservice/Device/USB/USBDeviceRequest.h:21-25 | the decoded direction's value is bit 7 of the byte |
| UsbControl.DecodeRequestType | src/psvrservice/Device/USB/USBDeviceRequest.h:27-40 | the decoded request type's value is bits 6..5 of the byte |
| UsbControl.DecodeRecipient | src/psvrservice/Device/USB/USBDeviceRequest.h:42-56 | the decoded recipient's value is bits 4..0 of the byte, and codes 4 to 31 decode as reserved |
| UsbControl.Decode | src/psvrservice/Device/USB/USBDeviceRequest.h:21-56 | every byte decodes to valid fields whose composition is that byte |
| UsbControl.DecodeCompose | src/psvrservice/Device/USB/USBDeviceRequest.h:106-107 | decoding a composed byte returns the fields it was composed from |
| UsbControl.DecodeInjective | src/psvrservice/Device/USB/USBDeviceRequest.h:21-56 | bytes with equal decoded fields are equal |
| UsbControl.UsbCtrlIn | src/psvrservice/Device/USB/USBDeviceRequest.h:106 | USB_CTRL_IN is 0xA1 and decodes as IN, Class, Interface |
| UsbControl.UsbCtrlOut | src/psvrservice/Device/USB/USBDeviceRequest.h:107 | USB_CTRL_OUT is 0x21 and decodes as OUT, Class, Interface |
| UsbControl.CtrlInOutDifferInDirectionOnly | src/psvrservice/Device/USB/USBDeviceRequest.h:106-107 | USB_CTRL_IN and USB_CTRL_OUT differ in bit 7 and in no other bit |
| RequestCodes.StandardRequestCode | src/psvrservice/Device/USB/USBDeviceRequest.h:58-104 | no standard request has the reserved code 0x02 or 0x04, and every code is at most 0x0C or is 0x30 or 0x31 |
| RequestCodes.StandardRequests | src/psvrservice/Device/USB/USBDeviceRequest.h:58-104 | the table of standard requests has the enumeration's 13 entries |
| RequestCodes.StandardRequestsComplete | src/psvrservice/Device/USB/USBDeviceRequest.h:58-104 | the table lists every standard request |
| RequestCodes.StandardRequestCodesDistinct | src/psvrservice/Device/USB/USBDeviceRequest.h:58-104 | standard request codes are pairwise distinct |
| RequestCodes.DecodeStandardRequest | src/psvrservice/Device/USB/USBDeviceRequest.h:58-104 | a decoded request has the given code, and decoding fails exactly when no request has that code |
| RequestCodes.StandardRequestRoundTrip | src/psvrservice/Device/USB/USBDeviceRequest.h:58-104 | decoding a standard request's code gives that request |
| RequestCodes.ReservedStandardCodes | src/psvrservice/Device/USB/USBDeviceRequest.h:67-72 | the reserved codes 0x02 and 0x04 decode to no request |
| RequestCodes.HidRequestCode | src/psvrservice/Device/USB/USBDeviceRequest.h:10-16 | HID request codes lie in 0x01..0x03 or 0x09..0x0B |
| RequestCodes.HidRequests | src/psvrservice/Device/USB/USBDeviceRequest.h:10-16 | the table of HID requests has six entries |
| RequestCodes.HidRequestsComplete | src/psvrservice/Device/USB/USBDeviceRequest.h:10-16 | the table lists every HID request |
| RequestCodes.HidRequestCodesDistinct | src/psvrservice/Device/USB/USBDeviceRequest.h:10-16 | HID request codes are pairwise distinct |
| RequestCodes.DecodeHidRequest | src/psvrservice/Device/USB/USBDeviceRequest.h:10-16 | a decoded HID request has the given code, and decoding fails exactly when no HID request has it |
| RequestCodes.HidRequestRoundTrip | src/psvrservice/Device/USB/USBDeviceRequest.h:10-16 | decoding a HID request's code gives that request |
| RequestCodes.HidReportTypeCode | src/psvrservice/Device/USB/USBDeviceRequest.h:17-19 | HID report type codes lie in 1..3 |
| RequestCodes.HidReportTypes | src/psvrservice/Device/USB/USBDeviceRequest.h:17-19 | the table of report types has three entries |
| RequestCodes.HidReportTypesComplete | src/psvrservice/Device/USB/USBDeviceRequest.h:17-19 | the table lists every report type |
| RequestCodes.HidReportTypeCodesDistinct | src/psvrservice/Device/USB/USBDeviceRequest.h:17-19 | report type codes are pairwise distinct |
| RequestCodes.DecodeHidReportType | src/psvrservice/Device/USB/USBDeviceRequest.h:17-19 | a decoded report type has the given code, and decoding fails exactly when none has it |
| RequestCodes.HidReportTypeRoundTrip | src/psvrservice/Device/USB/USBDeviceRequest.h:17-19 | decoding a report type's code gives that report type |
| UsbTransfer.RequestTypeValue | src/psvrservice/Device/USB/USBDeviceRequest.h:109-116 | request tags take the enumeration values 0 to 4 |
| UsbTransfer.ResultTypeValue | src/psvrservice/Device/USB/USBDeviceRequest.h:118-124 | result tags take the enumeration values 0 to 3 |
| UsbTransfer.TypeValuesDistinct | src/psvrservice/Device/USB/USBDeviceRequest.h:109-124 | distinct tags of either enumeration have distinct values |
| UsbTransfer.ResultTypeOf | src/psvrservice/Device/USB/USBDeviceRequest.h:109-124 | only Cancel has no result tag; every other request tag maps to the result tag with the same enumeration value |
| UsbTransfer.RequestTypeFor | src/psvrservice/Device/USB/USBDeviceRequest.h:118-124 | every result tag answers the request tag returned, so each result tag is reachable |
| UsbTransfer.ResultTypeOfBijective | src/psvrservice/Device/USB/USBDeviceRequest.h:109-124 | distinct result-bearing request tags map to distinct result tags, and RequestTypeFor inverts the map |
| UsbTransfer.RequestTypeOf | src/psvrservice/Device/USB/USBDeviceRequest.h:181-192 | a request's tag has a data capacity exactly when its payload carries a data array |
| UsbTransfer.ResultTypeOfResult | src/psvrservice/Device/USB/USBDeviceRequest.h:225-235 | a result's tag has a data capacity exactly when its payload carries a data array |
| UsbTransfer.RequestCapacity | src/psvrservice/Device/USB/USBDeviceRequest.h:126-164 | interrupt, control and bulk requests, and only they, hold a 512-byte buffer |
| UsbTransfer.ResultCapacity | src/psvrservice/Device/USB/USBDeviceRequest.h:195-223 | every result except the bundle's holds a 512-byte buffer |
| UsbTransfer.CapacitiesAgree | src/psvrservice/Device/USB/USBDeviceRequest.h:126-128 | a request tag and the result tag answering it have the same buffer capacity |
| UsbTransfer.RequestWellFormed | src/psvrservice/Device/USB/USBDeviceRequest.h:136-164 | a request is well-formed exactly when, if it carries a data array, the array has its tag's capacity and `length` (or `wLength`) fits in it |
| UsbTransfer.ResultWellFormed | src/psvrservice/Device/USB/USBDeviceRequest.h:201-223 | a result is well-formed exactly when, if it carries a data array, the array has its tag's capacity and 0 <= `dataLength` <= that capacity |
| UsbTransfer.AnswerTypeOf | src/psvrservice/Device/USB/USBDeviceRequest.h:109-124 | the answer tag agrees with the result tag of every result-bearing request tag, and is BulkTransferBundle exactly for Start and Cancel bundle requests |
| UsbTransfer.Answers | src/psvrservice/Device/USB/USBDeviceRequest.h:109-124 | for result-bearing requests a result answers exactly when its tag is the request tag's result tag; a Cancel is answered exactly by BulkTransferBundle results |
| UsbTransfer.AnswerFitsRequest | src/psvrservice/Device/USB/USBDeviceRequest.h:136-223 | a result answering a request carries a buffer exactly when the request does, and its `dataLength` fits the request's buffer |
| UsbTransfer.AnsweredByOneTag | src/psvrservice/Device/USB/USBDeviceRequest.h:109-124 | a Cancel request is answered by a BulkTransferBundle result and by no other, and all results answering one request share one tag |
| UsbTransfer.AnswerExists | src/psvrservice/Device/USB/USBDeviceRequest.h:181-223 | every request, Cancel included, has a well-formed answering result with its handle and any result code |
| UsbTransfer.GetReportControlRequest | src/psvrservice/Device/USB/USBDeviceRequest.h:106-155 | a GET_REPORT control request built from USB_CTRL_IN is well-formed, decodes as IN, Class, Interface with request GET_REPORT, and is answered by a control result |

## Left out

- Callbacks are opaque values and are never invoked: `usb_bulk_transfer_cb_fn`, the `void *` user data, and the `std::function` in `USBTransferRequestState` and `USBTransferResultState`.
- `t_usb_device_handle` and `eUSBResultCode` are opaque, because their definitions (`USBApiInterface.h`) are not part of this model. For the same reason the result-code values are not enumerated.
- `USBDeviceFilter.h` is not part of this model.
- Memory layout is not modelled: the union's storage sharing, field order, padding and struct sizes.
- The transfer engine, correlation of completions with requests, and the bulk-bundle state machine are not modelled. This header only declares their data, and their behaviour lives in files not part of this model.
- Timeouts and the actual bus transactions are backend I/O and are not modelled.
- `src/psvrservice/Service/PSVRServiceInterface.h` is not modelled. It declares a shared-memory video frame buffer without bodies, listener interfaces made of virtual callbacks, and plain records with no operations.
- The header does not bound `transfer_packet_size` or `in_flight_transfer_packet_count` of a bundle request, so request well-formedness accepts any values there.
