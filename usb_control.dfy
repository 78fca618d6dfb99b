/**
 * The `bmRequestType` byte of a USB control transfer (section 9.3.1 of the
 * USB 2.0 specification): bit 7 is the data-phase direction, bits 6..5 the
 * request type and bits 4..0 the recipient.
 */
module UsbControl {

  /** USB_ENDPOINT_IN: device-to-host. */
  const UsbEndpointIn: bv8 := 0x80
  /** USB_ENDPOINT_OUT: host-to-device. */
  const UsbEndpointOut: bv8 := 0x00

  /** The bits of `bmRequestType` that each field occupies. */
  const DirectionMask: bv8 := 0x80
  const RequestTypeMask: bv8 := 0x60
  const RecipientMask: bv8 := 0x1F

  /** Direction of the data phase. */
  datatype Direction = In | Out

  /** `usb_request_type`. */
  datatype RequestType = Standard | Class | Vendor | Reserved

  /**
   * `usb_request_recipient`. The enumeration names codes 0 to 3; a decoded
   * recipient field of 4 to 31 is reserved and keeps its code.
   */
  datatype Recipient = Device | Interface | Endpoint | Other | ReservedRecipient(code: bv8)

  /** A reserved recipient is one of the codes 4 to 31 of the 5-bit field. */
  predicate ValidRecipient(r: Recipient) {
    r.ReservedRecipient? ==> 4 <= r.code <= 31
  }

  /** The three fields of a `bmRequestType` byte. */
  datatype RequestTypeFields = RequestTypeFields(direction: Direction, requestType: RequestType, recipient: Recipient)

  /** USB_ENDPOINT_IN or USB_ENDPOINT_OUT; it lies in bit 7 alone. */
  function DirectionBits(d: Direction): (b: bv8)
    ensures b & !DirectionMask == 0
  {
    match d
    case In => UsbEndpointIn
    case Out => UsbEndpointOut
  }

  /** The enumerator's value `k << 5`; it lies in bits 6..5 alone. */
  function RequestTypeBits(t: RequestType): (b: bv8)
    ensures b & !RequestTypeMask == 0
  {
    match t
    case Standard => (0x00 as bv8) << 5
    case Class => (0x01 as bv8) << 5
    case Vendor => (0x02 as bv8) << 5
    case Reserved => (0x03 as bv8) << 5
  }

  /** The recipient code; it lies in bits 4..0 alone, and is 4 or more exactly when reserved. */
  function RecipientBits(r: Recipient): (b: bv8)
    requires ValidRecipient(r)
    ensures b & !RecipientMask == 0
    ensures r.ReservedRecipient? <==> b >= 4
  {
    match r
    case Device => 0x00
    case Interface => 0x01
    case Endpoint => 0x02
    case Other => 0x03
    case ReservedRecipient(code) => code
  }

  /** The request type values of the enumeration: Standard 0x00, Class 0x20, Vendor 0x40, Reserved 0x60. */
  lemma RequestTypeValues()
    ensures RequestTypeBits(Standard) == 0x00 && RequestTypeBits(Class) == 0x20
    ensures RequestTypeBits(Vendor) == 0x40 && RequestTypeBits(Reserved) == 0x60
  {
  }

  /** The three fields occupy disjoint bits that together cover the byte. */
  lemma FieldsDisjoint(d: Direction, t: RequestType, r: Recipient)
    requires ValidRecipient(r)
    ensures DirectionMask & RequestTypeMask == 0 && DirectionMask & RecipientMask == 0
    ensures RequestTypeMask & RecipientMask == 0
    ensures DirectionMask | RequestTypeMask | RecipientMask == 0xFF
    ensures DirectionBits(d) & RequestTypeBits(t) == 0 && DirectionBits(d) & RecipientBits(r) == 0
    ensures RequestTypeBits(t) & RecipientBits(r) == 0
  {
  }

  /** Distinct directions, request types and valid recipients have distinct bits. */
  lemma BitsInjective(d: Direction, d': Direction, t: RequestType, t': RequestType, r: Recipient, r': Recipient)
    requires ValidRecipient(r) && ValidRecipient(r')
    ensures DirectionBits(d) == DirectionBits(d') ==> d == d'
    ensures RequestTypeBits(t) == RequestTypeBits(t') ==> t == t'
    ensures RecipientBits(r) == RecipientBits(r') ==> r == r'
  {
  }

  /** OR-composition of the three fields, as the header composes USB_CTRL_IN and USB_CTRL_OUT. */
  function Compose(d: Direction, t: RequestType, r: Recipient): (b: bv8)
    requires ValidRecipient(r)
    ensures b & DirectionMask == DirectionBits(d)
    ensures b & RequestTypeMask == RequestTypeBits(t)
    ensures b & RecipientMask == RecipientBits(r)
  {
    DirectionBits(d) | RequestTypeBits(t) | RecipientBits(r)
  }

  /** The direction selected by bit 7 of `b`. */
  function DecodeDirection(b: bv8): (d: Direction)
    ensures DirectionBits(d) == b & DirectionMask
  {
    if b & DirectionMask == UsbEndpointIn then In else Out
  }

  /** The request type selected by bits 6..5 of `b`. */
  function DecodeRequestType(b: bv8): (t: RequestType)
    ensures RequestTypeBits(t) == b & RequestTypeMask
  {
    var k := b & RequestTypeMask;
    if k == 0x00 then Standard
    else if k == 0x20 then Class
    else if k == 0x40 then Vendor
    else Reserved
  }

  /** The recipient selected by bits 4..0 of `b`; codes 4 to 31 decode as reserved. */
  function DecodeRecipient(b: bv8): (r: Recipient)
    ensures ValidRecipient(r)
    ensures RecipientBits(r) == b & RecipientMask
    ensures r.ReservedRecipient? <==> b & RecipientMask >= 4
  {
    var k := b & RecipientMask;
    if k == 0x00 then Device
    else if k == 0x01 then Interface
    else if k == 0x02 then Endpoint
    else if k == 0x03 then Other
    else ReservedRecipient(k)
  }

  /** Splits a `bmRequestType` byte into its fields; composing them gives the byte back. */
  function Decode(b: bv8): (f: RequestTypeFields)
    ensures ValidRecipient(f.recipient)
    ensures Compose(f.direction, f.requestType, f.recipient) == b
  {
    RequestTypeFields(DecodeDirection(b), DecodeRequestType(b), DecodeRecipient(b))
  }

  /** Decoding a composed byte returns the fields it was composed from. */
  lemma DecodeCompose(d: Direction, t: RequestType, r: Recipient)
    requires ValidRecipient(r)
    ensures Decode(Compose(d, t, r)) == RequestTypeFields(d, t, r)
  {
    var b := Compose(d, t, r);
    var f := Decode(b);
    BitsInjective(f.direction, d, f.requestType, t, f.recipient, r);
  }

  /** Two bytes with the same decoded fields are the same byte. */
  lemma DecodeInjective(b: bv8, b': bv8)
    ensures Decode(b) == Decode(b') ==> b == b'
  {
  }

  /** USB_CTRL_IN: IN | CLASS | INTERFACE. */
  function UsbCtrlIn(): (b: bv8)
    ensures b == 0xA1
    ensures Decode(b) == RequestTypeFields(In, Class, Interface)
  {
    DecodeCompose(In, Class, Interface);
    UsbEndpointIn | RequestTypeBits(Class) | RecipientBits(Interface)
  }

  /** USB_CTRL_OUT: OUT | CLASS | INTERFACE. */
  function UsbCtrlOut(): (b: bv8)
    ensures b == 0x21
    ensures Decode(b) == RequestTypeFields(Out, Class, Interface)
  {
    DecodeCompose(Out, Class, Interface);
    UsbEndpointOut | RequestTypeBits(Class) | RecipientBits(Interface)
  }

  /** USB_CTRL_IN and USB_CTRL_OUT differ in the direction bit and nowhere else. */
  lemma CtrlInOutDifferInDirectionOnly()
    ensures UsbCtrlIn() ^ UsbCtrlOut() == DirectionMask
    ensures UsbCtrlIn() & !DirectionMask == UsbCtrlOut() & !DirectionMask
  {
  }
}
