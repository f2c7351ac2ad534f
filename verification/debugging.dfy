/** The validation-layer debug callback: it decodes the severity and the
    message type from their VK_EXT_debug_utils flag bits and prints one line
    per message that carries valid UTF-8 text. The timestamp prefix is left
    out (it reads the clock). */
module Debugging {
  import opened Common

  /** Severity bits of VK_EXT_debug_utils. */
  const SEVERITY_VERBOSE: bv32 := 0x1
  const SEVERITY_INFO: bv32 := 0x10
  const SEVERITY_WARNING: bv32 := 0x100
  const SEVERITY_ERROR: bv32 := 0x1000

  /** Message-type bits of VK_EXT_debug_utils. */
  const TYPE_GENERAL: bv32 := 0x1
  const TYPE_VALIDATION: bv32 := 0x2
  const TYPE_PERFORMANCE: bv32 := 0x4
  const TYPE_DEVICE_ADDRESS_BINDING: bv32 := 0x8

  datatype Severity = Verbose | Info | Warning | Error

  datatype MessageType = General | Validation | Performance | DeviceAddressBinding

  /** A value with exactly one bit set. */
  predicate SingleBit(b: bv32) {
    b != 0 && b & (b - 1) == 0
  }

  function SeverityBits(s: Severity): (b: bv32)
    ensures SingleBit(b)
  {
    match s
    case Verbose => SEVERITY_VERBOSE
    case Info => SEVERITY_INFO
    case Warning => SEVERITY_WARNING
    case Error => SEVERITY_ERROR
  }

  function MessageTypeBits(t: MessageType): (b: bv32)
    ensures SingleBit(b)
  {
    match t
    case General => TYPE_GENERAL
    case Validation => TYPE_VALIDATION
    case Performance => TYPE_PERFORMANCE
    case DeviceAddressBinding => TYPE_DEVICE_ADDRESS_BINDING
  }

  /** `Severity::from`: only a value equal to one of the four flags
      decodes; anything else (a combination, an unknown bit, zero) reaches
      `unimplemented!`, shown as `None`. */
  function DecodeSeverity(b: bv32): (r: Option<Severity>)
    ensures r.Some? ==> SeverityBits(r.value) == b
  {
    if b == SEVERITY_VERBOSE then Some(Verbose)
    else if b == SEVERITY_INFO then Some(Info)
    else if b == SEVERITY_WARNING then Some(Warning)
    else if b == SEVERITY_ERROR then Some(Error)
    else None
  }

  /** `MessageType::from`, with the same treatment of unknown values. */
  function DecodeMessageType(b: bv32): (r: Option<MessageType>)
    ensures r.Some? ==> MessageTypeBits(r.value) == b
  {
    if b == TYPE_GENERAL then Some(General)
    else if b == TYPE_VALIDATION then Some(Validation)
    else if b == TYPE_PERFORMANCE then Some(Performance)
    else if b == TYPE_DEVICE_ADDRESS_BINDING then Some(DeviceAddressBinding)
    else None
  }

  /** Decoding is the exact inverse of the flag table: every severity
      decodes from its own bit, and a value decodes iff it is one of the
      four bits. */
  lemma SeverityRoundTrip(s: Severity, b: bv32)
    ensures DecodeSeverity(SeverityBits(s)) == Some(s)
    ensures DecodeSeverity(b).Some? <==> exists s' :: SeverityBits(s') == b
  {
    if DecodeSeverity(b).Some? {
      assert SeverityBits(DecodeSeverity(b).value) == b;
    }
  }

  lemma MessageTypeRoundTrip(t: MessageType, b: bv32)
    ensures DecodeMessageType(MessageTypeBits(t)) == Some(t)
    ensures DecodeMessageType(b).Some? <==> exists t' :: MessageTypeBits(t') == b
  {
    if DecodeMessageType(b).Some? {
      assert MessageTypeBits(DecodeMessageType(b).value) == b;
    }
  }

  /** A message tagged with two severities at once is not decoded. */
  lemma CombinedFlagsAreRejected(b: bv32)
    requires !SingleBit(b)
    ensures DecodeSeverity(b).None? && DecodeMessageType(b).None?
  {
  }

  /** `{:?}` of each variant. */
  function SeverityName(s: Severity): string {
    match s
    case Verbose => "Verbose"
    case Info => "Info"
    case Warning => "Warning"
    case Error => "Error"
  }

  function MessageTypeName(t: MessageType): string {
    match t
    case General => "General"
    case Validation => "Validation"
    case Performance => "Performance"
    case DeviceAddressBinding => "DeviceAddressBinding"
  }

  /** A bracketed tag followed by a space. */
  function Tag(name: string): string {
    "[" + name + "] "
  }

  /** The printed line after the timestamp: `[type] [severity] message`. */
  function FormatLine(t: MessageType, s: Severity, text: string): (line: string)
    ensures |line| == |MessageTypeName(t)| + |SeverityName(s)| + |text| + 6
    ensures line[|line| - |text|..] == text
  {
    Tag(MessageTypeName(t)) + Tag(SeverityName(s)) + text
  }

  /** Removes `p` from the front of `s`, if it is there. */
  function StripPrefix(p: string, s: string): (r: Option<string>)
    ensures r.Some? <==> p <= s
    ensures r.Some? ==> p + r.value == s
  {
    if p <= s then Some(s[|p|..]) else None
  }

  /** Reads a message-type tag off the front of a line. */
  function ParseMessageType(line: string): (r: Option<(MessageType, string)>)
    ensures r.Some? ==> Tag(MessageTypeName(r.value.0)) + r.value.1 == line
  {
    if StripPrefix(Tag("General"), line).Some? then Some((General, StripPrefix(Tag("General"), line).value))
    else if StripPrefix(Tag("Validation"), line).Some? then Some((Validation, StripPrefix(Tag("Validation"), line).value))
    else if StripPrefix(Tag("Performance"), line).Some? then Some((Performance, StripPrefix(Tag("Performance"), line).value))
    else if StripPrefix(Tag("DeviceAddressBinding"), line).Some? then
      Some((DeviceAddressBinding, StripPrefix(Tag("DeviceAddressBinding"), line).value))
    else None
  }

  /** Reads a severity tag off the front of a line. */
  function ParseSeverity(line: string): (r: Option<(Severity, string)>)
    ensures r.Some? ==> Tag(SeverityName(r.value.0)) + r.value.1 == line
  {
    if StripPrefix(Tag("Verbose"), line).Some? then Some((Verbose, StripPrefix(Tag("Verbose"), line).value))
    else if StripPrefix(Tag("Info"), line).Some? then Some((Info, StripPrefix(Tag("Info"), line).value))
    else if StripPrefix(Tag("Warning"), line).Some? then Some((Warning, StripPrefix(Tag("Warning"), line).value))
    else if StripPrefix(Tag("Error"), line).Some? then Some((Error, StripPrefix(Tag("Error"), line).value))
    else None
  }

  /** Splits a printed line back into its type, severity and message. */
  function ParseLine(line: string): (r: Option<(MessageType, Severity, string)>)
    ensures r.Some? ==> FormatLine(r.value.0, r.value.1, r.value.2) == line
  {
    match ParseMessageType(line)
    case None => None
    case Some((t, rest)) =>
      match ParseSeverity(rest)
      case None => None
      case Some((s, text)) => Some((t, s, text))
  }

  lemma ParseMessageTypeTag(t: MessageType, rest: string)
    ensures ParseMessageType(Tag(MessageTypeName(t)) + rest) == Some((t, rest))
  {
    var line := Tag(MessageTypeName(t)) + rest;
    assert line[..|Tag(MessageTypeName(t))|] == Tag(MessageTypeName(t));
    assert line[1] == MessageTypeName(t)[0];
    assert line[|Tag(MessageTypeName(t))|..] == rest;
  }

  lemma ParseSeverityTag(s: Severity, rest: string)
    ensures ParseSeverity(Tag(SeverityName(s)) + rest) == Some((s, rest))
  {
    var line := Tag(SeverityName(s)) + rest;
    assert line[..|Tag(SeverityName(s))|] == Tag(SeverityName(s));
    assert line[1] == SeverityName(s)[0];
    assert line[|Tag(SeverityName(s))|..] == rest;
  }

  /** A printed line determines the message type, the severity and the
      message it was made from. */
  lemma FormatLineRoundTrip(t: MessageType, s: Severity, text: string)
    ensures ParseLine(FormatLine(t, s, text)) == Some((t, s, text))
  {
    var rest := Tag(SeverityName(s)) + text;
    assert FormatLine(t, s, text) == Tag(MessageTypeName(t)) + rest;
    ParseMessageTypeTag(t, rest);
    ParseSeverityTag(s, text);
  }

  /** What `message_as_c_str` and `to_str` make of the message pointer. */
  datatype MessageText = NullMessage | InvalidUtf8 | Utf8(text: string)

  /** The callback's effect: a panic in one of the decoders, or a return
      of the Vulkan boolean with at most one printed line. */
  datatype CallbackOutcome =
    | CallbackPanicked
    | CallbackReturned(value: bv32, line: Option<string>)

  /** `vulkan_debug_callback`. `data` is `None` for a null callback-data
      pointer. */
  function DebugCallback(severity: bv32, msgType: bv32, data: Option<MessageText>): (r: CallbackOutcome)
    ensures r.CallbackPanicked? <==> DecodeSeverity(severity).None? || DecodeMessageType(msgType).None?
    ensures r.CallbackReturned? ==> r.value == 0
    ensures r.CallbackReturned? ==> (r.line.Some? <==> data.Some? && data.value.Utf8?)
    ensures r.CallbackReturned? && r.line.Some? ==>
              ParseLine(r.line.value) == Some((DecodeMessageType(msgType).value, DecodeSeverity(severity).value, data.value.text))
  {
    match DecodeSeverity(severity)
    case None => CallbackPanicked
    case Some(s) =>
      match DecodeMessageType(msgType)
      case None => CallbackPanicked
      case Some(t) =>
        match data
        case Some(Utf8(text)) =>
          FormatLineRoundTrip(t, s, text);
          CallbackReturned(0, Some(FormatLine(t, s, text)))
        case _ => CallbackReturned(0, None)
  }

  /** The callback never asks Vulkan to abort the call that raised the
      message, whatever the message says. */
  lemma CallbackNeverAborts(severity: Severity, msgType: MessageType, data: Option<MessageText>)
    ensures DebugCallback(SeverityBits(severity), MessageTypeBits(msgType), data) ==
            CallbackReturned(0, if data.Some? && data.value.Utf8? then Some(FormatLine(msgType, severity, data.value.text)) else None)
  {
    SeverityRoundTrip(severity, SeverityBits(severity));
    MessageTypeRoundTrip(msgType, MessageTypeBits(msgType));
  }
}
