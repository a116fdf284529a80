/** USB descriptors: the tree that libusb builds, the bytes that describe it (sections 9.6.3,
    9.6.5 and 9.6.6 of the USB 2.0 specification), and what the parser of descriptor.c makes
    of arbitrary bytes. */
module Descriptors {
  import opened Bytes

  const DT_DEVICE: byte := 1
  const DT_CONFIG: byte := 2
  const DT_INTERFACE: byte := 4
  const DT_ENDPOINT: byte := 5
  const HEADER_LENGTH := 2
  const CONFIG_LENGTH := 9
  const INTERFACE_LENGTH := 9
  const ENDPOINT_LENGTH := 7
  const ENDPOINT_AUDIO_LENGTH := 9
  const MAXENDPOINTS := 32
  const MAXINTERFACES := 32

  datatype Endpoint = Endpoint(
    bLength: byte, bDescriptorType: byte, bEndpointAddress: byte, bmAttributes: byte,
    wMaxPacketSize: word, bInterval: byte, bRefresh: byte, bSynchAddress: byte,
    extra: seq<byte>)

  datatype AltSetting = AltSetting(
    bLength: byte, bDescriptorType: byte, bInterfaceNumber: byte, bAlternateSetting: byte,
    bNumEndpoints: byte, bInterfaceClass: byte, bInterfaceSubClass: byte, bInterfaceProtocol: byte,
    iInterface: byte,
    extra: seq<byte>, endpoints: seq<Endpoint>)

  type Interface = seq<AltSetting>

  datatype Config = Config(
    bLength: byte, bDescriptorType: byte, wTotalLength: word, bNumInterfaces: byte,
    bConfigurationValue: byte, iConfiguration: byte, bmAttributes: byte, maxPower: byte,
    extra: seq<byte>, interfaces: seq<Interface>)

  /** Fail is LIBUSB_ERROR_IO; otherwise where parsing ended and what was built. */
  datatype Result<T> = Fail | Done(end: nat, value: T)

  // ---------------------------------------------------------------- what the parser computes
  // Every function parses the buffer b from position p on, with |b| - p bytes left.

  predicate Standard(t: byte) {
    t == DT_ENDPOINT || t == DT_INTERFACE || t == DT_CONFIG || t == DT_DEVICE
  }

  /** A 16-bit field: little endian, unless the descriptor is in the order of a big-endian host. */
  function Word(big: bool, first: byte, second: byte): word {
    if big then first * 256 + second else second * 256 + first
  }

  /** The loop over class and vendor specific descriptors: it stops at a standard one or at
      the end, gives up at one that is longer than what is left, fails at one that is too short. */
  datatype Skip = BadLength | Short(at: nat) | Stop(at: nat)

  function SkipExtras(b: seq<byte>, p: nat): (s: Skip)
    requires p <= |b|
    ensures !s.BadLength? ==> p <= s.at <= |b|
    decreases |b| - p
  {
    if |b| - p < HEADER_LENGTH then Stop(p)
    else if b[p] < HEADER_LENGTH then BadLength
    else if b[p] > |b| - p then Short(p)
    else if Standard(b[p + 1]) then Stop(p)
    else SkipExtras(b, p + b[p])
  }

  function EndpointFields(b: seq<byte>, p: nat, big: bool): Endpoint
    requires p + ENDPOINT_LENGTH <= |b| && (b[p] >= ENDPOINT_AUDIO_LENGTH ==> p + ENDPOINT_AUDIO_LENGTH <= |b|)
  {
    var audio := b[p] >= ENDPOINT_AUDIO_LENGTH;
    Endpoint(b[p], b[p + 1], b[p + 2], b[p + 3], Word(big, b[p + 4], b[p + 5]), b[p + 6],
      if audio then b[p + 7] else 0, if audio then b[p + 8] else 0, [])
  }

  const ZERO_ENDPOINT := Endpoint(0, 0, 0, 0, 0, 0, 0, 0, [])

  /** parse_endpoint; ending where it began is its return value 0. */
  function ParsedEndpoint(b: seq<byte>, p: nat, big: bool): (r: Result<Endpoint>)
    requires p <= |b|
    ensures r.Done? ==> p <= r.end <= |b|
  {
    if |b| - p < HEADER_LENGTH then Fail
    else if b[p + 1] != DT_ENDPOINT || b[p] > |b| - p then Done(p, ZERO_ENDPOINT)
    else if b[p] < ENDPOINT_LENGTH then Fail
    else
      var q := p + b[p];
      match SkipExtras(b, q)
      case BadLength => Fail
      case Short(at) => Done(at, EndpointFields(b, p, big))
      case Stop(at) => Done(at, EndpointFields(b, p, big).(extra := b[q..at]))
  }

  /** The loop over the endpoints of an alternate setting, at most n of them. */
  function ParsedEndpoints(b: seq<byte>, p: nat, n: nat, big: bool): (r: Result<seq<Endpoint>>)
    requires p <= |b|
    ensures r.Done? ==> p <= r.end <= |b| && |r.value| <= n
    decreases n
  {
    if n == 0 then Done(p, [])
    else match ParsedEndpoint(b, p, big)
      case Fail => Fail
      case Done(q, e) =>
        if q == p then Done(p, [])
        else match ParsedEndpoints(b, q, n - 1, big)
          case Fail => Fail
          case Done(end, es) => Done(end, [e] + es)
  }

  function AltFields(b: seq<byte>, p: nat): AltSetting
    requires p + INTERFACE_LENGTH <= |b|
  {
    AltSetting(b[p], b[p + 1], b[p + 2], b[p + 3], b[p + 4], b[p + 5], b[p + 6], b[p + 7], b[p + 8], [], [])
  }

  /** What parse_interface checks before it goes on to an alternate setting. */
  predicate AltHeaderOk(b: seq<byte>, p: nat) {
    p + INTERFACE_LENGTH <= |b| && b[p + 1] == DT_INTERFACE && INTERFACE_LENGTH <= b[p] <= |b| - p
      && b[p + 4] <= MAXENDPOINTS
  }

  /** One alternate setting: the flag tells whether its extras were whole, so that the loop may go on. */
  function ParsedAlt(b: seq<byte>, p: nat, big: bool): (r: Result<(AltSetting, bool)>)
    requires AltHeaderOk(b, p)
    ensures r.Done? ==> p + b[p] <= r.end <= |b|
  {
    var q := p + b[p];
    match SkipExtras(b, q)
    case BadLength => Fail
    case Short(at) => Done(at, (AltFields(b, p), false))
    case Stop(at) =>
      match ParsedEndpoints(b, at, b[p + 4], big)
      case Fail => Fail
      case Done(end, es) =>
        Done(end, (AltFields(b, p).(extra := b[q..at], endpoints := es, bNumEndpoints := |es|), true))
  }

  /** The end of the loop in parse_interface: is what follows an alternate of the same interface? */
  predicate Alternate(b: seq<byte>, p: nat, number: byte) {
    p + INTERFACE_LENGTH <= |b| && b[p + 1] == DT_INTERFACE && b[p + 2] == number
  }

  /** parse_interface; the number is that of the first alternate setting, once there is one. */
  function ParsedInterface(b: seq<byte>, p: nat, big: bool): (r: Result<Interface>)
    requires p <= |b|
    ensures r.Done? ==> p <= r.end <= |b|
    decreases |b| - p
  {
    if |b| - p < INTERFACE_LENGTH || b[p + 1] != DT_INTERFACE then Done(p, [])
    else if b[p] < INTERFACE_LENGTH then Fail
    else if b[p] > |b| - p then Done(p, [])
    else if b[p + 4] > MAXENDPOINTS then Fail
    else match ParsedAlt(b, p, big)
      case Fail => Fail
      case Done(q, (alt, whole)) =>
        if !whole || !Alternate(b, q, b[p + 2]) then Done(q, [alt])
        else match ParsedInterface(b, q, big)
          case Fail => Fail
          case Done(end, alts) => Done(end, [alt] + alts)
  }

  /** config->extra is filled by the first extras that are found and never appended to. */
  function Kept(extra: seq<byte>, found: seq<byte>): seq<byte> {
    if extra == [] then found else extra
  }

  /** The loop over the interfaces of a configuration, at most n of them, with the
      configuration's own extras as collected so far. */
  function ParsedInterfaces(b: seq<byte>, p: nat, n: nat, extra: seq<byte>, big: bool)
    : (r: Result<(seq<byte>, seq<Interface>)>)
    requires p <= |b|
    ensures r.Done? ==> p <= r.end <= |b| && |r.value.1| <= n
    decreases n
  {
    if n == 0 then Done(p, (extra, []))
    else match SkipExtras(b, p)
      case BadLength => Fail
      case Short(at) => Done(at, (extra, []))
      case Stop(at) =>
        var extra' := Kept(extra, b[p..at]);
        match ParsedInterface(b, at, big)
        case Fail => Fail
        case Done(q, alts) =>
          if q == at then Done(at, (extra', []))
          else match ParsedInterfaces(b, q, n - 1, extra', big)
            case Fail => Fail
            case Done(end, (x, ifs)) => Done(end, (x, [alts] + ifs))
  }

  function ConfigFields(b: seq<byte>, p: nat, big: bool): Config
    requires p + CONFIG_LENGTH <= |b|
  {
    Config(b[p], b[p + 1], Word(big, b[p + 2], b[p + 3]), b[p + 4], b[p + 5], b[p + 6], b[p + 7], b[p + 8], [], [])
  }

  predicate ConfigHeaderOk(b: seq<byte>, p: nat) {
    p + CONFIG_LENGTH <= |b| && b[p + 1] == DT_CONFIG && CONFIG_LENGTH <= b[p] <= |b| - p && b[p + 4] <= MAXINTERFACES
  }

  /** parse_configuration, whose return value is what is left: |b| - end. */
  function ParsedConfig(b: seq<byte>, p: nat, big: bool): (r: Result<Config>)
    ensures r.Done? ==> p <= r.end <= |b|
  {
    if !ConfigHeaderOk(b, p) then Fail
    else match ParsedInterfaces(b, p + b[p], b[p + 4], [], big)
      case Fail => Fail
      case Done(end, (x, ifs)) =>
        Done(end, ConfigFields(b, p, big).(extra := x, interfaces := ifs, bNumInterfaces := |ifs|))
  }

  // ---------------------------------------------------------------- the bytes of a tree

  function First(big: bool, w: word): byte {
    if big then w / 256 else w % 256
  }

  function Second(big: bool, w: word): byte {
    if big then w % 256 else w / 256
  }

  function EndpointHeader(e: Endpoint, big: bool): seq<byte> {
    var w := e.wMaxPacketSize;
    if e.bLength >= ENDPOINT_AUDIO_LENGTH then
      [e.bLength, e.bDescriptorType, e.bEndpointAddress, e.bmAttributes,
       First(big, w), Second(big, w), e.bInterval, e.bRefresh, e.bSynchAddress]
    else
      [e.bLength, e.bDescriptorType, e.bEndpointAddress, e.bmAttributes,
       First(big, w), Second(big, w), e.bInterval]
  }

  function EndpointBytes(e: Endpoint, big: bool): seq<byte> {
    EndpointHeader(e, big) + e.extra
  }

  function EndpointsBytes(es: seq<Endpoint>, big: bool): seq<byte> {
    if es == [] then [] else EndpointBytes(es[0], big) + EndpointsBytes(es[1..], big)
  }

  function AltHeader(a: AltSetting): seq<byte> {
    [a.bLength, a.bDescriptorType, a.bInterfaceNumber, a.bAlternateSetting, a.bNumEndpoints,
     a.bInterfaceClass, a.bInterfaceSubClass, a.bInterfaceProtocol, a.iInterface]
  }

  function AltBytes(a: AltSetting, big: bool): seq<byte> {
    AltHeader(a) + a.extra + EndpointsBytes(a.endpoints, big)
  }

  function InterfaceBytes(i: Interface, big: bool): seq<byte> {
    if i == [] then [] else AltBytes(i[0], big) + InterfaceBytes(i[1..], big)
  }

  function InterfacesBytes(ifs: seq<Interface>, big: bool): seq<byte> {
    if ifs == [] then [] else InterfaceBytes(ifs[0], big) + InterfacesBytes(ifs[1..], big)
  }

  function ConfigHeader(c: Config, big: bool): seq<byte> {
    [c.bLength, c.bDescriptorType, First(big, c.wTotalLength), Second(big, c.wTotalLength),
     c.bNumInterfaces, c.bConfigurationValue, c.iConfiguration, c.bmAttributes, c.maxPower]
  }

  function ConfigBytes(c: Config, big: bool): seq<byte> {
    ConfigHeader(c, big) + c.extra + InterfacesBytes(c.interfaces, big)
  }

  // ---------------------------------------------------------------- well-formed trees

  /** A sequence of whole descriptors of non-standard types. */
  predicate Tlvs(x: seq<byte>) {
    x == [] ||
    (|x| >= HEADER_LENGTH && HEADER_LENGTH <= x[0] <= |x| && !Standard(x[1]) && Tlvs(x[x[0]..]))
  }

  predicate WellFormedEndpoint(e: Endpoint) {
    && e.bDescriptorType == DT_ENDPOINT && Tlvs(e.extra)
    && (e.bLength == ENDPOINT_AUDIO_LENGTH || (e.bLength == ENDPOINT_LENGTH && e.bRefresh == 0 && e.bSynchAddress == 0))
  }

  predicate WellFormedEndpoints(es: seq<Endpoint>) {
    es == [] || (WellFormedEndpoint(es[0]) && WellFormedEndpoints(es[1..]))
  }

  predicate WellFormedAlt(a: AltSetting) {
    && a.bLength == INTERFACE_LENGTH && a.bDescriptorType == DT_INTERFACE && Tlvs(a.extra)
    && a.bNumEndpoints == |a.endpoints| <= MAXENDPOINTS && WellFormedEndpoints(a.endpoints)
  }

  /** Alternate settings that share an interface number. */
  predicate WellFormedAlts(i: seq<AltSetting>, number: byte) {
    i == [] || (WellFormedAlt(i[0]) && i[0].bInterfaceNumber == number && WellFormedAlts(i[1..], number))
  }

  predicate WellFormedInterface(i: Interface) {
    i != [] && WellFormedAlts(i, i[0].bInterfaceNumber)
  }

  /** Neighbouring interfaces have different numbers. */
  predicate WellFormedInterfaces(ifs: seq<Interface>) {
    ifs == [] ||
    (&& WellFormedInterface(ifs[0]) && WellFormedInterfaces(ifs[1..])
     && (|ifs| > 1 ==> ifs[1..][0][0].bInterfaceNumber != ifs[0][0].bInterfaceNumber))
  }

  predicate WellFormed(c: Config) {
    && c.bLength == CONFIG_LENGTH && c.bDescriptorType == DT_CONFIG
    && Tlvs(c.extra) && (c.interfaces == [] ==> c.extra == [])
    && c.bNumInterfaces == |c.interfaces| <= MAXINTERFACES
    && WellFormedInterfaces(c.interfaces)
  }
}
