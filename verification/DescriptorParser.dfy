/** The parser of descriptor.c as it runs: loops that advance a position in the buffer, count
    down what is left of it and fill the descriptors one by one. Each method is tied to the
    function of Descriptors that says what it computes, on every buffer. */
module DescriptorParser {
  import opened Bytes
  import opened Descriptors

  const ERROR_IO := -1

  /** The return value of a parser that reports what it consumed. */
  function Consumed<T>(r: Result<T>, pos: nat): int {
    match r case Fail => ERROR_IO case Done(end, _) => end - pos
  }

  /** Class and vendor specific descriptors are skipped up to the next standard one. */
  method SkipExtraDescriptors(buf: array<byte>, pos: nat, size: nat) returns (s: Skip)
    requires pos + size == buf.Length
    ensures s == SkipExtras(buf[..], pos)
  {
    var p: nat, left: nat := pos, size;
    while left >= HEADER_LENGTH
      invariant p + left == buf.Length
      invariant SkipExtras(buf[..], p) == SkipExtras(buf[..], pos)
    {
      if buf[p] < HEADER_LENGTH {
        return BadLength;
      } else if buf[p] > left {
        return Short(p);
      }
      if Standard(buf[p + 1]) {
        break;
      }
      p, left := p + buf[p], left - buf[p];
    }
    return Stop(p);
  }

  method ParseEndpoint(buf: array<byte>, pos: nat, size: nat, big: bool) returns (r: int, endpoint: Endpoint)
    requires pos + size == buf.Length
    ensures r == Consumed(ParsedEndpoint(buf[..], pos, big), pos)
    ensures r >= 0 ==> ParsedEndpoint(buf[..], pos, big).value == endpoint
  {
    hide SkipExtras;
    endpoint := ZERO_ENDPOINT;
    if size < HEADER_LENGTH {
      return ERROR_IO, endpoint;
    }
    var length := buf[pos];
    if buf[pos + 1] != DT_ENDPOINT {
      return 0, endpoint;
    }
    if length > size {
      return 0, endpoint;
    }
    if length < ENDPOINT_LENGTH {
      return ERROR_IO, endpoint;
    }
    endpoint := EndpointFields(buf[..], pos, big);
    var parsed := length;
    var s := SkipExtraDescriptors(buf, pos + length, size - length);
    match s {
      case BadLength => return ERROR_IO, endpoint;
      case Short(at) => return at - pos, endpoint;
      case Stop(at) =>
        endpoint := endpoint.(extra := buf[pos + length..at]);
        assert buf[pos + length..at] == buf[..][pos + length..at];
        return at - pos, endpoint;
    }
  }

  /** What is still to be parsed, put behind the items that there are already. */
  ghost function Behind<T>(done: seq<T>, rest: Result<seq<T>>): Result<seq<T>> {
    match rest case Fail => Fail case Done(end, items) => Done(end, done + items)
  }

  lemma BehindNothing<T>(rest: Result<seq<T>>)
    ensures Behind([], rest) == rest
  {
    if rest.Done? { assert [] + rest.value == rest.value; }
  }

  lemma BehindOne<T>(done: seq<T>, item: T, rest: Result<seq<T>>)
    ensures Behind(done + [item], rest) == Behind(done, Behind([item], rest))
  {
    if rest.Done? { assert done + [item] + rest.value == done + ([item] + rest.value); }
  }

  method ParseEndpoints(buf: array<byte>, pos: nat, size: nat, count: byte, big: bool)
    returns (r: int, endpoints: seq<Endpoint>)
    requires pos + size == buf.Length
    ensures r == Consumed(ParsedEndpoints(buf[..], pos, count, big), pos)
    ensures r >= 0 ==> ParsedEndpoints(buf[..], pos, count, big).value == endpoints
  {
    hide ParsedEndpoint;
    var p: nat, left: nat := pos, size;
    endpoints := [];
    BehindNothing(ParsedEndpoints(buf[..], pos, count, big));
    for i := 0 to count
      invariant p + left == buf.Length && pos <= p
      invariant ParsedEndpoints(buf[..], pos, count, big)
        == Behind(endpoints, ParsedEndpoints(buf[..], p, count - i, big))
    {
      var n, endpoint := ParseEndpoint(buf, p, left, big);
      if n < 0 {
        return n, [];
      }
      if n == 0 {
        break;
      }
      BehindOne(endpoints, endpoint, ParsedEndpoints(buf[..], p + n, count - i - 1, big));
      p, left, endpoints := p + n, left - n, endpoints + [endpoint];
    }
    return p - pos, endpoints;
  }

  /** One alternate setting, whose header has been looked at: its extras and its endpoints. The
      flag tells whether the extras were whole. */
  method ParseAltSetting(buf: array<byte>, pos: nat, big: bool) returns (r: int, alt: AltSetting, whole: bool)
    requires AltHeaderOk(buf[..], pos)
    ensures r == Consumed(ParsedAlt(buf[..], pos, big), pos)
    ensures r >= 0 ==> ParsedAlt(buf[..], pos, big).value == (alt, whole)
  {
    hide SkipExtras, ParsedEndpoints;
    alt, whole := AltFields(buf[..], pos), false;
    var begin := pos + alt.bLength;
    var s := SkipExtraDescriptors(buf, begin, buf.Length - begin);
    if s.BadLength? {
      return ERROR_IO, alt, whole;
    }
    if s.Short? {
      return s.at - pos, alt, whole;
    }
    assert buf[begin..s.at] == buf[..][begin..s.at];
    var n, endpoints := ParseEndpoints(buf, s.at, buf.Length - s.at, alt.bNumEndpoints, big);
    if n < 0 {
      return n, alt, whole;
    }
    alt := alt.(extra := buf[begin..s.at], endpoints := endpoints, bNumEndpoints := |endpoints|);
    return s.at + n - pos, alt, true;
  }

  /** One turn of the loop over the alternate settings: how it ends, or how it goes on. */
  lemma InterfaceTurn(b: seq<byte>, p: nat, big: bool)
    requires p <= |b|
    ensures var r := ParsedInterface(b, p, big);
      && (|b| - p < INTERFACE_LENGTH || b[p + 1] != DT_INTERFACE ==> r == Done(p, []))
      && (|b| - p >= INTERFACE_LENGTH && b[p + 1] == DT_INTERFACE && b[p] < INTERFACE_LENGTH ==> r == Fail)
      && (|b| - p >= INTERFACE_LENGTH && b[p + 1] == DT_INTERFACE && b[p] > |b| - p ==> r == Done(p, []))
      && (&& |b| - p >= INTERFACE_LENGTH && b[p + 1] == DT_INTERFACE
          && INTERFACE_LENGTH <= b[p] <= |b| - p && b[p + 4] > MAXENDPOINTS ==>
            r == Fail)
      && (AltHeaderOk(b, p) ==>
          var a := ParsedAlt(b, p, big);
          && (a.Fail? ==> r == Fail)
          && (a.Done? && (!a.value.1 || !Alternate(b, a.end, b[p + 2])) ==> r == Done(a.end, [a.value.0]))
          && (a.Done? && a.value.1 && Alternate(b, a.end, b[p + 2])
            ==> r == Behind([a.value.0], ParsedInterface(b, a.end, big))))
  {
    hide ParsedAlt;
  }

  method ParseInterface(buf: array<byte>, pos: nat, size: nat, big: bool) returns (r: int, alts: Interface)
    requires pos + size == buf.Length
    ensures r == Consumed(ParsedInterface(buf[..], pos, big), pos)
    ensures r >= 0 ==> ParsedInterface(buf[..], pos, big).value == alts
  {
    hide ParsedAlt, ParsedInterface;
    var p: nat, left: nat, number: int := pos, size, -1;
    alts := [];
    BehindNothing(ParsedInterface(buf[..], pos, big));
    while left >= INTERFACE_LENGTH
      invariant p + left == buf.Length && pos <= p
      invariant number == -1 || (left >= INTERFACE_LENGTH && buf[p + 2] == number)
      invariant ParsedInterface(buf[..], pos, big) == Behind(alts, ParsedInterface(buf[..], p, big))
    {
      InterfaceTurn(buf[..], p, big);
      assert alts + [] == alts;
      if buf[p + 1] != DT_INTERFACE {
        return p - pos, alts;
      }
      if buf[p] < INTERFACE_LENGTH {
        return ERROR_IO, [];
      }
      if buf[p] > left {
        return p - pos, alts;
      }
      if buf[p + 4] > MAXENDPOINTS {
        return ERROR_IO, [];
      }
      if number == -1 {
        number := buf[p + 2];
      }
      var n, alt, whole := ParseAltSetting(buf, p, big);
      if n < 0 {
        return n, [];
      }
      BehindOne(alts, alt, ParsedInterface(buf[..], p + n, big));
      p, left, alts := p + n, left - n, alts + [alt];
      if !whole || left < INTERFACE_LENGTH || buf[p + 1] != DT_INTERFACE || buf[p + 2] != number {
        return p - pos, alts;
      }
    }
    InterfaceTurn(buf[..], p, big);
    assert alts + [] == alts;
    return p - pos, alts;
  }

  /** The same for the interfaces of a configuration, whose extras come with them. */
  ghost function BehindInterfaces(done: seq<Interface>, rest: Result<(seq<byte>, seq<Interface>)>)
    : Result<(seq<byte>, seq<Interface>)>
  {
    match rest case Fail => Fail case Done(end, (x, items)) => Done(end, (x, done + items))
  }

  lemma BehindNone(rest: Result<(seq<byte>, seq<Interface>)>)
    ensures BehindInterfaces([], rest) == rest
  {
    if rest.Done? { assert [] + rest.value.1 == rest.value.1; }
  }

  lemma BehindInterface(done: seq<Interface>, item: Interface, rest: Result<(seq<byte>, seq<Interface>)>)
    ensures BehindInterfaces(done + [item], rest) == BehindInterfaces(done, BehindInterfaces([item], rest))
  {
    if rest.Done? { assert done + [item] + rest.value.1 == done + ([item] + rest.value.1); }
  }

  /** One turn of the loop over the interfaces: how it ends, or how it goes on. */
  lemma InterfacesTurn(b: seq<byte>, p: nat, n: nat, extra: seq<byte>, big: bool)
    requires p <= |b|
    ensures n == 0 ==> ParsedInterfaces(b, p, n, extra, big) == Done(p, (extra, []))
    ensures n > 0 ==>
      var r := ParsedInterfaces(b, p, n, extra, big);
      var s := SkipExtras(b, p);
      && (s.BadLength? ==> r == Fail)
      && (s.Short? ==> r == Done(s.at, (extra, [])))
      && (s.Stop? ==>
          var x := Kept(extra, b[p..s.at]);
          var i := ParsedInterface(b, s.at, big);
          && (i.Fail? ==> r == Fail)
          && (i.Done? && i.end == s.at ==> r == Done(s.at, (x, [])))
          && (i.Done? && i.end > s.at ==> r == BehindInterfaces([i.value], ParsedInterfaces(b, i.end, n - 1, x, big))))
  {
    hide SkipExtras, ParsedInterface, Kept;
  }

  /** The loop over the interfaces; how many were complete is the number of them that it returns. */
  method ParseInterfaces(buf: array<byte>, pos: nat, count: byte, big: bool)
    returns (r: int, extra: seq<byte>, interfaces: seq<Interface>)
    requires pos <= buf.Length
    ensures var c := ParsedInterfaces(buf[..], pos, count, [], big);
      if c.Fail? then r == ERROR_IO else r == buf.Length - c.end >= 0 && (extra, interfaces) == c.value
  {
    hide SkipExtras, ParsedInterface, ParsedInterfaces;
    var p: nat := pos;
    extra, interfaces := [], [];
    BehindNone(ParsedInterfaces(buf[..], pos, count, [], big));
    for i := 0 to count
      invariant p <= buf.Length && |interfaces| == i
      invariant ParsedInterfaces(buf[..], pos, count, [], big) ==
        BehindInterfaces(interfaces, ParsedInterfaces(buf[..], p, count - i, extra, big))
    {
      InterfacesTurn(buf[..], p, count - i, extra, big);
      assert interfaces + [] == interfaces;
      var s := SkipExtraDescriptors(buf, p, buf.Length - p);
      if s.BadLength? {
        return ERROR_IO, extra, interfaces;
      }
      if s.Short? {
        return buf.Length - s.at, extra, interfaces;
      }
      ghost var kept := Kept(extra, buf[..][p..s.at]);
      if s.at > p && extra == [] {
        extra := buf[p..s.at];
      }
      assert extra == kept;
      p := s.at;
      var n, alts := ParseInterface(buf, p, buf.Length - p, big);
      if n < 0 {
        return n, extra, interfaces;
      }
      if n == 0 {
        return buf.Length - p, extra, interfaces;
      }
      BehindInterface(interfaces, alts, ParsedInterfaces(buf[..], p + n, count - i - 1, extra, big));
      p, interfaces := p + n, interfaces + [alts];
    }
    InterfacesTurn(buf[..], p, 0, extra, big);
    assert interfaces + [] == interfaces;
    return buf.Length - p, extra, interfaces;
  }

  /** Returns what is left of the buffer, or the error. */
  method ParseConfiguration(buf: array<byte>, big: bool) returns (r: int, config: Config)
    ensures var c := ParsedConfig(buf[..], 0, big);
      if c.Fail? then r == ERROR_IO else r == buf.Length - c.end >= 0 && config == c.value
  {
    hide ParsedInterfaces;
    config := Config(0, 0, 0, 0, 0, 0, 0, 0, [], []);
    if buf.Length < CONFIG_LENGTH {
      return ERROR_IO, config;
    }
    config := ConfigFields(buf[..], 0, big);
    if config.bDescriptorType != DT_CONFIG || config.bLength < CONFIG_LENGTH || config.bLength > buf.Length ||
      config.bNumInterfaces > MAXINTERFACES
    {
      return ERROR_IO, config;
    }
    var extra, interfaces;
    r, extra, interfaces := ParseInterfaces(buf, config.bLength, config.bNumInterfaces, big);
    if r >= 0 {
      config := config.(extra := extra, interfaces := interfaces, bNumInterfaces := |interfaces|);
    }
  }
}
