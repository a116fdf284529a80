/** The numbers of the USB 2.0 specification, written out: type codes (table 9-5), lengths and the
    offsets of the fields (tables 9-10, 9-12 and 9-13), in what is serialized and in what is parsed. */
module DescriptorLayout {
  import opened Bytes
  import opened Descriptors
  import opened DescriptorTheorems

  /** A 16-bit field at an offset: little endian, or in the order of a big-endian host. */
  predicate WordIs(b: seq<byte>, at: nat, w: word, big: bool) {
    at + 1 < |b| && w == (if big then b[at] as int * 256 + b[at + 1] else b[at] as int + b[at + 1] as int * 256)
  }

  /** Device, configuration, interface and endpoint end a run of other descriptors. */
  lemma StandardTypes(t: byte)
    ensures Standard(t) <==> t in {1, 2, 4, 5}
  {
  }

  /** The headers that the parser goes on with: up to 32 interfaces and up to 32 endpoints. */
  lemma HeadersAccepted(b: seq<byte>, p: nat)
    ensures ConfigHeaderOk(b, p) <==> p + 9 <= |b| && b[p + 1] == 2 && 9 <= b[p] <= |b| - p && b[p + 4] <= 32
    ensures AltHeaderOk(b, p) <==> p + 9 <= |b| && b[p + 1] == 4 && 9 <= b[p] <= |b| - p && b[p + 4] <= 32
  {
  }

  // ---------------------------------------------------------------- what is serialized

  lemma WordLaidOut(w: word, big: bool)
    ensures w == if big then First(big, w) as int * 256 + Second(big, w)
      else First(big, w) as int + Second(big, w) as int * 256
  {
  }

  predicate ConfigAt(b: seq<byte>, p: nat, c: Config, big: bool) {
    && p + 9 <= |b| && b[p] == c.bLength && b[p + 1] == c.bDescriptorType && WordIs(b, p + 2, c.wTotalLength, big)
    && b[p + 5] == c.bConfigurationValue && b[p + 6] == c.iConfiguration && b[p + 7] == c.bmAttributes
    && b[p + 8] == c.maxPower
  }

  predicate AltAt(b: seq<byte>, p: nat, a: AltSetting) {
    && p + 9 <= |b| && b[p] == a.bLength && b[p + 1] == a.bDescriptorType && b[p + 2] == a.bInterfaceNumber
    && b[p + 3] == a.bAlternateSetting && b[p + 5] == a.bInterfaceClass && b[p + 6] == a.bInterfaceSubClass
    && b[p + 7] == a.bInterfaceProtocol && b[p + 8] == a.iInterface
  }

  /** The last two fields are there in an audio endpoint only. */
  predicate EndpointAt(b: seq<byte>, p: nat, e: Endpoint, big: bool) {
    && p + 7 <= |b| && b[p] == e.bLength && b[p + 1] == e.bDescriptorType && b[p + 2] == e.bEndpointAddress
    && b[p + 3] == e.bmAttributes && WordIs(b, p + 4, e.wMaxPacketSize, big) && b[p + 6] == e.bInterval
    && (if e.bLength >= 9 then p + 9 <= |b| && b[p + 7] == e.bRefresh && b[p + 8] == e.bSynchAddress
        else e.bRefresh == 0 && e.bSynchAddress == 0)
  }

  /** A serialized configuration starts with 9, 2, its total length and the number of its interfaces;
      its extras and its interfaces follow. */
  lemma ConfigLaidOut(c: Config, big: bool)
    requires WellFormed(c)
    ensures var b := ConfigBytes(c, big);
      && ConfigAt(b, 0, c, big) && b[0] == 9 && b[1] == 2 && b[4] == |c.interfaces| <= 32
      && b[9..] == c.extra + InterfacesBytes(c.interfaces, big)
  {
    hide Tlvs, WellFormedInterfaces, InterfacesBytes, First, Second;
    WordLaidOut(c.wTotalLength, big);
    var h := ConfigHeader(c, big);
    assert ConfigBytes(c, big) == h + (c.extra + InterfacesBytes(c.interfaces, big));
  }

  /** A serialized interface starts with 9, 4, the fields of its first alternate setting and the
      number of that one's endpoints; extras, endpoints and the other alternate settings follow. */
  lemma InterfaceLaidOut(i: Interface, big: bool)
    requires WellFormedInterface(i)
    ensures var b, a := InterfaceBytes(i, big), i[0];
      && AltAt(b, 0, a) && b[0] == 9 && b[1] == 4 && b[4] == |a.endpoints| <= 32
      && b[9..] == a.extra + EndpointsBytes(a.endpoints, big) + InterfaceBytes(i[1..], big)
  {
    hide Tlvs, WellFormedEndpoints, EndpointsBytes;
    var a, rest := i[0], InterfaceBytes(i[1..], big);
    assert InterfaceBytes(i, big) == AltHeader(a) + (a.extra + EndpointsBytes(a.endpoints, big) + rest);
    hide InterfaceBytes;
  }

  /** A serialized endpoint starts with 7, or 9 if it is of audio, and 5; its extras follow. */
  lemma EndpointLaidOut(e: Endpoint, big: bool)
    requires WellFormedEndpoint(e)
    ensures var b := EndpointBytes(e, big);
      && EndpointAt(b, 0, e, big) && b[0] in {7, 9} && b[1] == 5 && b[b[0]..] == e.extra
  {
    hide Tlvs, First, Second;
    WordLaidOut(e.wMaxPacketSize, big);
    assert EndpointBytes(e, big) == EndpointHeader(e, big) + e.extra;
  }

  // ---------------------------------------------------------------- what is parsed

  /** A run of descriptors of other types, each of which is as long as it says. */
  lemma OtherDescriptors(x: seq<byte>)
    ensures x != [] ==> (Tlvs(x) <==>
      |x| >= 2 && 2 <= x[0] <= |x| && x[1] !in {1, 2, 4, 5} && Tlvs(x[x[0]..]))
  {
  }

  /** Where and why the loop over other descriptors ends, on any bytes. */
  ghost predicate SkippedTo(b: seq<byte>, p: nat, s: Skip, at: nat)
    requires p <= |b|
  {
    && p <= at <= |b| && Tlvs(b[p..at])
    && match s
       case BadLength => at + 2 <= |b| && b[at] < 2
       case Short(end) => end == at && at + 2 <= |b| && 2 <= b[at] && at + b[at] > |b|
       case Stop(end) =>
         end == at && (at + 2 > |b| || (2 <= b[at] && at + b[at] <= |b| && b[at + 1] in {1, 2, 4, 5}))
  }

  lemma {:induction false} SkipEnds(b: seq<byte>, p: nat)
    requires p <= |b|
    ensures exists at: nat :: SkippedTo(b, p, SkipExtras(b, p), at)
    decreases |b| - p
  {
    if |b| - p >= 2 && 2 <= b[p] <= |b| - p && !Standard(b[p + 1]) {
      SkipEnds(b, p + b[p]);
      var at: nat :| SkippedTo(b, p + b[p], SkipExtras(b, p + b[p]), at);
      var x := b[p..at];
      assert x[x[0]..] == b[p + b[p]..at];
      assert Tlvs(x);
      assert SkippedTo(b, p, SkipExtras(b, p), at);
    } else {
      assert b[p..p] == [];
      assert SkippedTo(b, p, SkipExtras(b, p), p);
    }
  }

  /** An endpoint that is read has the type 5, at least 7 bytes and these fields; nothing is consumed
      if the type is another or the descriptor is cut off, and too short a one is an error. */
  lemma EndpointRead(b: seq<byte>, p: nat, big: bool)
    requires p <= |b|
    ensures var r := ParsedEndpoint(b, p, big);
      && (r.Done? && r.end > p ==> EndpointAt(b, p, r.value, big) && b[p] >= 7 && b[p + 1] == 5)
      && (r.Done? && r.end == p <==> p + 2 <= |b| && (b[p + 1] != 5 || p + b[p] > |b|))
      && (p + 2 > |b| || (b[p + 1] == 5 && p + b[p] <= |b| && b[p] < 7) ==> r.Fail?)
  {
    hide SkipExtras;
  }

  /** An interface that is read has the type 4, at least 9 bytes and these fields, and no alternate
      setting of it has more than 32 endpoints. */
  lemma InterfaceRead(b: seq<byte>, p: nat, big: bool)
    requires p <= |b|
    ensures var r := ParsedInterface(b, p, big);
      && (r.Done? && r.end > p ==>
          |r.value| > 0 && AltAt(b, p, r.value[0]) && b[p] >= 9 && b[p + 1] == 4
            && |r.value[0].endpoints| <= b[p + 4] <= 32)
      && (r.Done? && r.end == p <==> p + 9 > |b| || b[p + 1] != 4 || (b[p] >= 9 && p + b[p] > |b|))
      && (p + 9 <= |b| && b[p + 1] == 4 && (b[p] < 9 || (p + b[p] <= |b| && b[p + 4] > 32)) ==> r.Fail?)
  {
    hide SkipExtras, ParsedEndpoints;
  }

  /** The other descriptors behind an endpoint are its extras, unless the last of them is cut off. */
  lemma EndpointExtras(b: seq<byte>, p: nat, big: bool)
    requires p <= |b| && ParsedEndpoint(b, p, big).Done? && ParsedEndpoint(b, p, big).end > p
    ensures p + b[p] <= |b|
    ensures var s, r := SkipExtras(b, p + b[p]), ParsedEndpoint(b, p, big);
      !s.BadLength? && r.end == s.at && r.value.extra == if s.Stop? then b[p + b[p]..r.end] else []
  {
  }

  /** So it is with an alternate setting, which is then left without endpoints. */
  lemma AltExtras(b: seq<byte>, p: nat, big: bool)
    requires AltHeaderOk(b, p) && ParsedAlt(b, p, big).Done?
    ensures var s, r := SkipExtras(b, p + b[p]), ParsedAlt(b, p, big);
      var (a, whole) := r.value;
      && !s.BadLength? && (whole <==> s.Stop?)
      && (if whole then a.extra == b[p + b[p]..s.at] && a.bNumEndpoints == |a.endpoints|
          else a.extra == [] && a.endpoints == [] && r.end == s.at)
  {
    hide SkipExtras;
  }

  /** A configuration that is read has the type 2, at least 9 bytes and these fields. */
  lemma ConfigRead(b: seq<byte>, p: nat, big: bool)
    ensures var r := ParsedConfig(b, p, big);
      && (r.Done? ==>
          ConfigAt(b, p, r.value, big) && b[p] >= 9 && b[p + 1] == 2 && |r.value.interfaces| <= b[p + 4] <= 32)
      && (r.Done? ==> r.value.bNumInterfaces == |r.value.interfaces|)
      && (p + 9 > |b| || b[p + 1] != 2 || b[p] < 9 || p + b[p] > |b| || b[p + 4] > 32 ==> r.Fail?)
  {
    hide ParsedInterfaces;
  }

  // ---------------------------------------------------------------- a mouse

  /** The 34 bytes of a mouse: a configuration, an interface with the descriptor of its class, an endpoint. */
  lemma Mouse(b: seq<byte>)
    requires b == [
      9, 2, 34, 0, 1, 1, 0, 0xa0, 50,
      9, 4, 0, 0, 1, 3, 1, 2, 0,
      9, 0x21, 0x11, 1, 0, 1, 0x22, 52, 0,
      7, 5, 0x81, 3, 4, 0, 10]
    ensures ParsedConfig(b, 0, false) == Done(34, Config(9, 2, 34, 1, 1, 0, 0xa0, 50, [],
      [[AltSetting(9, 4, 0, 0, 1, 3, 1, 2, 0, [9, 0x21, 0x11, 1, 0, 1, 0x22, 52, 0],
         [Endpoint(7, 5, 0x81, 3, 4, 10, 0, 0, [])])]]))
  {
    var hid: seq<byte> := [9, 0x21, 0x11, 1, 0, 1, 0x22, 52, 0];
    var e := Endpoint(7, 5, 0x81, 3, 4, 10, 0, 0, []);
    var a := AltSetting(9, 4, 0, 0, 1, 3, 1, 2, 0, hid, [e]);
    var c := Config(9, 2, 34, 1, 1, 0, 0xa0, 50, [], [[a]]);
    MouseHeaders(c, a, e);
    MouseWellFormed(c, a, e);
    OneOfEach(c, a, e);
    hide *;
    MouseJoined(b, c, a, e);
    RoundTrip(c, false);
  }

  lemma MouseHeaders(c: Config, a: AltSetting, e: Endpoint)
    requires e == Endpoint(7, 5, 0x81, 3, 4, 10, 0, 0, [])
    requires a == AltSetting(9, 4, 0, 0, 1, 3, 1, 2, 0, a.extra, [e])
    requires c == Config(9, 2, 34, 1, 1, 0, 0xa0, 50, [], [[a]])
    ensures EndpointBytes(e, false) == [7, 5, 0x81, 3, 4, 0, 10]
    ensures AltHeader(a) == [9, 4, 0, 0, 1, 3, 1, 2, 0]
    ensures ConfigHeader(c, false) == [9, 2, 34, 0, 1, 1, 0, 0xa0, 50]
  {
  }

  lemma MouseWellFormed(c: Config, a: AltSetting, e: Endpoint)
    requires e == Endpoint(7, 5, 0x81, 3, 4, 10, 0, 0, [])
    requires a == AltSetting(9, 4, 0, 0, 1, 3, 1, 2, 0, [9, 0x21, 0x11, 1, 0, 1, 0x22, 52, 0], [e])
    requires c == Config(9, 2, 34, 1, 1, 0, 0xa0, 50, [], [[a]])
    ensures WellFormed(c)
  {
    hide Tlvs, WellFormedInterfaces;
    OneDescriptor(a.extra);
    OneAlt(a, e);
    NoDescriptors();
  }

  lemma MouseJoined(b: seq<byte>, c: Config, a: AltSetting, e: Endpoint)
    requires ConfigBytes(c, false) == ConfigHeader(c, false) + c.extra
      + (AltHeader(a) + a.extra + EndpointBytes(e, false))
    requires c.extra == [] && a.extra == [9, 0x21, 0x11, 1, 0, 1, 0x22, 52, 0]
    requires EndpointBytes(e, false) == [7, 5, 0x81, 3, 4, 0, 10]
    requires AltHeader(a) == [9, 4, 0, 0, 1, 3, 1, 2, 0]
    requires ConfigHeader(c, false) == [9, 2, 34, 0, 1, 1, 0, 0xa0, 50]
    requires b == [
      9, 2, 34, 0, 1, 1, 0, 0xa0, 50,
      9, 4, 0, 0, 1, 3, 1, 2, 0,
      9, 0x21, 0x11, 1, 0, 1, 0x22, 52, 0,
      7, 5, 0x81, 3, 4, 0, 10]
    ensures ConfigBytes(c, false) == b && |b| == 34
  {
    hide ConfigBytes, ConfigHeader, AltHeader, EndpointBytes;
    assert ConfigHeader(c, false) + c.extra == ConfigHeader(c, false);
  }

  lemma OneDescriptor(x: seq<byte>)
    requires |x| >= 2 && x[0] == |x| && x[1] !in {1, 2, 4, 5}
    ensures Tlvs(x)
  {
    assert x[x[0]..] == [];
  }

  lemma OneAlt(a: AltSetting, e: Endpoint)
    requires a.bLength == 9 && a.bDescriptorType == 4 && Tlvs(a.extra) && a.bNumEndpoints == 1 && a.endpoints == [e]
    requires e.bLength == 7 && e.bDescriptorType == 5 && e.bRefresh == 0 && e.bSynchAddress == 0 && e.extra == []
    ensures WellFormedInterfaces([[a]])
  {
    hide Tlvs;
    assert Tlvs(e.extra) by { NoDescriptors(); }
    assert [e][1..] == [] && [a][1..] == [] && [[a]][1..] == [];
    assert WellFormedEndpoints([]);
    assert WellFormedAlts([], a.bInterfaceNumber);
    assert WellFormedInterface([a]);
  }

  lemma NoDescriptors()
    ensures Tlvs([])
  {
  }

  lemma OneOfEach(c: Config, a: AltSetting, e: Endpoint)
    requires c.interfaces == [[a]] && a.endpoints == [e]
    ensures ConfigBytes(c, false) == ConfigHeader(c, false) + c.extra
      + (AltHeader(a) + a.extra + EndpointBytes(e, false))
  {
    hide ConfigHeader, AltHeader, EndpointBytes;
    assert [e][1..] == [] && [a][1..] == [] && [[a]][1..] == [];
    assert EndpointsBytes([e], false) == EndpointBytes(e, false) + [];
    assert InterfaceBytes([a], false) == AltBytes(a, false) + [];
    assert InterfacesBytes([[a]], false) == InterfaceBytes([a], false) + [];
  }
}
