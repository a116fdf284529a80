/** The parser undoes the serializer. */
module DescriptorTheorems {
  import opened Bytes
  import opened Descriptors

  // ---------------------------------------------------------------- bytes in a buffer

  predicate At(b: seq<byte>, p: nat, x: seq<byte>) {
    p + |x| <= |b| && b[p..p + |x|] == x
  }

  lemma AtSplit(b: seq<byte>, p: nat, x: seq<byte>, y: seq<byte>)
    requires At(b, p, x + y)
    ensures At(b, p, x) && At(b, p + |x|, y)
  {
    assert b[p..p + |x|] == (x + y)[..|x|];
    assert b[p + |x|..p + |x| + |y|] == (x + y)[|x|..];
  }

  lemma AtByte(b: seq<byte>, p: nat, x: seq<byte>)
    requires At(b, p, x)
    ensures forall k :: 0 <= k < |x| ==> x[k] == b[p + k]
  {
    assert forall k :: 0 <= k < |x| ==> x[k] == b[p..p + |x|][k];
  }

  // ---------------------------------------------------------------- round trip

  /** What may follow extras: the skip loop stops right here. */
  predicate Stops(b: seq<byte>, p: nat) {
    p <= |b| && SkipExtras(b, p) == Stop(p)
  }

  lemma {:induction false} SkipTlvs(b: seq<byte>, p: nat, x: seq<byte>)
    requires At(b, p, x) && Tlvs(x) && Stops(b, p + |x|)
    ensures SkipExtras(b, p) == Stop(p + |x|)
    decreases |x|
  {
    if x != [] {
      var k := x[0];
      assert x == x[..k] + x[k..];
      AtSplit(b, p, x[..k], x[k..]);
      AtByte(b, p, x);
      assert b[p] == x[0] && b[p + 1] == x[1];
      SkipTlvs(b, p + k, x[k..]);
    }
  }

  lemma WordRoundTrip(big: bool, w: word)
    ensures Word(big, First(big, w), Second(big, w)) == w
  {
  }

  lemma EndpointStart(b: seq<byte>, p: nat, e: Endpoint, big: bool)
    requires At(b, p, EndpointHeader(e, big)) && WellFormedEndpoint(e)
    ensures p + ENDPOINT_LENGTH <= p + e.bLength <= |b|
    ensures b[p] == e.bLength && b[p + 1] == DT_ENDPOINT && EndpointFields(b, p, big) == e.(extra := [])
  {
    var h := EndpointHeader(e, big);
    AtByte(b, p, h);
    assert b[p] == h[0] && b[p + 1] == h[1] && b[p + 2] == h[2] && b[p + 3] == h[3];
    assert b[p + 4] == h[4] && b[p + 5] == h[5] && b[p + 6] == h[6];
    assert |h| == 9 ==> b[p + 7] == h[7] && b[p + 8] == h[8];
    WordRoundTrip(big, e.wMaxPacketSize);
  }

  lemma EndpointParsed(b: seq<byte>, p: nat, e: Endpoint, big: bool, at: nat)
    requires p + ENDPOINT_LENGTH <= p + e.bLength <= |b| && b[p] == e.bLength && b[p + 1] == DT_ENDPOINT
    requires EndpointFields(b, p, big) == e.(extra := [])
    requires SkipExtras(b, p + e.bLength) == Stop(at) && b[p + e.bLength..at] == e.extra
    ensures ParsedEndpoint(b, p, big) == Done(at, e) && Stops(b, p)
  {
  }

  lemma EndpointRoundTrip(b: seq<byte>, p: nat, e: Endpoint, big: bool)
    requires WellFormedEndpoint(e) && At(b, p, EndpointBytes(e, big)) && Stops(b, p + |EndpointBytes(e, big)|)
    ensures ParsedEndpoint(b, p, big) == Done(p + |EndpointBytes(e, big)|, e)
    ensures Stops(b, p)
  {
    hide SkipExtras, ParsedEndpoint, EndpointFields;
    AtSplit(b, p, EndpointHeader(e, big), e.extra);
    EndpointStart(b, p, e, big);
    SkipTlvs(b, p + e.bLength, e.extra);
    EndpointParsed(b, p, e, big, p + |EndpointBytes(e, big)|);
  }

  lemma EndpointsStep(b: seq<byte>, p: nat, n: nat, big: bool, q: nat, e: Endpoint, end: nat, es: seq<Endpoint>)
    requires p < q <= |b| && n > 0 && ParsedEndpoint(b, p, big) == Done(q, e)
    requires ParsedEndpoints(b, q, n - 1, big) == Done(end, es)
    ensures ParsedEndpoints(b, p, n, big) == Done(end, [e] + es)
  {
    hide ParsedEndpoint;
  }

  lemma {:induction false} EndpointsRoundTrip(b: seq<byte>, p: nat, es: seq<Endpoint>, big: bool)
    requires WellFormedEndpoints(es) && At(b, p, EndpointsBytes(es, big)) && Stops(b, p + |EndpointsBytes(es, big)|)
    ensures ParsedEndpoints(b, p, |es|, big) == Done(p + |EndpointsBytes(es, big)|, es)
    ensures Stops(b, p)
    decreases |es|
  {
    hide At, ParsedEndpoint, ParsedEndpoints, SkipExtras, WellFormedEndpoint, EndpointBytes, Tlvs;
    if es == [] {
      NoEndpoints(b, p, big);
    } else {
      var first, rest := EndpointBytes(es[0], big), EndpointsBytes(es[1..], big);
      EndpointLonger(es[0], big);
      AtSplit(b, p, first, rest);
      EndpointsRoundTrip(b, p + |first|, es[1..], big);
      EndpointRoundTrip(b, p, es[0], big);
      AtLength(b, p, first + rest);
      EndpointsStep(b, p, |es|, big, p + |first|, es[0], p + |first| + |rest|, es[1..]);
      assert [es[0]] + es[1..] == es;
    }
  }

  lemma NoEndpoints(b: seq<byte>, p: nat, big: bool)
    requires p <= |b|
    ensures ParsedEndpoints(b, p, 0, big) == Done(p, [])
  {
  }

  lemma AtLength(b: seq<byte>, p: nat, x: seq<byte>)
    requires At(b, p, x)
    ensures p + |x| <= |b|
  {
  }

  lemma EndpointLonger(e: Endpoint, big: bool)
    ensures |EndpointBytes(e, big)| > 0
  {
  }

  lemma AltStart(b: seq<byte>, p: nat, a: AltSetting)
    requires At(b, p, AltHeader(a)) && WellFormedAlt(a)
    ensures AltHeaderOk(b, p) && b[p] == INTERFACE_LENGTH && b[p + 2] == a.bInterfaceNumber && b[p + 4] == |a.endpoints|
    ensures AltFields(b, p) == a.(extra := [], endpoints := []) && Stops(b, p)
  {
    var h := AltHeader(a);
    AtByte(b, p, h);
    assert b[p] == h[0] && b[p + 1] == h[1] && b[p + 2] == h[2] && b[p + 3] == h[3] && b[p + 4] == h[4];
    assert b[p + 5] == h[5] && b[p + 6] == h[6] && b[p + 7] == h[7] && b[p + 8] == h[8];
  }

  lemma AltParsed(b: seq<byte>, p: nat, a: AltSetting, big: bool, at: nat, end: nat)
    requires AltHeaderOk(b, p) && b[p] == INTERFACE_LENGTH && b[p + 4] == |a.endpoints| == a.bNumEndpoints
    requires AltFields(b, p) == a.(extra := [], endpoints := [])
    requires SkipExtras(b, p + INTERFACE_LENGTH) == Stop(at) && b[p + INTERFACE_LENGTH..at] == a.extra
    requires ParsedEndpoints(b, at, |a.endpoints|, big) == Done(end, a.endpoints)
    ensures ParsedAlt(b, p, big) == Done(end, (a, true))
  {
    hide SkipExtras, ParsedEndpoints;
  }

  lemma AltRoundTrip(b: seq<byte>, p: nat, a: AltSetting, big: bool)
    requires WellFormedAlt(a) && At(b, p, AltBytes(a, big)) && Stops(b, p + |AltBytes(a, big)|)
    ensures AltHeaderOk(b, p) && b[p + 2] == a.bInterfaceNumber && Stops(b, p)
    ensures ParsedAlt(b, p, big) == Done(p + |AltBytes(a, big)|, (a, true))
  {
    hide SkipExtras, ParsedEndpoints, ParsedAlt, EndpointsBytes, AltHeaderOk, AltFields;
    var es := EndpointsBytes(a.endpoints, big);
    var at := p + INTERFACE_LENGTH + |a.extra|;
    AtSplit(b, p, AltHeader(a) + a.extra, es);
    AtSplit(b, p, AltHeader(a), a.extra);
    AltStart(b, p, a);
    EndpointsRoundTrip(b, at, a.endpoints, big);
    SkipTlvs(b, p + INTERFACE_LENGTH, a.extra);
    AltParsed(b, p, a, big, at, at + |es|);
  }

  lemma InterfaceStep(b: seq<byte>, p: nat, big: bool, q: nat, a: AltSetting)
    requires AltHeaderOk(b, p) && ParsedAlt(b, p, big) == Done(q, (a, true)) && p < q <= |b|
    ensures !Alternate(b, q, b[p + 2]) ==> ParsedInterface(b, p, big) == Done(q, [a])
    ensures Alternate(b, q, b[p + 2]) ==>
      var r := ParsedInterface(b, q, big); r.Done? ==> ParsedInterface(b, p, big) == Done(r.end, [a] + r.value)
  {
    hide ParsedAlt;
  }

  lemma AltLonger(a: AltSetting, big: bool)
    ensures |AltBytes(a, big)| >= INTERFACE_LENGTH
  {
  }

  lemma {:induction false} AltsRoundTrip(b: seq<byte>, p: nat, i: Interface, number: byte, big: bool)
    requires i != [] && WellFormedAlts(i, number) && At(b, p, InterfaceBytes(i, big))
    requires var end := p + |InterfaceBytes(i, big)|; Stops(b, end) && !Alternate(b, end, number)
    ensures ParsedInterface(b, p, big) == Done(p + |InterfaceBytes(i, big)|, i)
    ensures Stops(b, p) && AltHeaderOk(b, p) && p + 2 < |b| && b[p + 2] == number
    ensures InterfaceBytes(i, big) != []
    decreases |i|
  {
    hide ParsedAlt, ParsedInterface, AltBytes, SkipExtras, WellFormedAlt;
    var first, rest := AltBytes(i[0], big), InterfaceBytes(i[1..], big);
    AltLonger(i[0], big);
    AtSplit(b, p, first, rest);
    if |i| > 1 {
      AltsRoundTrip(b, p + |first|, i[1..], number, big);
    } else {
      assert i[1..] == [] && [i[0]] == i;
    }
    AltRoundTrip(b, p, i[0], big);
    InterfaceStep(b, p, big, p + |first|, i[0]);
    assert i == [i[0]] + i[1..];
  }

  /** The bytes after the last interface do not continue it. */
  predicate EndsInterfaces(b: seq<byte>, p: nat, ifs: seq<Interface>) {
    && Stops(b, p)
    && (ifs != [] && ifs[|ifs| - 1] != [] ==> !Alternate(b, p, ifs[|ifs| - 1][0].bInterfaceNumber))
  }

  lemma InterfacesStep(b: seq<byte>, p: nat, n: nat, extra: seq<byte>, big: bool, at: nat, q: nat, i: Interface,
      end: nat, x: seq<byte>, ifs: seq<Interface>)
    requires p <= at < q <= |b| && n > 0 && SkipExtras(b, p) == Stop(at) && ParsedInterface(b, at, big) == Done(q, i)
    requires ParsedInterfaces(b, q, n - 1, Kept(extra, b[p..at]), big) == Done(end, (x, ifs))
    ensures ParsedInterfaces(b, p, n, extra, big) == Done(end, (x, [i] + ifs))
  {
    hide ParsedInterface, SkipExtras;
  }

  /** The first interface, when the rest is known to parse. */
  lemma InterfacesHead(b: seq<byte>, p: nat, x: seq<byte>, i: Interface, n: nat, extra: seq<byte>, big: bool, end: nat,
      y: seq<byte>, ifs: seq<Interface>)
    requires n > 0 && Tlvs(x) && At(b, p, x) && WellFormedInterface(i) && At(b, p + |x|, InterfaceBytes(i, big))
    requires var q := p + |x| + |InterfaceBytes(i, big)|;
      && Stops(b, q) && !Alternate(b, q, i[0].bInterfaceNumber)
      && ParsedInterfaces(b, q, n - 1, Kept(extra, x), big) == Done(end, (y, ifs))
    ensures ParsedInterfaces(b, p, n, extra, big) == Done(end, (y, [i] + ifs))
    ensures Stops(b, p + |x|) && AltHeaderOk(b, p + |x|)
    ensures p + |x| + 2 < |b| && b[p + |x| + 2] == i[0].bInterfaceNumber
  {
    hide ParsedInterface, ParsedInterfaces, InterfaceBytes, SkipExtras, Kept, Alternate, Tlvs, AltHeaderOk,
      WellFormedAlts;
    var at := p + |x|;
    AltsRoundTrip(b, at, i, i[0].bInterfaceNumber, big);
    SkipTlvs(b, p, x);
    InterfacesStep(b, p, n, extra, big, at, at + |InterfaceBytes(i, big)|, i, end, y, ifs);
  }

  lemma {:induction false} InterfacesRoundTrip(b: seq<byte>, p: nat, x: seq<byte>, ifs: seq<Interface>,
      extra: seq<byte>, big: bool)
    requires Tlvs(x) && (ifs == [] ==> x == [])
    requires WellFormedInterfaces(ifs) && At(b, p, x) && At(b, p + |x|, InterfacesBytes(ifs, big))
    requires EndsInterfaces(b, p + |x| + |InterfacesBytes(ifs, big)|, ifs)
    ensures ParsedInterfaces(b, p, |ifs|, extra, big)
         == Done(p + |x| + |InterfacesBytes(ifs, big)|, (if ifs == [] then extra else Kept(extra, x), ifs))
    ensures ifs != [] ==> Stops(b, p + |x|) && AltHeaderOk(b, p + |x|)
    ensures ifs != [] ==> p + |x| + 2 < |b| && b[p + |x| + 2] == ifs[0][0].bInterfaceNumber
    decreases |ifs|
  {
    hide At, ParsedInterfaces, ParsedInterface, InterfaceBytes, SkipExtras, Alternate, AltHeaderOk, Kept, Tlvs,
      WellFormedAlts;
    if ifs == [] {
      NoInterfaces(b, p, extra, big);
    } else {
      var first, next := InterfaceBytes(ifs[0], big), ifs[1..];
      var at, rest := p + |x|, InterfacesBytes(next, big);
      var q := at + |first|;
      AtSplit(b, at, first, rest);
      AtLength(b, q, rest);
      NextEnds(b, q + |rest|, ifs);
      NoExtras(b, q);
      InterfacesRoundTrip(b, q, [], next, Kept(extra, x), big);
      if next != [] {
        NotAlternate(b, q, ifs[0][0].bInterfaceNumber);
      }
      KeptNothing(Kept(extra, x));
      InterfacesHead(b, p, x, ifs[0], |ifs|, extra, big, q + |rest|, Kept(extra, x), next);
      assert [ifs[0]] + next == ifs;
    }
  }

  lemma NoInterfaces(b: seq<byte>, p: nat, extra: seq<byte>, big: bool)
    requires p <= |b|
    ensures ParsedInterfaces(b, p, 0, extra, big) == Done(p, (extra, []))
  {
  }

  lemma NoExtras(b: seq<byte>, p: nat)
    requires p <= |b|
    ensures Tlvs([]) && At(b, p, [])
  {
  }

  lemma NotAlternate(b: seq<byte>, p: nat, number: byte)
    requires AltHeaderOk(b, p) && b[p + 2] != number
    ensures !Alternate(b, p, number)
  {
  }

  lemma NextEnds(b: seq<byte>, p: nat, ifs: seq<Interface>)
    requires ifs != [] && EndsInterfaces(b, p, ifs)
    ensures EndsInterfaces(b, p, ifs[1..])
    ensures |ifs| == 1 && ifs[0] != [] ==> ifs[1..] == [] && !Alternate(b, p, ifs[0][0].bInterfaceNumber)
  {
    hide SkipExtras, Alternate;
  }

  lemma KeptNothing(x: seq<byte>)
    ensures Kept(x, []) == x
  {
  }

  lemma ConfigStart(b: seq<byte>, p: nat, c: Config, big: bool)
    requires At(b, p, ConfigHeader(c, big)) && WellFormed(c)
    ensures ConfigHeaderOk(b, p) && b[p] == CONFIG_LENGTH && b[p + 4] == |c.interfaces|
    ensures ConfigFields(b, p, big) == c.(extra := [], interfaces := [])
  {
    var h := ConfigHeader(c, big);
    AtByte(b, p, h);
    assert b[p] == h[0] && b[p + 1] == h[1] && b[p + 2] == h[2] && b[p + 3] == h[3] && b[p + 4] == h[4];
    assert b[p + 5] == h[5] && b[p + 6] == h[6] && b[p + 7] == h[7] && b[p + 8] == h[8];
    WordRoundTrip(big, c.wTotalLength);
  }

  /** Parsing the bytes of a well-formed configuration gives that configuration back and
      ends exactly where they end, wherever they stand and whatever follows them, as long
      as it starts no further alternate setting. */
  lemma RoundTripAt(b: seq<byte>, p: nat, c: Config, big: bool)
    requires WellFormed(c) && At(b, p, ConfigBytes(c, big))
    requires EndsInterfaces(b, p + |ConfigBytes(c, big)|, c.interfaces)
    ensures ParsedConfig(b, p, big) == Done(p + |ConfigBytes(c, big)|, c)
  {
    hide ParsedInterfaces, SkipExtras, InterfacesBytes, WellFormedInterfaces, ConfigHeaderOk, ConfigFields, At,
      EndsInterfaces, Tlvs;
    assert |ConfigHeader(c, big)| == CONFIG_LENGTH;
    hide ConfigHeader;
    var ifs := InterfacesBytes(c.interfaces, big);
    AtSplit(b, p, ConfigHeader(c, big) + c.extra, ifs);
    AtSplit(b, p, ConfigHeader(c, big), c.extra);
    ConfigStart(b, p, c, big);
    InterfacesRoundTrip(b, p + CONFIG_LENGTH, c.extra, c.interfaces, [], big);
  }

  /** A buffer that holds just the configuration parses to it with nothing left. */
  lemma RoundTrip(c: Config, big: bool)
    requires WellFormed(c)
    ensures var b := ConfigBytes(c, big); ParsedConfig(b, 0, big) == Done(|b|, c)
  {
    RoundTripAt(ConfigBytes(c, big), 0, c, big);
  }

  /** Two well-formed configurations with the same bytes are the same. */
  lemma BytesInjective(c: Config, d: Config, big: bool)
    requires WellFormed(c) && WellFormed(d) && ConfigBytes(c, big) == ConfigBytes(d, big)
    ensures c == d
  {
    RoundTrip(c, big);
    RoundTrip(d, big);
  }
}
