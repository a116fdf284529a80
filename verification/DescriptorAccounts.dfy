/** What the parser makes of arbitrary bytes: whole descriptors, one interface number per
    interface, and configuration extras only before the first interface. */
module DescriptorAccounts {
  import opened Bytes
  import opened Descriptors

  // ---------------------------------------------------------------- whole descriptors

  /** The bytes from p to q are a chain of descriptors, each as long as it says. */
  predicate Whole(b: seq<byte>, p: nat, q: nat)
    decreases q - p
  {
    p == q || (p + HEADER_LENGTH <= q <= |b| && b[p] >= HEADER_LENGTH && p + b[p] <= q && Whole(b, p + b[p], q))
  }

  lemma {:induction false} WholeJoins(b: seq<byte>, p: nat, q: nat, r: nat)
    requires p <= q <= r && Whole(b, p, q) && Whole(b, q, r)
    ensures Whole(b, p, r)
    decreases q - p
  {
    if p != q {
      WholeJoins(b, p + b[p], q, r);
    }
  }

  lemma {:induction false} SkipWhole(b: seq<byte>, p: nat)
    requires p <= |b|
    ensures var s := SkipExtras(b, p); !s.BadLength? ==> Whole(b, p, s.at)
    decreases |b| - p
  {
    if |b| - p >= HEADER_LENGTH && HEADER_LENGTH <= b[p] <= |b| - p && !Standard(b[p + 1]) {
      SkipWhole(b, p + b[p]);
    }
  }

  /** One descriptor followed by a whole stretch. */
  lemma WholeAfter(b: seq<byte>, p: nat, q: nat)
    requires p + HEADER_LENGTH <= |b| && p + HEADER_LENGTH <= p + b[p] <= q <= |b| && Whole(b, p + b[p], q)
    ensures Whole(b, p, q)
  {
  }

  lemma EndpointWhole(b: seq<byte>, p: nat, big: bool)
    requires p <= |b|
    ensures var r := ParsedEndpoint(b, p, big); r.Done? ==> Whole(b, p, r.end)
  {
    hide SkipExtras;
    if ParsedEndpoint(b, p, big).Done? && ParsedEndpoint(b, p, big).end > p {
      SkipWhole(b, p + b[p]);
      WholeAfter(b, p, ParsedEndpoint(b, p, big).end);
    }
  }

  lemma {:induction false} EndpointsWhole(b: seq<byte>, p: nat, n: nat, big: bool)
    requires p <= |b|
    ensures var r := ParsedEndpoints(b, p, n, big); r.Done? ==> Whole(b, p, r.end)
    decreases n
  {
    hide ParsedEndpoint;
    var r := ParsedEndpoints(b, p, n, big);
    if r.Done? && r.end > p {
      var q := ParsedEndpoint(b, p, big).end;
      EndpointWhole(b, p, big);
      EndpointsWhole(b, q, n - 1, big);
      WholeJoins(b, p, q, r.end);
    }
  }

  lemma AltWhole(b: seq<byte>, p: nat, big: bool)
    requires AltHeaderOk(b, p)
    ensures var r := ParsedAlt(b, p, big); r.Done? ==> Whole(b, p, r.end)
  {
    hide SkipExtras, ParsedEndpoints;
    var r := ParsedAlt(b, p, big);
    if r.Done? {
      var s := SkipExtras(b, p + b[p]);
      SkipWhole(b, p + b[p]);
      if s.Stop? {
        EndpointsWhole(b, s.at, b[p + 4], big);
        WholeJoins(b, p + b[p], s.at, r.end);
      }
      WholeAfter(b, p, r.end);
    }
  }

  lemma {:induction false} InterfaceWhole(b: seq<byte>, p: nat, big: bool)
    requires p <= |b|
    ensures var r := ParsedInterface(b, p, big); r.Done? ==> Whole(b, p, r.end)
    decreases |b| - p
  {
    hide ParsedAlt;
    var r := ParsedInterface(b, p, big);
    if r.Done? && r.end > p {
      var q := ParsedAlt(b, p, big).end;
      AltWhole(b, p, big);
      if q < r.end {
        InterfaceWhole(b, q, big);
        WholeJoins(b, p, q, r.end);
      }
    }
  }

  lemma {:induction false} InterfacesWhole(b: seq<byte>, p: nat, n: nat, extra: seq<byte>, big: bool)
    requires p <= |b|
    ensures var r := ParsedInterfaces(b, p, n, extra, big); r.Done? ==> Whole(b, p, r.end)
    decreases n
  {
    hide SkipExtras, ParsedInterface, Kept;
    var r := ParsedInterfaces(b, p, n, extra, big);
    if n > 0 && r.Done? {
      var s := SkipExtras(b, p);
      SkipWhole(b, p);
      if s.Stop? {
        var q := ParsedInterface(b, s.at, big).end;
        InterfaceWhole(b, s.at, big);
        if q > s.at {
          InterfacesWhole(b, q, n - 1, Kept(extra, b[p..s.at]), big);
          WholeJoins(b, s.at, q, r.end);
          WholeJoins(b, p, s.at, r.end);
        }
      }
    }
  }

  /** Whatever the bytes, a successful parse ends between two descriptors: none is split. */
  lemma ConfigWhole(b: seq<byte>, p: nat, big: bool)
    ensures var r := ParsedConfig(b, p, big); r.Done? ==> p < r.end <= |b| && Whole(b, p, r.end)
  {
    hide ParsedInterfaces;
    if ParsedConfig(b, p, big).Done? {
      InterfacesWhole(b, p + b[p], b[p + 4], [], big);
      WholeAfter(b, p, ParsedConfig(b, p, big).end);
    }
  }

  // ---------------------------------------------------------------- one number per interface

  lemma {:induction false} OneNumber(b: seq<byte>, p: nat, big: bool)
    requires p <= |b|
    ensures var r := ParsedInterface(b, p, big);
      r.Done? ==> forall a :: a in r.value ==> p + 2 < |b| && a.bInterfaceNumber == b[p + 2]
    ensures var r := ParsedInterface(b, p, big); r.Done? ==> (r.value == [] <==> r.end == p)
    decreases |b| - p
  {
    var r := ParsedInterface(b, p, big);
    if r.Done? && r.end > p {
      AltNumber(b, p, big);
      hide ParsedAlt;
      var q := ParsedAlt(b, p, big).end;
      if q < r.end {
        OneNumber(b, q, big);
      }
    }
  }

  lemma AltNumber(b: seq<byte>, p: nat, big: bool)
    requires AltHeaderOk(b, p)
    ensures var r := ParsedAlt(b, p, big); r.Done? ==> r.value.0.bInterfaceNumber == b[p + 2]
  {
    hide SkipExtras, ParsedEndpoints;
  }

  // ---------------------------------------------------------------- extras between interfaces

  /** The skip loop consumes nothing here. */
  predicate AtRest(b: seq<byte>, p: nat) {
    p <= |b| && match SkipExtras(b, p) case BadLength => true case Short(at) => at == p case Stop(at) => at == p
  }

  lemma {:induction false} SkipRests(b: seq<byte>, p: nat)
    requires p <= |b|
    ensures var s := SkipExtras(b, p); !s.BadLength? ==> AtRest(b, s.at)
    decreases |b| - p
  {
    if |b| - p >= HEADER_LENGTH && HEADER_LENGTH <= b[p] <= |b| - p && !Standard(b[p + 1]) {
      SkipRests(b, p + b[p]);
    }
  }

  lemma EndpointRests(b: seq<byte>, p: nat, big: bool)
    requires AtRest(b, p)
    ensures var r := ParsedEndpoint(b, p, big); r.Done? ==> AtRest(b, r.end)
  {
    hide SkipExtras;
    if ParsedEndpoint(b, p, big).Done? && ParsedEndpoint(b, p, big).end > p {
      SkipRests(b, p + b[p]);
    }
  }

  lemma {:induction false} EndpointsRest(b: seq<byte>, p: nat, n: nat, big: bool)
    requires AtRest(b, p)
    ensures var r := ParsedEndpoints(b, p, n, big); r.Done? ==> AtRest(b, r.end)
    decreases n
  {
    hide ParsedEndpoint, SkipExtras;
    if n > 0 && ParsedEndpoint(b, p, big).Done? {
      EndpointRests(b, p, big);
      EndpointsRest(b, ParsedEndpoint(b, p, big).end, n - 1, big);
    }
  }

  lemma AltRests(b: seq<byte>, p: nat, big: bool)
    requires AltHeaderOk(b, p)
    ensures var r := ParsedAlt(b, p, big); r.Done? ==> AtRest(b, r.end)
  {
    hide SkipExtras, ParsedEndpoints;
    var s := SkipExtras(b, p + b[p]);
    SkipRests(b, p + b[p]);
    if s.Stop? {
      EndpointsRest(b, s.at, b[p + 4], big);
    }
  }

  /** Every way out of parse_interface leaves the buffer where nothing is to be skipped. */
  lemma {:induction false} InterfaceRests(b: seq<byte>, p: nat, big: bool)
    requires p <= |b|
    ensures var r := ParsedInterface(b, p, big); r.Done? && r.end > p ==> AtRest(b, r.end)
    decreases |b| - p
  {
    hide ParsedAlt, SkipExtras;
    var r := ParsedInterface(b, p, big);
    if r.Done? && r.end > p {
      AltRests(b, p, big);
      var q := ParsedAlt(b, p, big).end;
      if q < r.end {
        InterfaceRests(b, q, big);
      }
    }
  }

  /** The loop over the interfaces as its FIXME would have it: extras are appended. */
  function AppendingInterfaces(b: seq<byte>, p: nat, n: nat, extra: seq<byte>, big: bool)
    : (r: Result<(seq<byte>, seq<Interface>)>)
    requires p <= |b|
    ensures r.Done? ==> p <= r.end <= |b|
    decreases n
  {
    if n == 0 then Done(p, (extra, []))
    else match SkipExtras(b, p)
      case BadLength => Fail
      case Short(at) => Done(at, (extra, []))
      case Stop(at) =>
        match ParsedInterface(b, at, big)
        case Fail => Fail
        case Done(q, alts) =>
          if q == at then Done(at, (extra + b[p..at], []))
          else match AppendingInterfaces(b, q, n - 1, extra + b[p..at], big)
            case Fail => Fail
            case Done(end, (x, ifs)) => Done(end, (x, [alts] + ifs))
  }

  lemma {:induction false} AppendingIsTheSame(b: seq<byte>, p: nat, n: nat, extra: seq<byte>, big: bool)
    requires p <= |b| && (extra == [] || AtRest(b, p))
    ensures AppendingInterfaces(b, p, n, extra, big) == ParsedInterfaces(b, p, n, extra, big)
    decreases n
  {
    hide SkipExtras, ParsedInterface;
    if n > 0 && SkipExtras(b, p).Stop? {
      var at := SkipExtras(b, p).at;
      assert Kept(extra, b[p..at]) == extra + b[p..at];
      var r := ParsedInterface(b, at, big);
      if r.Done? && r.end > at {
        InterfaceRests(b, at, big);
        AppendingIsTheSame(b, r.end, n - 1, extra + b[p..at], big);
      }
    }
  }

  /** So extras that are found after the first interface, and would be lost, are always empty. */
  lemma FixmeLosesNothing(b: seq<byte>, p: nat, n: nat, big: bool)
    requires p <= |b|
    ensures AppendingInterfaces(b, p, n, [], big) == ParsedInterfaces(b, p, n, [], big)
    ensures forall q :: p <= q <= |b| && ParsedInterface(b, q, big).Done? && ParsedInterface(b, q, big).end > q ==>
      AtRest(b, ParsedInterface(b, q, big).end)
  {
    AppendingIsTheSame(b, p, n, [], big);
    forall q | p <= q <= |b|
      ensures ParsedInterface(b, q, big).Done? && ParsedInterface(b, q, big).end > q
        ==> AtRest(b, ParsedInterface(b, q, big).end)
    {
      InterfaceRests(b, q, big);
    }
  }
}
