/** IP addresses and prefixes as `net/netip` keeps them, and the networks an Agent may ever dial. */
module Cidr {
  import opened Bits
  import opened Arith

  /** An address is a number; IPv6 addresses may carry a zone. */
  datatype Addr = V4(n: nat) | V6(n: nat, zone: string)

  datatype Prefix = Prefix(addr: Addr, bits: nat)

  function Width(a: Addr): nat {
    if a.V4? then 32 else 128
  }

  predicate Valid(p: Prefix) {
    p.bits <= Width(p.addr) && (p.addr.V6? ==> p.addr.zone == "")
  }

  /** How many addresses share the prefix bits. */
  function Span(p: Prefix): nat
    requires Valid(p)
  {
    Pow2(Width(p.addr) - p.bits)
  }

  predicate Is4In6(a: Addr) {
    a.V6? && a.n / 0x1_0000_0000 == 0xffff
  }

  /** `Addr.Unmap`; the zone of a mapped address is lost. */
  function Unmap(a: Addr): Addr {
    if Is4In6(a) then V4(a.n % 0x1_0000_0000) else a
  }

  /** Clearing everything below a multiple of d. */
  function RoundDown(n: nat, d: nat): (r: nat)
    requires d > 0
    ensures r / d == n / d && r <= n
  {
    DivModUnique(n - n % d, d, n / d, 0);
    n - n % d
  }

  /** `Prefix.Masked`. */
  function Masked(p: Prefix): (r: Prefix)
    requires Valid(p)
    ensures Valid(r) && r.bits == p.bits && r.addr.V4? == p.addr.V4?
  {
    if p.addr.V4? then Prefix(V4(RoundDown(p.addr.n, Span(p))), p.bits)
    else Prefix(V6(RoundDown(p.addr.n, Span(p)), ""), p.bits)
  }

  /** `Prefix.Contains`: same family, no zone, same leading bits. */
  predicate Contains(p: Prefix, a: Addr)
    requires Valid(p)
  {
    p.addr.V4? == a.V4? && (a.V6? ==> a.zone == "") && a.n / Span(p) == p.addr.n / Span(p)
  }

  predicate IsLoopback(a: Addr) {
    match Unmap(a)
    case V4(n) => n / 0x100_0000 == 127
    case V6(n, _) => n == 1
  }

  /** Masking changes no address's membership. */
  lemma MaskedContains(p: Prefix, a: Addr)
    requires Valid(p)
    ensures Contains(Masked(p), a) <==> Contains(p, a)
  {
    assert RoundDown(p.addr.n, Span(p)) / Span(p) == p.addr.n / Span(p);
  }

  /** Nesting: a prefix that starts inside a shorter one lies inside it. */
  lemma Nested(outer: Prefix, inner: Prefix, a: Addr)
    requires Valid(outer) && Valid(inner) && outer.bits <= inner.bits
    requires Contains(outer, inner.addr) && Contains(inner, a)
    ensures Contains(outer, a)
  {
    var fine, ratio := Span(inner), Pow2(inner.bits - outer.bits);
    Pow2Add(Width(inner.addr) - inner.bits, inner.bits - outer.bits);
    assert Span(outer) == fine * ratio;
    DivDiv(a.n, fine, ratio);
    DivDiv(inner.addr.n, fine, ratio);
  }

  // ----- the permitted networks -----

  function Dotted(a: nat, b: nat, c: nat, d: nat): nat {
    a * 0x100_0000 + b * 0x1_0000 + c * 0x100 + d
  }

  /** `permittedNetworks`. */
  function PermittedNetworks(): (r: seq<Prefix>)
    ensures forall i :: 0 <= i < |r| ==> Valid(r[i])
  {
    [ Prefix(V4(Dotted(10, 0, 0, 0)), 8),
      Prefix(V4(Dotted(100, 64, 0, 0)), 10),
      Prefix(V4(Dotted(127, 0, 0, 0)), 8),
      Prefix(V4(Dotted(172, 16, 0, 0)), 12),
      Prefix(V4(Dotted(192, 168, 0, 0)), 16),
      Prefix(V6(1, ""), 128),
      Prefix(V6(0xfc * Pow2(120), ""), 7) ]
  }

  ghost predicate Permitted(a: Addr) {
    exists i :: 0 <= i < |PermittedNetworks()| && Contains(PermittedNetworks()[i], a)
  }

  predicate Covers(outer: Prefix, p: Prefix)
    requires Valid(outer)
  {
    outer.bits <= p.bits && Contains(outer, p.addr)
  }

  ghost predicate PermittedPrefix(p: Prefix) {
    exists i :: 0 <= i < |PermittedNetworks()| && Covers(PermittedNetworks()[i], p)
  }

  /** `permittedPrefix`. */
  method CheckPermitted(p: Prefix) returns (ok: bool)
    ensures ok <==> PermittedPrefix(p)
  {
    var networks := PermittedNetworks();
    for i := 0 to |networks|
      invariant forall j :: 0 <= j < i ==> !Covers(networks[j], p)
    {
      if networks[i].bits <= p.bits && Contains(networks[i], p.addr) {
        return true;
      }
    }
    return false;
  }

  /** Every address of a permitted prefix is a permitted address. */
  lemma PermittedInside(p: Prefix, a: Addr)
    requires Valid(p) && PermittedPrefix(p) && Contains(p, a)
    ensures Permitted(a)
  {
    var i :| 0 <= i < |PermittedNetworks()| && Covers(PermittedNetworks()[i], p);
    Nested(PermittedNetworks()[i], p, a);
  }

  // ----- what the prefixes say in plain numbers -----

  predicate Between(x: nat, low: nat, high: nat) {
    low <= x <= high
  }

  /** Section 3 of RFC 1918, section 7 of RFC 6598, 127/8 loopback; ::1 and section 3.1 of RFC 4193. */
  predicate PrivateRange(a: Addr) {
    match a
    case V4(n) =>
      || Between(n, Dotted(10, 0, 0, 0), Dotted(10, 255, 255, 255))
      || Between(n, Dotted(100, 64, 0, 0), Dotted(100, 127, 255, 255))
      || Between(n, Dotted(127, 0, 0, 0), Dotted(127, 255, 255, 255))
      || Between(n, Dotted(172, 16, 0, 0), Dotted(172, 31, 255, 255))
      || Between(n, Dotted(192, 168, 0, 0), Dotted(192, 168, 255, 255))
    case V6(n, zone) =>
      zone == "" && (n == 1 || 0xfc * Pow2(120) <= n < 0xfe * Pow2(120))
  }

  lemma Spans()
    ensures Pow2(16) == 0x1_0000 && Pow2(20) == 0x10_0000 && Pow2(22) == 0x40_0000 && Pow2(24) == 0x100_0000
    ensures Pow2(121) == 2 * Pow2(120)
  {
    Pow2Small();
    Pow2Add(8, 8);
    Pow2Add(16, 4);
    Pow2Add(16, 6);
    Pow2Add(16, 8);
  }

  /** Membership in the prefix with quotient q is membership in an interval. */
  lemma QuotientInterval(n: nat, span: nat, q: nat)
    requires span > 0
    ensures n / span == q <==> q * span <= n < (q + 1) * span
  {
    var h, l := n / span, n % span;
    assert n == h * span + l;
    assert (q + 1) * span == q * span + span;
    if q * span <= n < (q + 1) * span {
      DivModUnique(n, span, q, n - q * span);
    }
  }

  /** A prefix of a given quotient and span, as an interval. */
  lemma V4Interval(a: Addr, p: Prefix, span: nat, q: nat)
    requires Valid(p) && a.V4? && p.addr.V4? && span == Span(p) && p.addr.n == q * span
    ensures Contains(p, a) <==> q * span <= a.n < (q + 1) * span
  {
    DivModUnique(p.addr.n, span, q, 0);
    QuotientInterval(a.n, span, q);
  }

  lemma PermittedUnfold(a: Addr)
    ensures var nets := PermittedNetworks();
      Permitted(a) <==> Contains(nets[0], a) || Contains(nets[1], a) || Contains(nets[2], a) || Contains(nets[3], a)
                        || Contains(nets[4], a) || Contains(nets[5], a) || Contains(nets[6], a)
  {
    var nets := PermittedNetworks();
    assert |nets| == 7;
    if Permitted(a) {
      var i :| 0 <= i < 7 && Contains(nets[i], a);
      assert i == 0 || i == 1 || i == 2 || i == 3 || i == 4 || i == 5 || i == 6;
    }
  }

  lemma NetsV4(n: nat)
    ensures var nets := PermittedNetworks(); var a := V4(n);
      && (Contains(nets[0], a) <==> Between(n, Dotted(10, 0, 0, 0), Dotted(10, 255, 255, 255)))
      && (Contains(nets[1], a) <==> Between(n, Dotted(100, 64, 0, 0), Dotted(100, 127, 255, 255)))
      && (Contains(nets[2], a) <==> Between(n, Dotted(127, 0, 0, 0), Dotted(127, 255, 255, 255)))
  {
    Spans();
    var nets := PermittedNetworks();
    V4Interval(V4(n), nets[0], 0x100_0000, 10);
    V4Interval(V4(n), nets[1], 0x40_0000, 401);
    V4Interval(V4(n), nets[2], 0x100_0000, 127);
  }

  lemma MoreNetsV4(n: nat)
    ensures var nets := PermittedNetworks(); var a := V4(n);
      && (Contains(nets[3], a) <==> Between(n, Dotted(172, 16, 0, 0), Dotted(172, 31, 255, 255)))
      && (Contains(nets[4], a) <==> Between(n, Dotted(192, 168, 0, 0), Dotted(192, 168, 255, 255)))
      && !Contains(nets[5], a) && !Contains(nets[6], a)
  {
    Spans();
    var nets := PermittedNetworks();
    V4Interval(V4(n), nets[3], 0x10_0000, 2753);
    V4Interval(V4(n), nets[4], 0x1_0000, 49320);
  }

  lemma PermittedV4(n: nat)
    ensures Permitted(V4(n)) <==> PrivateRange(V4(n))
  {
    PermittedUnfold(V4(n));
    NetsV4(n);
    MoreNetsV4(n);
  }

  lemma LocalV6(n: nat, zone: string)
    ensures var p := Pow2(120);
      Contains(PermittedNetworks()[6], V6(n, zone)) <==> zone == "" && 0xfc * p <= n < 0xfe * p
  {
    Spans();
    var p := Pow2(120);
    DivModUnique(0xfc * p, 2 * p, 126, 0);
    QuotientInterval(n, 2 * p, 126);
  }

  lemma LoopV6(n: nat, zone: string)
    ensures Contains(PermittedNetworks()[5], V6(n, zone)) <==> zone == "" && n == 1
  {
    assert Span(PermittedNetworks()[5]) == 1;
  }

  lemma PermittedV6(n: nat, zone: string)
    ensures Permitted(V6(n, zone)) <==> PrivateRange(V6(n, zone))
  {
    PermittedUnfold(V6(n, zone));
    LocalV6(n, zone);
    LoopV6(n, zone);
  }

  /** The fixed list means exactly the private, carrier-grade, loopback and unique local ranges. */
  lemma PermittedExactly(a: Addr)
    ensures Permitted(a) <==> PrivateRange(a)
  {
    match a
    case V4(n) => PermittedV4(n);
    case V6(n, zone) => PermittedV6(n, zone);
  }

  // ----- exactly the private prefixes -----

  /** A prefix that is shorter than a network and meets it also reaches into the network's neighbour, the block
      of the same size that differs in the last bit only. */
  lemma ReachesNeighbour(p: Prefix, net: Prefix, q: nat, other: nat)
    requires Valid(p) && Valid(net) && p.addr.V4? == net.addr.V4? && p.bits < net.bits
    requires p.addr.n / Span(net) == q && other / 2 == q / 2
    ensures other * Span(net) / Span(p) == p.addr.n / Span(p)
  {
    var d, half := Span(net), Pow2(net.bits - p.bits - 1);
    Pow2Add(Width(p.addr) - net.bits, net.bits - p.bits);
    assert Span(p) == d * (2 * half);
    DivModUnique(other * d, d, other, 0);
    DivDiv(other * d, d, 2 * half);
    DivDiv(p.addr.n, d, 2 * half);
    DivDiv(other, 2, half);
    DivDiv(q, 2, half);
  }

  /** The number of a permitted network and that of its neighbour. */
  function NetOf(i: nat): (nat, nat) {
    match i
    case 0 => (10, 11)
    case 1 => (401, 400)
    case 2 => (127, 126)
    case 3 => (2753, 2752)
    case 4 => (49320, 49321)
    case 5 => (1, 0)
    case _ => (126, 127)
  }

  lemma NumbersV4(i: nat)
    requires i < 5
    ensures NetOf(i).0 / 2 == NetOf(i).1 / 2
    ensures var net := PermittedNetworks()[i]; net.addr.V4? && net.addr.n / Span(net) == NetOf(i).0 && !PrivateRange(V4(NetOf(i).1 * Span(net)))
  {
    Spans();
    var net := PermittedNetworks()[i];
    DivModUnique(net.addr.n, Span(net), NetOf(i).0, 0);
  }

  lemma NumbersV6(i: nat)
    requires 5 <= i < 7
    ensures NetOf(i).0 / 2 == NetOf(i).1 / 2
    ensures var net := PermittedNetworks()[i]; net.addr.V6? && net.addr.n / Span(net) == NetOf(i).0 && !PrivateRange(V6(NetOf(i).1 * Span(net), ""))
  {
    Spans();
    var net := PermittedNetworks()[i];
    if i == 5 {
      LoopV6(1, "");
      assert Span(net) == 1;
    } else {
      DivModUnique(net.addr.n, Span(net), 126, 0);
    }
  }

  lemma WiderMeets(p: Prefix, net: Prefix, q: nat, other: nat, a: Addr)
    requires Valid(p) && Valid(net) && p.bits < net.bits && Contains(net, p.addr) && net.addr.n / Span(net) == q && other / 2 == q / 2
    requires a.n == other * Span(net) && a.V4? == net.addr.V4? && (a.V6? ==> a.zone == "")
    ensures Contains(p, a)
  {
    ReachesNeighbour(p, net, q, other);
  }

  /** No permitted network can be widened. */
  lemma WiderIsNotPrivate(p: Prefix, i: nat) returns (a: Addr)
    requires Valid(p) && i < |PermittedNetworks()| && p.bits < PermittedNetworks()[i].bits && Contains(PermittedNetworks()[i], p.addr)
    ensures Contains(p, a) && !PrivateRange(a)
  {
    var net := PermittedNetworks()[i];
    if i < 5 {
      NumbersV4(i);
      a := V4(NetOf(i).1 * Span(net));
    } else {
      NumbersV6(i);
      a := V6(NetOf(i).1 * Span(net), "");
    }
    WiderMeets(p, net, NetOf(i).0, NetOf(i).1, a);
  }

  /** The configuration check accepts exactly the prefixes that hold nothing but private addresses. */
  lemma PermittedPrefixExactly(p: Prefix)
    requires Valid(p)
    ensures PermittedPrefix(p) <==> forall a :: Contains(p, a) ==> PrivateRange(a)
  {
    if PermittedPrefix(p) {
      forall a | Contains(p, a)
        ensures PrivateRange(a)
      {
        PermittedInside(p, a);
        PermittedExactly(a);
      }
    } else if forall a :: Contains(p, a) ==> PrivateRange(a) {
      assert Contains(p, p.addr);
      PermittedExactly(p.addr);
      var i :| 0 <= i < |PermittedNetworks()| && Contains(PermittedNetworks()[i], p.addr);
      assert !Covers(PermittedNetworks()[i], p);
      var a := WiderIsNotPrivate(p, i);
      assert false;
    }
  }

  /** An IPv4 address in IPv6 clothes, and only that, is undressed. */
  lemma UnmapExactly(n: nat, zone: string)
    ensures Unmap(V6(n, zone)) == if 0xffff_0000_0000 <= n < 0x1_0000_0000_0000 then V4(n - 0xffff_0000_0000) else V6(n, zone)
    ensures Unmap(V4(n)) == V4(n)
  {
  }

  lemma PowerGrows(n: nat, k: nat)
    requires k <= n
    ensures Pow2(n) >= Pow2(k)
  {
    Pow2Add(k, n - k);
    Multiples(Pow2(n - k), Pow2(k));
  }

  lemma LargePower()
    ensures Pow2(120) >= 0x1_0000_0000_0000
  {
    var half := 24;
    assert Pow2(half) == 0x100_0000 by {
      Spans();
    }
    Pow2Add(half, half);
    PowerGrows(120, half + half);
  }

  /** No private range holds a mapped IPv4 address. */
  lemma MappedIsNotPrivate(a: Addr)
    requires Is4In6(a)
    ensures !PrivateRange(a)
  {
    UnmapExactly(a.n, a.zone);
    LargePower();
  }

  /** Loopback is 127/8 and ::1, in IPv6 clothes or not. */
  lemma LoopbackExactly(a: Addr)
    ensures IsLoopback(a) <==>
      match a
      case V4(n) => Between(n, Dotted(127, 0, 0, 0), Dotted(127, 255, 255, 255))
      case V6(n, _) => n == 1 || Between(n, 0xffff_0000_0000 + Dotted(127, 0, 0, 0), 0xffff_0000_0000 + Dotted(127, 255, 255, 255))
  {
    if a.V6? {
      UnmapExactly(a.n, a.zone);
    }
  }
}
