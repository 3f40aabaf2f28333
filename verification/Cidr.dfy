/**
 * IPv4 addresses, CIDR blocks and the route overlap check
 * (src/common/network/utils.cpp).
 *
 * Addresses are the 32-bit numbers that the code obtains from the text form.
 */
module Cidr {
  import opened Bits
  import opened Wrappers

  const ADDRESS_BITS: nat := 32
  const ADDRESS_SPACE: nat := 0x1_0000_0000

  type Addr = a: int | 0 <= a < ADDRESS_SPACE

  datatype WrittenBlock = Block(base: Addr, prefix: nat)

  /** A CIDR block as written: the base may carry host bits. */
  type Block = b: WrittenBlock | b.prefix <= ADDRESS_BITS witness Block(0, 0)

  datatype Route = Route(gateway: Option<Addr>, destination: Option<Block>)

  /** 0xFFFFFFFF << (32 - prefix), on 32-bit words; no bits for prefix 0. */
  function PrefixMask(prefix: nat): nat
    requires prefix <= ADDRESS_BITS
  {
    if prefix == 0 then 0 else ShiftLeft(0xFFFF_FFFF, ADDRESS_BITS - prefix, ADDRESS_BITS)
  }

  function Masked(x: Addr, prefix: nat): nat
    requires prefix <= ADDRESS_BITS
  {
    And(x, PrefixMask(prefix), ADDRESS_BITS)
  }

  predicate NetworkContainsIP(network: Block, ip: Addr)
  {
    Masked(network.base, network.prefix) == Masked(ip, network.prefix)
  }

  /** Number of addresses of a block with the given prefix. */
  function Size(prefix: nat): nat
    requires prefix <= ADDRESS_BITS
  {
    Pow2(ADDRESS_BITS - prefix)
  }

  /** The first address of a block. */
  function NetworkAddress(b: Block): nat {
    ClearLow(b.base, ADDRESS_BITS - b.prefix)
  }

  /** The last address of a block. */
  function BroadcastAddress(b: Block): nat {
    NetworkAddress(b) + Size(b.prefix) - 1
  }

  ghost predicate ShareAddress(b: Block, c: Block) {
    exists a: Addr :: NetworkContainsIP(b, a) && NetworkContainsIP(c, a)
  }

  /** What the overlap check is for: traffic of the route would meet the block. */
  ghost predicate Meets(b: Block, route: Route) {
    || (route.gateway.Some? && NetworkContainsIP(b, route.gateway.value))
    || (route.destination.Some? && ShareAddress(b, route.destination.value))
  }

  lemma AddressBits()
    ensures Pow2(ADDRESS_BITS) == ADDRESS_SPACE
  {
    assert Pow2(8) == 0x100;
    Pow2Add(8, 8);
    assert Pow2(16) == 0x1_0000;
    Pow2Add(16, 16);
  }

  lemma MaskValue(prefix: nat)
    requires prefix <= ADDRESS_BITS
    ensures PrefixMask(prefix) == ADDRESS_SPACE - Size(prefix)
    ensures PrefixMask(prefix) < Pow2(ADDRESS_BITS)
  {
    AddressBits();
    if prefix > 0 {
      ShiftedOnes(ADDRESS_BITS - prefix, ADDRESS_BITS);
    }
  }

  /** The bit operations of the code compute the first and the last address of a block. */
  lemma MaskIsArithmetic(b: Block)
    ensures Masked(b.base, b.prefix) == NetworkAddress(b)
    ensures PrefixMask(b.prefix) < Pow2(ADDRESS_BITS)
    ensures Or(NetworkAddress(b), Complement(PrefixMask(b.prefix), ADDRESS_BITS), ADDRESS_BITS) == BroadcastAddress(b)
    ensures BroadcastAddress(b) < ADDRESS_SPACE
  {
    AddressBits();
    MaskValue(b.prefix);
    MaskedWord(b.base, ADDRESS_BITS - b.prefix, ADDRESS_BITS);
  }

  /** A block is the interval from its network address to its broadcast address. */
  lemma ContainsIsInterval(b: Block, a: Addr)
    ensures NetworkContainsIP(b, a) <==> NetworkAddress(b) <= a <= BroadcastAddress(b)
    ensures NetworkContainsIP(b, a) <==> NetworkAddress(b) == NetworkAddress(Block(a, b.prefix))
  {
    MaskIsArithmetic(b);
    MaskIsArithmetic(Block(a, b.prefix));
    ClearLowInterval(b.base, a, ADDRESS_BITS - b.prefix);
  }

  /** CIDR blocks are nested or disjoint (section 3.1 of RFC 4632). */
  lemma NestedOrDisjoint(wide: Block, narrow: Block, a: Addr)
    requires wide.prefix <= narrow.prefix
    requires NetworkContainsIP(wide, a) && NetworkContainsIP(narrow, a)
    ensures NetworkContainsIP(wide, narrow.base)
  {
    ContainsIsInterval(wide, a);
    ContainsIsInterval(narrow, a);
    ContainsIsInterval(wide, narrow.base);
    ClearMore(narrow.base, a, ADDRESS_BITS - narrow.prefix, ADDRESS_BITS - wide.prefix);
  }

  /** Testing one written address of each block decides whether they share any address. */
  lemma OneAddressDecides(b: Block, c: Block)
    ensures NetworkContainsIP(b, c.base) || NetworkContainsIP(c, b.base) <==> ShareAddress(b, c)
  {
    if NetworkContainsIP(b, c.base) {
      assert NetworkContainsIP(c, c.base);
    }
    if NetworkContainsIP(c, b.base) {
      assert NetworkContainsIP(b, b.base);
    }
    if ShareAddress(b, c) {
      var a: Addr :| NetworkContainsIP(b, a) && NetworkContainsIP(c, a);
      if b.prefix <= c.prefix {
        NestedOrDisjoint(b, c, a);
      } else {
        NestedOrDisjoint(c, b, a);
      }
    }
  }

  method CheckRouteOverlaps(toCheck: Block, routes: seq<Route>) returns (overlaps: bool)
    requires 1 <= toCheck.prefix
    requires forall r | r in routes :: r.destination.Some? ==> 1 <= r.destination.value.prefix
    ensures overlaps <==> exists r | r in routes :: Meets(toCheck, r)
  {
    for i := 0 to |routes|
      invariant forall k | 0 <= k < i :: !Meets(toCheck, routes[k])
    {
      var route := routes[i];
      if route.gateway.Some? && NetworkContainsIP(toCheck, route.gateway.value) {
        assert Meets(toCheck, route);
        return true;
      }
      if route.destination.None? {
        continue;
      }
      OneAddressDecides(toCheck, route.destination.value);
      var routeIP, checkIP := route.destination.value.base, toCheck.base;
      if NetworkContainsIP(toCheck, routeIP) || NetworkContainsIP(route.destination.value, checkIP) {
        assert Meets(toCheck, route);
        return true;
      }
    }
    return false;
  }
}
