/**
 * The predefined private networks and the addresses of one subnet
 * (src/cm/networkmanager/netpool.cpp).
 */
module NetPool {
  import opened Bits
  import opened Cidr
  import opened Wrappers

  /** Unsigned 32-bit arithmetic wraps around. */
  function Wrap32(x: int): Addr {
    x % ADDRESS_SPACE
  }

  /** 1 << k on a signed 32-bit int. */
  function ShiftOneInt32(k: nat): int
    requires k < 32
  {
    if k == 31 then -0x8000_0000 else Pow2(k)
  }

  // The equal blocks of one base block

  function Tile(base: Block, target: nat, i: nat): Block
    requires base.prefix <= target <= ADDRESS_BITS
  {
    Block(Wrap32(NetworkAddress(base) + i * Size(target)), target)
  }

  function FirstTiles(base: Block, target: nat, count: nat): seq<Block>
    requires base.prefix <= target <= ADDRESS_BITS
  {
    seq(count, i requires 0 <= i => Tile(base, target, i))
  }

  function Tiles(base: Block, target: nat): seq<Block>
    requires base.prefix <= target <= ADDRESS_BITS
  {
    FirstTiles(base, target, Pow2(target - base.prefix))
  }

  ghost predicate PairwiseDisjoint(blocks: seq<Block>) {
    forall i, j | 0 <= i < j < |blocks| :: !ShareAddress(blocks[i], blocks[j])
  }

  /** Every address of the base block lies in exactly one of the blocks, and no other address lies in any. */
  ghost predicate PartitionedBy(base: Block, blocks: seq<Block>) {
    && (forall a: Addr :: NetworkContainsIP(base, a) <==> exists b | b in blocks :: NetworkContainsIP(b, a))
    && PairwiseDisjoint(blocks)
  }

  lemma Scale(i: nat, j: nat, m: nat)
    requires i <= j
    ensures i * m <= j * m
    ensures i < j ==> i * m + m <= j * m
  {
    assert j * m == i * m + (j - i) * m;
    if i < j {
      assert (j - i) * m == m + (j - i - 1) * m;
    }
  }

  lemma Regroup(q: nat, n: nat, i: nat, m: nat)
    ensures q * (n * m) + i * m == (q * n + i) * m
  {
    assert q * (n * m) == (q * n) * m;
  }

  lemma TileOffset(i: nat, m: nat, n: nat)
    requires i < n
    ensures i * m + m <= n * m
  {
    Scale(i, n, m);
  }

  lemma TileFits(base: Block, target: nat, i: nat)
    requires base.prefix <= target <= ADDRESS_BITS && i < Pow2(target - base.prefix)
    ensures NetworkAddress(base) + i * Size(target) + Size(target) - 1 <= BroadcastAddress(base) < ADDRESS_SPACE
  {
    TileOffset(i, Size(target), Pow2(target - base.prefix));
    Pow2Add(target - base.prefix, ADDRESS_BITS - target);
    MaskIsArithmetic(base);
  }

  lemma TileAligned(base: Block, target: nat, i: nat)
    requires base.prefix <= target <= ADDRESS_BITS
    ensures var t := NetworkAddress(base) + i * Size(target); ClearLow(t, ADDRESS_BITS - target) == t
  {
    var k, n := ADDRESS_BITS - target, Pow2(target - base.prefix);
    Pow2Add(target - base.prefix, k);
    var q := ClearLowQuotient(base.base, ADDRESS_BITS - base.prefix);
    Regroup(q, n, i, Pow2(k));
    ClearLowMultiple(q * n + i, 0, k);
  }

  /** Tile i starts i sizes after the base block, without wrapping around, and ends inside it. */
  lemma TileBounds(base: Block, target: nat, i: nat)
    requires base.prefix <= target <= ADDRESS_BITS && i < Pow2(target - base.prefix)
    ensures Tile(base, target, i).base == NetworkAddress(base) + i * Size(target)
    ensures NetworkAddress(Tile(base, target, i)) == NetworkAddress(base) + i * Size(target)
    ensures BroadcastAddress(Tile(base, target, i)) <= BroadcastAddress(base)
  {
    TileFits(base, target, i);
    TileAligned(base, target, i);
    Scale(0, i, Size(target));
  }

  lemma TilesDisjoint(base: Block, target: nat, i: nat, j: nat)
    requires base.prefix <= target <= ADDRESS_BITS && i < j < Pow2(target - base.prefix)
    ensures !ShareAddress(Tile(base, target, i), Tile(base, target, j))
  {
    TileBounds(base, target, i);
    TileBounds(base, target, j);
    Scale(i, j, Size(target));
    forall a: Addr
      ensures !(NetworkContainsIP(Tile(base, target, i), a) && NetworkContainsIP(Tile(base, target, j), a))
    {
      ContainsIsInterval(Tile(base, target, i), a);
      ContainsIsInterval(Tile(base, target, j), a);
    }
  }

  /** The tile that holds an address of the base block. */
  lemma TileOf(base: Block, target: nat, a: Addr) returns (i: nat)
    requires base.prefix <= target <= ADDRESS_BITS && NetworkContainsIP(base, a)
    ensures i < Pow2(target - base.prefix) && NetworkContainsIP(Tile(base, target, i), a)
  {
    var m, n := Size(target), Pow2(target - base.prefix);
    ContainsIsInterval(base, a);
    Pow2Add(target - base.prefix, ADDRESS_BITS - target);
    i := 0;
    while (i + 1) * m <= a - NetworkAddress(base)
      invariant i * m <= a - NetworkAddress(base)
      decreases a - NetworkAddress(base) - i * m
    {
      Scale(i, i + 1, m);
      i := i + 1;
    }
    if i >= n {
      Scale(n, i, m);
      assert false;
    }
    assert (i + 1) * m == i * m + m;
    TileBounds(base, target, i);
    ContainsIsInterval(Tile(base, target, i), a);
  }

  lemma TilesPartition(base: Block, target: nat)
    requires base.prefix <= target <= ADDRESS_BITS
    ensures PartitionedBy(base, Tiles(base, target))
  {
    var tiles := Tiles(base, target);
    forall a: Addr
      ensures NetworkContainsIP(base, a) <==> exists b | b in tiles :: NetworkContainsIP(b, a)
    {
      if NetworkContainsIP(base, a) {
        var i := TileOf(base, target, a);
        assert tiles[i] in tiles;
      }
      if b: Block :| b in tiles && NetworkContainsIP(b, a) {
        var i :| 0 <= i < |tiles| && b == tiles[i];
        TileBounds(base, target, i);
        ContainsIsInterval(b, a);
        ContainsIsInterval(base, a);
        Scale(0, i, Size(target));
      }
    }
    forall i, j | 0 <= i < j < |tiles|
      ensures !ShareAddress(tiles[i], tiles[j])
    {
      TilesDisjoint(base, target, i, j);
    }
  }

  /** What the loop makes of a base block: nothing, if the number of tiles does not fit a signed int. */
  function Made(base: Block, target: nat): seq<Block>
    requires base.prefix <= target <= ADDRESS_BITS
  {
    if target - base.prefix == 31 then [] else Tiles(base, target)
  }

  method MaskedBase(base: Block) returns (masked: Addr)
    ensures masked == NetworkAddress(base)
  {
    MaskIsArithmetic(base);
    masked := Masked(base.base, base.prefix);
  }

  /**
   * The loop builds the tiles of the base block. With 31 bits between the two prefixes the count
   * does not fit a signed int and the loop body is never entered.
   */
  method MakeNetPool(targetPrefix: nat, baseIP: Addr, basePrefix: nat) returns (result: seq<Block>)
    requires 1 <= basePrefix <= targetPrefix <= ADDRESS_BITS
    ensures result == Made(Block(baseIP, basePrefix), targetPrefix)
  {
    var base := Block(baseIP, basePrefix);
    var maskedBaseIP := MaskedBase(base);
    var subnetCount := ShiftOneInt32(targetPrefix - basePrefix);
    var subnetSize := Size(targetPrefix);
    result := [];
    var i := 0;
    while i < subnetCount
      invariant 0 <= i && (subnetCount >= 0 ==> i <= subnetCount) && (subnetCount < 0 ==> i == 0)
      invariant result == FirstTiles(base, targetPrefix, i)
    {
      var subnetIP := Wrap32(maskedBaseIP + i * subnetSize);
      assert Block(subnetIP, targetPrefix) == Tile(base, targetPrefix, i);
      result := result + [Block(subnetIP, targetPrefix)];
      i := i + 1;
    }
  }

  /** MakeNetPool splits the base block, unless all 31 bits below a /1 are asked for. */
  lemma MakeNetPoolPartitions(base: Block, target: nat)
    requires 1 <= base.prefix <= target <= ADDRESS_BITS
    ensures PartitionedBy(base, Made(base, target)) <==> target - base.prefix <= 30
  {
    TilesPartition(base, target);
    assert NetworkContainsIP(base, base.base);
  }

  // The whole pool

  datatype PoolEntry = PoolEntry(network: Block, size: int)

  function Quad(a: nat, b: nat, c: nat, d: nat): Addr
    requires a < 256 && b < 256 && c < 256 && d < 256
  {
    ((a * 256 + b) * 256 + c) * 256 + d
  }

  const NET_POOLS: seq<PoolEntry> := [
    PoolEntry(Block(Quad(172, 17, 0, 0), 16), 16),
    PoolEntry(Block(Quad(172, 18, 0, 0), 16), 16),
    PoolEntry(Block(Quad(172, 19, 0, 0), 16), 16),
    PoolEntry(Block(Quad(172, 20, 0, 0), 14), 16),
    PoolEntry(Block(Quad(172, 24, 0, 0), 14), 16),
    PoolEntry(Block(Quad(172, 28, 0, 0), 14), 16)]

  predicate ValidEntry(e: PoolEntry) {
    0 < e.size && e.network.prefix <= e.size
  }

  /** The blocks of valid entries, one base block after the other. */
  function Pools(entries: seq<PoolEntry>): seq<Block>
    requires forall k | 0 <= k < |entries| :: ValidEntry(entries[k]) && entries[k].size <= ADDRESS_BITS
  {
    if entries == [] then []
    else
      var last := |entries| - 1;
      assert ValidEntry(entries[last]);
      Pools(entries[..last]) + Made(entries[last].network, entries[last].size)
  }

  /** An entry with an impossible size makes the whole call fail. */
  method GetNetPools(entries: seq<PoolEntry>) returns (pools: Option<seq<Block>>)
    requires forall k | 0 <= k < |entries| :: 1 <= entries[k].network.prefix && entries[k].size <= ADDRESS_BITS
    ensures pools.Some? <==> forall k | 0 <= k < |entries| :: ValidEntry(entries[k])
    ensures pools.Some? ==> pools.value == Pools(entries)
  {
    var result := [];
    for i := 0 to |entries|
      invariant forall k | 0 <= k < i :: ValidEntry(entries[k])
      invariant result == Pools(entries[..i])
    {
      var e := entries[i];
      if e.size <= 0 || e.size < e.network.prefix {
        return None;
      }
      var subnets := MakeNetPool(e.size, e.network.base, e.network.prefix);
      result := result + subnets;
      assert entries[..i + 1][..i] == entries[..i];
    }
    assert entries[..|entries|] == entries;
    return Some(result);
  }

  /** A block that has host addresses to give out. */
  type Subnet = b: WrittenBlock | 1 <= b.prefix <= 30 witness Block(0, 16)

  // RFC 1918, section 3: the private block that all of the pool comes from.
  const PRIVATE_172: Block := Block(Quad(172, 16, 0, 0), 12)

  function PoolBase(i: nat): Addr
    requires i < 15
  {
    Quad(172, 17 + i, 0, 0)
  }

  lemma SizeOf16()
    ensures Size(16) == 0x1_0000
  {
    Pow2Add(8, 8);
    Pow2Add(4, 4);
    assert Pow2(4) == 16;
  }

  lemma AlignedNetwork(a: Addr, k: nat)
    requires a == k * 0x1_0000
    ensures NetworkAddress(Block(a, 16)) == a
  {
    SizeOf16();
    ClearLowMultiple(k, 0, 16);
  }

  lemma Aligned14(k: nat)
    requires k % 4 == 0 && 20 <= k <= 28
    ensures NetworkAddress(Block(Quad(172, k, 0, 0), 14)) == Quad(172, k, 0, 0)
  {
    SizeOf16();
    Pow2Add(2, 16);
    assert Pow2(2) == 4;
    ClearLowMultiple((172 * 256 + k) / 4, 0, 18);
    assert Quad(172, k, 0, 0) == (172 * 256 + k) / 4 * (4 * 0x1_0000);
  }

  lemma TileOf14(k: nat, i: nat)
    requires k % 4 == 0 && 20 <= k <= 28 && i < 4
    ensures Tile(Block(Quad(172, k, 0, 0), 14), 16, i) == Block(Quad(172, k + i, 0, 0), 16)
  {
    SizeOf16();
    Aligned14(k);
  }

  lemma TilesOf14(k: nat)
    requires k % 4 == 0 && 20 <= k <= 28
    ensures Tiles(Block(Quad(172, k, 0, 0), 14), 16) ==
            [Block(Quad(172, k, 0, 0), 16), Block(Quad(172, k + 1, 0, 0), 16),
             Block(Quad(172, k + 2, 0, 0), 16), Block(Quad(172, k + 3, 0, 0), 16)]
  {
    assert Pow2(2) == 4;
    TileOf14(k, 0);
    TileOf14(k, 1);
    TileOf14(k, 2);
    TileOf14(k, 3);
  }

  lemma TilesOf16(k: nat)
    requires k < 256
    ensures Tiles(Block(Quad(172, k, 0, 0), 16), 16) == [Block(Quad(172, k, 0, 0), 16)]
  {
    AlignedNetwork(Quad(172, k, 0, 0), 172 * 256 + k);
    assert Pow2(0) == 1;
  }

  function PrivatePool(): (pool: seq<Subnet>)
    ensures |pool| == 15 && forall i | 0 <= i < 15 :: pool[i] == Block(PoolBase(i), 16)
  {
    seq(15, i requires 0 <= i < 15 => var b: Subnet := Block(PoolBase(i), 16); b)
  }

  lemma PoolsSnoc(entries: seq<PoolEntry>, i: nat)
    requires i < |entries|
    requires forall k | 0 <= k < |entries| :: ValidEntry(entries[k]) && entries[k].size <= ADDRESS_BITS
    ensures Pools(entries[..i + 1]) == Pools(entries[..i]) + Made(entries[i].network, entries[i].size)
  {
    assert entries[..i + 1][..i] == entries[..i];
  }

  /** Entry i of the configuration yields the blocks m to n of the pool. */
  lemma PoolGrows(i: nat, m: nat, n: nat)
    requires i < 6 && m <= n <= 15
    requires Pools(NET_POOLS[..i]) == PrivatePool()[..m]
    requires Made(NET_POOLS[i].network, NET_POOLS[i].size) == PrivatePool()[m..n]
    ensures Pools(NET_POOLS[..i + 1]) == PrivatePool()[..n]
  {
    PoolsSnoc(NET_POOLS, i);
    assert PrivatePool()[..m] + PrivatePool()[m..n] == PrivatePool()[..n];
  }

  lemma PoolGrows16(i: nat)
    requires i < 3 && Pools(NET_POOLS[..i]) == PrivatePool()[..i]
    ensures Pools(NET_POOLS[..i + 1]) == PrivatePool()[..i + 1]
  {
    TilesOf16(17 + i);
    PoolGrows(i, i, i + 1);
  }

  lemma FourOfPool(m: nat)
    requires m + 4 <= 15
    ensures PrivatePool()[m..m + 4] ==
            [Block(Quad(172, m + 17, 0, 0), 16), Block(Quad(172, m + 18, 0, 0), 16),
             Block(Quad(172, m + 19, 0, 0), 16), Block(Quad(172, m + 20, 0, 0), 16)]
  {
    var pool := PrivatePool();
    assert pool[m..m + 4] == [pool[m], pool[m + 1], pool[m + 2], pool[m + 3]];
  }

  lemma MadeOf14(i: nat)
    requires 3 <= i < 6
    ensures NET_POOLS[i].size == 16 && NET_POOLS[i].network == Block(Quad(172, 4 * i + 8, 0, 0), 14)
    ensures Made(Block(Quad(172, 4 * i + 8, 0, 0), 14), 16) == PrivatePool()[4 * i - 9..4 * i - 5]
  {
    TilesOf14(4 * i + 8);
    FourOfPool(4 * i - 9);
  }

  lemma PoolGrows14(i: nat)
    requires 3 <= i < 6 && Pools(NET_POOLS[..i]) == PrivatePool()[..4 * i - 9]
    ensures Pools(NET_POOLS[..i + 1]) == PrivatePool()[..4 * i - 5]
  {
    MadeOf14(i);
    PoolGrows(i, 4 * i - 9, 4 * i - 5);
  }

  lemma EntriesValid()
    ensures forall k | 0 <= k < |NET_POOLS| :: ValidEntry(NET_POOLS[k]) && NET_POOLS[k].size <= ADDRESS_BITS
  {
  }

  /** How many blocks the first i entries yield. */
  function BlocksOf(i: nat): nat {
    if i <= 3 then i else 4 * i - 9
  }

  lemma {:induction false} FirstPools(i: nat)
    requires i <= 6
    ensures Pools(NET_POOLS[..i]) == PrivatePool()[..BlocksOf(i)]
  {
    if i == 0 {
      assert NET_POOLS[..0] == [];
    } else {
      FirstPools(i - 1);
      if i <= 3 {
        PoolGrows16(i - 1);
      } else {
        PoolGrows14(i - 1);
      }
    }
  }

  /** The configured pool is 172.17.0.0/16 to 172.31.0.0/16, in this order. */
  lemma NetPoolsValue()
    ensures forall k | 0 <= k < |NET_POOLS| :: ValidEntry(NET_POOLS[k]) && NET_POOLS[k].size <= ADDRESS_BITS
    ensures Pools(NET_POOLS) == PrivatePool()
  {
    EntriesValid();
    FirstPools(6);
    var p, pool := NET_POOLS, PrivatePool();
    assert p[..6] == p && pool[..15] == pool;
  }

  lemma PoolBlock(i: nat)
    requires i < 15
    ensures NetworkAddress(Block(PoolBase(i), 16)) == PoolBase(i)
    ensures BroadcastAddress(Block(PoolBase(i), 16)) == PoolBase(i) + 0xFFFF
  {
    SizeOf16();
    AlignedNetwork(PoolBase(i), 172 * 256 + 17 + i);
  }

  lemma PrivateRange()
    ensures NetworkAddress(PRIVATE_172) == Quad(172, 16, 0, 0)
    ensures BroadcastAddress(PRIVATE_172) == Quad(172, 31, 255, 255)
  {
    SizeOf16();
    Pow2Add(4, 16);
    assert Pow2(4) == 16;
    ClearLowMultiple((172 * 256 + 16) / 16, 0, 20);
  }

  /** The blocks of the configured pool share no address and stay inside the private range. */
  lemma NetPoolsDisjoint()
    ensures PairwiseDisjoint(PrivatePool())
    ensures forall b, a: Addr | b in PrivatePool() && NetworkContainsIP(b, a) :: NetworkContainsIP(PRIVATE_172, a)
  {
    var pool := PrivatePool();
    SizeOf16();
    forall i, j | 0 <= i < j < |pool|
      ensures !ShareAddress(pool[i], pool[j])
    {
      PoolBlock(i);
      PoolBlock(j);
      forall a: Addr
        ensures !(NetworkContainsIP(pool[i], a) && NetworkContainsIP(pool[j], a))
      {
        ContainsIsInterval(pool[i], a);
        ContainsIsInterval(pool[j], a);
      }
    }
    PrivateRange();
    forall b, a: Addr | b in pool && NetworkContainsIP(b, a)
      ensures NetworkContainsIP(PRIVATE_172, a)
    {
      var i :| 0 <= i < |pool| && b == pool[i];
      PoolBlock(i);
      ContainsIsInterval(b, a);
      ContainsIsInterval(PRIVATE_172, a);
    }
  }

  // Host addresses of one subnet

  /** The addresses handed out of a subnet: network + 2 to broadcast - 1. */
  predicate HostAddress(subnet: Block, a: Addr) {
    NetworkAddress(subnet) + 2 <= a < BroadcastAddress(subnet)
  }

  function HostAddresses(subnet: Block): (ips: seq<Addr>)
    requires subnet.prefix <= 30
  {
    MaskIsArithmetic(subnet);
    Pow2Monotone(2, ADDRESS_BITS - subnet.prefix);
    seq(Size(subnet.prefix) - 3,
        i requires 0 <= i < Size(subnet.prefix) - 3 => (NetworkAddress(subnet) + 2 + i) as Addr)
  }

  /** The last free address keeps clear of the end of the 32-bit range. */
  lemma HostBits(subnet: Block)
    ensures BroadcastAddress(subnet) - NetworkAddress(subnet) == Size(subnet.prefix) - 1
    ensures subnet.prefix <= 30 <==> Size(subnet.prefix) >= 4
    ensures BroadcastAddress(subnet) < ADDRESS_SPACE
  {
    MaskIsArithmetic(subnet);
    if subnet.prefix <= 30 {
      Pow2Monotone(2, ADDRESS_BITS - subnet.prefix);
    } else {
      Pow2Monotone(ADDRESS_BITS - subnet.prefix, 1);
    }
  }

  method BroadcastOf(subnet: Block, network: Addr) returns (broadcast: Addr)
    requires network == NetworkAddress(subnet)
    ensures broadcast == BroadcastAddress(subnet)
  {
    MaskIsArithmetic(subnet);
    var mask := PrefixMask(subnet.prefix);
    broadcast := Or(network, Complement(mask, ADDRESS_BITS), ADDRESS_BITS);
  }

  lemma HostAddressesAre(subnet: Block, ips: seq<Addr>)
    requires subnet.prefix <= 30
    requires |ips| == BroadcastAddress(subnet) - NetworkAddress(subnet) - 2
    requires forall k | 0 <= k < |ips| :: ips[k] == NetworkAddress(subnet) + 2 + k
    ensures ips == HostAddresses(subnet)
  {
  }

  method CountHosts(network: Addr, broadcast: Addr) returns (result: seq<Addr>)
    requires network + 2 < broadcast
    ensures |result| == broadcast - network - 2
    ensures forall k | 0 <= k < |result| :: result[k] == network + 2 + k
  {
    var hostBits := Wrap32(broadcast - network);
    var count := Wrap32(hostBits - 2);
    result := [];
    var i: Addr := 1;
    while i <= count
      invariant 1 <= i <= count + 1
      invariant |result| == i - 1
      invariant forall k | 0 <= k < |result| :: result[k] == network + 2 + k
    {
      var ip := Wrap32(network + i + 1);
      if ip >= broadcast {
        assert false;
        break;
      }
      result := result + [ip];
      i := Wrap32(i + 1);
    }
  }

  /** A subnet too small for hosts is an error; otherwise the loop runs to its end. */
  method GenerateSubnetIPs(subnet: Block) returns (ips: Option<seq<Addr>>)
    ensures ips.Some? <==> subnet.prefix <= 30
    ensures ips.Some? ==> ips.value == HostAddresses(subnet)
  {
    HostBits(subnet);
    var network := MaskedBase(subnet);
    var broadcast := BroadcastOf(subnet, network);
    if Wrap32(broadcast - network) <= 2 {
      return None;
    }
    var result := CountHosts(network, broadcast);
    HostAddressesAre(subnet, result);
    return Some(result);
  }

  /** Exactly the host addresses, each once, in ascending order. */
  lemma HostAddressesComplete(subnet: Block)
    requires subnet.prefix <= 30
    ensures forall i, j | 0 <= i < j < |HostAddresses(subnet)| :: HostAddresses(subnet)[i] < HostAddresses(subnet)[j]
    ensures forall a: Addr :: a in HostAddresses(subnet) <==> HostAddress(subnet, a)
    ensures |HostAddresses(subnet)| == Size(subnet.prefix) - 3 >= 1
    ensures forall a: Addr | HostAddress(subnet, a) :: NetworkContainsIP(subnet, a)
  {
    var ips := HostAddresses(subnet);
    Pow2Monotone(2, ADDRESS_BITS - subnet.prefix);
    assert Pow2(2) == 4;
    forall a: Addr | HostAddress(subnet, a)
      ensures a in ips && NetworkContainsIP(subnet, a)
    {
      assert ips[a - NetworkAddress(subnet) - 2] == a;
      ContainsIsInterval(subnet, a);
    }
  }
}
