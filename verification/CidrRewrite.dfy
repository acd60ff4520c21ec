/**
 Rendering of deny networks into Squid's address space: parsing order and duplicates,
 `address_exclude` as repeated halving, and the rewrite that keeps an IPv6 network
 from swallowing the IPv4-mapped range.
 */
module CidrRewrite {
  import opened Common

  datatype Network =
    | V4(address: nat, prefix: nat)
    | V6(address: nat, prefix: nat)

  function Width(n: Network): nat {
    if n.V4? then 32 else 128
  }

  function Pow2(k: nat): (r: nat)
    ensures r > 0
  {
    if k == 0 then 1 else 2 * Pow2(k - 1)
  }

  /** Number of addresses in a network. */
  function Size(n: Network): nat
    requires n.prefix <= Width(n)
  {
    Pow2(Width(n) - n.prefix)
  }

  /** A network object: the host bits of its address are zero. */
  predicate Valid(n: Network) {
    && n.prefix <= Width(n)
    && n.address % Size(n) == 0
    && n.address + Size(n) <= Pow2(Width(n))
  }

  predicate Contains(n: Network, x: nat)
    requires n.prefix <= Width(n)
  {
    n.address <= x < n.address + Size(n)
  }

  /** `a.subnet_of(b)` for networks of one version. */
  predicate Inside(a: Network, b: Network)
    requires a.prefix <= Width(a) && b.prefix <= Width(b)
  {
    b.address <= a.address && a.address + Size(a) <= b.address + Size(b)
  }

  predicate Disjoint(a: Network, b: Network)
    requires a.prefix <= Width(a) && b.prefix <= Width(b)
  {
    a.address + Size(a) <= b.address || b.address + Size(b) <= a.address
  }

  /** ::ffff:0:0/96, the IPv4-mapped addresses. */
  const MAPPED: Network := V6(0xFFFF_0000_0000, 96)

  /** In figures: an IPv4 network has at most 2^32 addresses and ends within them, an IPv6 network at most 2^128, and the
      mapped range is the IPv6 addresses from 0xFFFF_0000_0000 up to 0xFFFF_FFFF_FFFF. */
  lemma NetworksInFigures(n: Network, x: nat)
    ensures Valid(n) && n.V4? ==> n.prefix <= 32 && n.address + Size(n) <= 0x1_0000_0000
    ensures Valid(n) && n.V6? ==> n.prefix <= 128 && n.address + Size(n) <= 0x1_0000_0000_0000_0000_0000_0000_0000_0000
    ensures n.prefix == Width(n) ==> Size(n) == 1
    ensures Valid(V4(0, 0)) && Size(V4(0, 0)) == 0x1_0000_0000 && Valid(V6(0, 0))
    ensures MAPPED.V6? && (Contains(MAPPED, x) <==> 0xFFFF_0000_0000 <= x <= 0xFFFF_FFFF_FFFF)
  {
    PowersOfTwo(32);
    PowersOfTwo(128);
  }

  lemma PowersOfTwo(k: nat)
    ensures k == 32 ==> Pow2(k) == 0x1_0000_0000
    ensures k == 128 ==> Pow2(k) == 0x1_0000_0000_0000_0000_0000_0000_0000_0000
  {
    Squared(1, 2, 2);
    Squared(2, 4, 4);
    Squared(4, 8, 0x10);
    Squared(8, 16, 0x100);
    Squared(16, 32, 0x1_0000);
    Squared(32, 64, 0x1_0000_0000);
    Squared(64, 128, 0x1_0000_0000_0000_0000);
  }

  lemma Squared(half: nat, k: nat, root: nat)
    requires k == half + half && Pow2(half) == root
    ensures Pow2(k) == root * root
  {
    PowSum(half, half);
  }

  lemma {:induction false} PowSum(a: nat, b: nat)
    ensures Pow2(a + b) == Pow2(a) * Pow2(b)
  {
    if a > 0 {
      PowSum(a - 1, b);
      assert Pow2(a + b) == 2 * (Pow2(a - 1) * Pow2(b));
    }
  }

  // ----- Powers of two and alignment -----

  lemma MultipleMod(k: nat, m: nat)
    requires m > 0
    ensures (k * m) % m == 0
  {
    if k > 0 {
      MultipleMod(k - 1, m);
      assert k * m == (k - 1) * m + m;
      assert ((k - 1) * m + m) % m == ((k - 1) * m) % m by {
        AddMod((k - 1) * m, m);
      }
    }
  }

  lemma AddMod(a: nat, m: nat)
    requires m > 0
    ensures (a + m) % m == a % m
  {
    var q := a / m;
    assert a + m == (q + 1) * m + a % m;
    DivUnique(a + m, m, q + 1, a % m);
  }

  lemma DivUnique(a: nat, m: nat, q: nat, r: nat)
    requires 0 <= r < m && a == q * m + r
    ensures a % m == r
  {
    var d: int := a / m - q;
    assert a % m == a - (a / m) * m;
    assert (a / m) * m == q * m + d * m;
    assert d > 0 ==> d * m >= m;
    assert d < 0 ==> d * m + m <= 0;
  }

  /** A multiple of a larger power of two is one of any smaller power. */
  lemma {:induction false} AlignedSmaller(a: nat, k: nat, j: nat)
    requires j <= k && a % Pow2(k) == 0
    ensures a % Pow2(j) == 0
  {
    if j < k {
      var m := Pow2(k - 1);
      var q := a / (2 * m);
      assert a == q * (2 * m) == (2 * q) * m;
      MultipleMod(2 * q, m);
      AlignedSmaller(a, k - 1, j);
    }
  }

  lemma {:induction false} PowAligned(k: nat, j: nat)
    requires j <= k
    ensures Pow2(k) % Pow2(j) == 0
  {
    MultipleMod(1, Pow2(k));
    AlignedSmaller(Pow2(k), k, j);
  }

  lemma SumAligned(a: nat, b: nat, m: nat)
    requires m > 0 && a % m == 0 && b % m == 0
    ensures (a + b) % m == 0
  {
    assert a == (a / m) * m && b == (b / m) * m;
    assert a + b == (a / m + b / m) * m;
    MultipleMod(a / m + b / m, m);
  }

  /** Multiples of m are at least m apart. */
  lemma MultiplesApart(x: nat, y: nat, m: nat)
    requires m > 0 && x % m == 0 && y % m == 0 && x < y
    ensures x + m <= y
  {
    var i, j := x / m, y / m;
    assert x == i * m && y == j * m;
    assert j <= i ==> j * m <= i * m;
    assert (i + 1) * m <= j * m;
  }

  lemma {:induction false} PowMonotone(j: nat, k: nat)
    requires j <= k
    ensures Pow2(j) <= Pow2(k)
    ensures j < k ==> 2 * Pow2(j) <= Pow2(k)
  {
    if j < k {
      PowMonotone(j, k - 1);
    }
  }

  // ----- Halving -----

  function Lower(n: Network): Network {
    n.(prefix := n.prefix + 1)
  }

  function Upper(n: Network): Network
    requires n.prefix < Width(n)
  {
    n.(address := n.address + Pow2(Width(n) - n.prefix - 1), prefix := n.prefix + 1)
  }

  lemma HalvesValid(n: Network)
    requires Valid(n) && n.prefix < Width(n)
    ensures Valid(Lower(n)) && Valid(Upper(n))
    ensures Lower(n).address == n.address
    ensures Lower(n).address + Size(Lower(n)) == Upper(n).address
    ensures Upper(n).address + Size(Upper(n)) == n.address + Size(n)
  {
    var h := Width(n) - n.prefix;
    AlignedSmaller(n.address, h, h - 1);
    AddMod(n.address, Pow2(h - 1));
  }

  /** A smaller network inside a network lies in one of its halves. */
  lemma InOneHalf(a: Network, n: Network)
    requires Valid(a) && Valid(n) && Width(a) == Width(n)
    requires Inside(a, n) && a.prefix > n.prefix
    ensures Inside(a, Lower(n)) || Inside(a, Upper(n))
  {
    HalvesValid(n);
    var h, k := Width(n) - n.prefix, Width(a) - a.prefix;
    var mid := Upper(n).address;
    if a.address < mid {
      AlignedSmaller(n.address, h, k);
      PowAligned(h - 1, k);
      SumAligned(n.address, Pow2(h - 1), Pow2(k));
      MultiplesApart(a.address, mid, Pow2(k));
    }
  }

  lemma SmallerIsNestedOrDisjoint(a: Network, b: Network)
    requires Valid(a) && Valid(b) && Width(a) == Width(b) && b.prefix <= a.prefix
    ensures Inside(a, b) || Disjoint(a, b)
  {
    var h, k := Width(b) - b.prefix, Width(a) - a.prefix;
    PowMonotone(k, h);
    AlignedSmaller(b.address, h, k);
    PowAligned(h, k);
    SumAligned(b.address, Pow2(h), Pow2(k));
    if a.address < b.address {
      MultiplesApart(a.address, b.address, Pow2(k));
    } else if a.address < b.address + Pow2(h) {
      MultiplesApart(a.address, b.address + Pow2(h), Pow2(k));
    }
  }

  /** Two networks of one version are nested or disjoint. */
  lemma NestedOrDisjoint(a: Network, b: Network)
    requires Valid(a) && Valid(b) && Width(a) == Width(b)
    ensures Inside(a, b) || Inside(b, a) || Disjoint(a, b)
  {
    if b.prefix <= a.prefix {
      SmallerIsNestedOrDisjoint(a, b);
    } else {
      SmallerIsNestedOrDisjoint(b, a);
    }
  }

  lemma InsideIsSmaller(a: Network, n: Network)
    requires Valid(a) && Valid(n) && Width(a) == Width(n) && a.V6? == n.V6? && Inside(a, n)
    ensures n.prefix <= a.prefix
    ensures a.prefix == n.prefix ==> a == n
  {
    if a.prefix < n.prefix {
      PowMonotone(Width(n) - n.prefix, Width(a) - a.prefix);
    }
  }

  lemma MappedIsValid()
    ensures Valid(MAPPED) && Size(MAPPED) == 0x1_0000_0000
  {
    assert Pow2(8) == 0x100;
    assert Pow2(16) == 0x1_0000;
    assert Pow2(24) == 0x100_0000;
    assert Pow2(32) == 0x1_0000_0000;
    PowMonotone(48, 128);
    assert Pow2(40) == 0x100_0000_0000;
    assert Pow2(48) == 0x1_0000_0000_0000;
  }

  // ----- Exclusion -----

  predicate Covered(ns: seq<Network>, x: nat) {
    exists i :: 0 <= i < |ns| && ns[i].V6? && ns[i].prefix <= 128 && Contains(ns[i], x)
  }

  predicate PairwiseDisjoint(ns: seq<Network>)
    requires forall i :: 0 <= i < |ns| ==> ns[i].prefix <= Width(ns[i])
  {
    forall i, j :: 0 <= i < j < |ns| ==> Disjoint(ns[i], ns[j])
  }

  predicate AllV6(ns: seq<Network>) {
    forall i :: 0 <= i < |ns| ==> ns[i].V6? && Valid(ns[i])
  }

  /** `network.address_exclude(other)` for IPv6: halve, give out the half without
      `other`, go on with the half that has it. */
  method AddressExclude(network: Network, other: Network) returns (parts: seq<Network>)
    requires network.V6? && other.V6? && Valid(network) && Valid(other)
    requires Inside(other, network) && other != network
    ensures AllV6(parts) && PairwiseDisjoint(parts)
    ensures forall i :: 0 <= i < |parts| ==> Inside(parts[i], network) && Disjoint(parts[i], other)
    ensures forall x :: Covered(parts, x) <==> Contains(network, x) && !Contains(other, x)
    ensures |parts| == other.prefix - network.prefix
  {
    hide Pow2;
    InsideIsSmaller(other, network);
    parts := [];
    var block := network;
    while block != other
      invariant block.V6? && Valid(block) && Inside(other, block) && Inside(block, network)
      invariant network.prefix <= block.prefix <= other.prefix
      invariant AllV6(parts) && PairwiseDisjoint(parts)
      invariant forall i :: 0 <= i < |parts| ==> Inside(parts[i], network) && Disjoint(parts[i], block)
      invariant forall x :: Covered(parts, x) <==> Contains(network, x) && !Contains(block, x)
      invariant |parts| == block.prefix - network.prefix
      decreases other.prefix - block.prefix
    {
      InsideIsSmaller(other, block);
      HalvesValid(block);
      InOneHalf(other, block);
      var s1, s2 := Lower(block), Upper(block);
      var given, kept := s2, s1;
      if !Inside(other, s1) {
        given, kept := s1, s2;
      }
      InsideIsSmaller(other, kept);
      CoveredAppend(parts, given);
      assert forall x :: Contains(block, x) <==> Contains(given, x) || Contains(kept, x);
      parts := parts + [given];
      block := kept;
    }
  }

  lemma CoveredAppend(ns: seq<Network>, n: Network)
    requires n.V6? && n.prefix <= 128
    ensures forall x :: Covered(ns + [n], x) <==> Covered(ns, x) || Contains(n, x)
  {
    forall x
      ensures Covered(ns + [n], x) <==> Covered(ns, x) || Contains(n, x)
    {
      if Covered(ns, x) {
        var i :| 0 <= i < |ns| && ns[i].V6? && ns[i].prefix <= 128 && Contains(ns[i], x);
        assert (ns + [n])[i] == ns[i];
      }
      if Contains(n, x) {
        assert (ns + [n])[|ns|] == n;
      }
    }
  }

  // ----- Order and duplicates -----

  /** The key of `sorted`: version, address, prefix length. */
  predicate KeyLess(a: Network, b: Network) {
    || (a.V4? && b.V6?)
    || (a.V4? == b.V4? && (a.address < b.address || (a.address == b.address && a.prefix < b.prefix)))
  }

  /** Networks are ordered by version, then by address, then by prefix. */
  lemma KeysAreOrdered(a: Network, b: Network)
    ensures a.V4? && b.V6? ==> KeyLess(a, b)
    ensures a.V4? == b.V4? && a.address < b.address ==> KeyLess(a, b)
    ensures a.V4? == b.V4? && a.address == b.address ==> (KeyLess(a, b) <==> a.prefix < b.prefix)
    ensures !(KeyLess(a, b) && KeyLess(b, a))
  {
  }

  predicate KeySorted(ns: seq<Network>) {
    forall i, j :: 0 <= i < j < |ns| ==> KeyLess(ns[i], ns[j])
  }

  function InsertNetwork(n: Network, ns: seq<Network>): (r: seq<Network>)
    requires KeySorted(ns)
    ensures KeySorted(r)
    ensures forall x :: x in r <==> x == n || x in ns
  {
    if ns == [] then [n]
    else if n == ns[0] then ns
    else if KeyLess(n, ns[0]) then [n] + ns
    else
      var rest := InsertNetwork(n, ns[1..]);
      assert forall x :: x in ns <==> x == ns[0] || x in ns[1..];
      assert forall j :: 0 <= j < |rest| ==> rest[j] in rest;
      [ns[0]] + rest
  }

  /** `sorted(networks)` of a set of networks. */
  function SortedNetworks(ns: seq<Network>): (r: seq<Network>)
    ensures KeySorted(r)
    ensures forall x :: x in r <==> x in ns
  {
    if ns == [] then [] else InsertNetwork(ns[0], SortedNetworks(ns[1..]))
  }

  /** One entry of the raw list, as `ip_network` reads it. */
  datatype Parsed = Empty | Malformed | Net(network: Network)

  /** `_parse_network_values`: blanks are skipped, duplicates merged, the rest put in
      the order of the key; any malformed entry refuses the list. */
  method ParseNetworkValues(values: seq<Parsed>) returns (r: Option<seq<Network>>)
    ensures r == None <==> Malformed in values
    ensures r.Some? ==> KeySorted(r.value) && forall n :: n in r.value <==> Net(n) in values
  {
    var networks: seq<Network> := [];
    for i := 0 to |values|
      invariant Malformed !in values[..i]
      invariant forall n :: n in networks <==> Net(n) in values[..i]
    {
      assert values[..i + 1] == values[..i] + [values[i]];
      match values[i] {
        case Empty =>
        case Malformed =>
          return None;
        case Net(n) =>
          networks := networks + [n];
      }
    }
    assert values[..|values|] == values;
    return Some(SortedNetworks(networks));
  }

  // ----- The rewrite -----

  predicate AllValid(ns: seq<Network>) {
    forall i :: 0 <= i < |ns| ==> Valid(ns[i])
  }

  /** The IPv4 entries of a list, in order. */
  function OnlyV4(ns: seq<Network>): seq<Network> {
    if ns == [] then []
    else if ns[0].V4? then [ns[0]] + OnlyV4(ns[1..])
    else OnlyV4(ns[1..])
  }

  /** An entry that states IPv4 policy in IPv6 clothes. */
  predicate MappedPolicy(n: Network) {
    n.V6? && n.prefix <= 128 && Inside(n, MAPPED)
  }

  /** No IPv6 entry meets the IPv4-mapped range. */
  predicate ClearOfMapped(ns: seq<Network>) {
    forall i :: 0 <= i < |ns| && ns[i].V6? ==> ns[i].prefix <= 128 && Disjoint(ns[i], MAPPED)
  }

  /** Outside the mapped range, the two lists deny the same IPv6 addresses. */
  ghost predicate SameV6Policy(a: seq<Network>, b: seq<Network>) {
    forall x: nat :: !Contains(MAPPED, x) ==> (Covered(a, x) <==> Covered(b, x))
  }

  lemma CoveredConcat(a: seq<Network>, b: seq<Network>)
    ensures forall x :: Covered(a + b, x) <==> Covered(a, x) || Covered(b, x)
  {
    forall x
      ensures Covered(a + b, x) <==> Covered(a, x) || Covered(b, x)
    {
      if Covered(a, x) {
        var i :| 0 <= i < |a| && a[i].V6? && a[i].prefix <= 128 && Contains(a[i], x);
        assert (a + b)[i] == a[i];
      }
      if Covered(b, x) {
        var i :| 0 <= i < |b| && b[i].V6? && b[i].prefix <= 128 && Contains(b[i], x);
        assert (a + b)[|a| + i] == b[i];
      }
    }
  }

  lemma {:induction false} OnlyV4Concat(a: seq<Network>, b: seq<Network>)
    ensures OnlyV4(a + b) == OnlyV4(a) + OnlyV4(b)
  {
    if a == [] {
      assert a + b == b;
    } else {
      assert (a + b)[1..] == a[1..] + b;
      OnlyV4Concat(a[1..], b);
    }
  }

  lemma {:induction false} NoV4(ns: seq<Network>)
    requires AllV6(ns)
    ensures OnlyV4(ns) == []
  {
    if ns != [] {
      NoV4(ns[1..]);
    }
  }

  /** A rendered list: valid entries, none meeting the mapped range, denying exactly the
      same IPv6 addresses outside it, with the IPv4 entries as they were. */
  ghost predicate Renders(networks: seq<Network>, out: seq<Network>) {
    && AllValid(out) && ClearOfMapped(out)
    && SameV6Policy(networks, out)
    && OnlyV4(out) == OnlyV4(networks)
  }

  lemma RendersAppend(a: seq<Network>, outA: seq<Network>, b: seq<Network>, outB: seq<Network>)
    requires Renders(a, outA) && Renders(b, outB)
    ensures Renders(a + b, outA + outB)
  {
    hide Covered, Contains, Valid, OnlyV4;
    CoveredConcat(a, b);
    CoveredConcat(outA, outB);
    OnlyV4Concat(a, b);
    OnlyV4Concat(outA, outB);
  }

  /** Sorting keeps what a list covers. */
  lemma CoveredBySame(a: seq<Network>, b: seq<Network>)
    requires forall n :: n in a <==> n in b
    ensures forall x :: Covered(a, x) <==> Covered(b, x)
  {
    forall x
      ensures Covered(a, x) <==> Covered(b, x)
    {
      if Covered(a, x) {
        var i :| 0 <= i < |a| && a[i].V6? && a[i].prefix <= 128 && Contains(a[i], x);
        assert a[i] in b;
      }
      if Covered(b, x) {
        var i :| 0 <= i < |b| && b[i].V6? && b[i].prefix <= 128 && Contains(b[i], x);
        assert b[i] in a;
      }
    }
  }

  lemma RendersNothing()
    ensures Renders([], [])
  {
  }

  lemma RendersItself(n: Network)
    requires Valid(n) && (n.V6? ==> Disjoint(n, MAPPED))
    ensures Renders([n], [n])
  {
  }

  /** The sorted parts of a network around the mapped range stand for the network. */
  lemma RendersSplit(n: Network, parts: seq<Network>, sorted: seq<Network>)
    requires n.V6? && Valid(n) && AllV6(parts)
    requires forall i :: 0 <= i < |parts| ==> Disjoint(parts[i], MAPPED)
    requires forall x :: Covered(parts, x) <==> Contains(n, x) && !Contains(MAPPED, x)
    requires forall x :: x in sorted <==> x in parts
    ensures Renders([n], sorted)
  {
    hide Pow2, Contains;
    forall i | 0 <= i < |sorted|
      ensures sorted[i].V6? && Valid(sorted[i]) && Disjoint(sorted[i], MAPPED)
    {
      assert sorted[i] in parts;
    }
    NoV4(sorted);
    assert OnlyV4([n]) == OnlyV4([n][1..]);
    hide Covered, Valid, Disjoint;
    CoveredBySame(parts, sorted);
    CoveredAppend([], n);
    assert [] + [n] == [n];
  }

  /** What one entry is rendered to. */
  method RenderEntry(network: Network) returns (r: Option<seq<Network>>)
    requires Valid(network)
    ensures r == None <==> MappedPolicy(network)
    ensures r.Some? ==> Renders([network], r.value)
  {
    hide Pow2, Renders, Covered;
    MappedIsValid();
    if network.V6? {
      if Inside(network, MAPPED) {
        return None;
      }
      NestedOrDisjoint(network, MAPPED);
      if Inside(MAPPED, network) {
        var parts := AddressExclude(network, MAPPED);
        var sorted := SortedNetworks(parts);
        RendersSplit(network, parts, sorted);
        return Some(sorted);
      }
    }
    RendersItself(network);
    return Some([network]);
  }

  /** `squid_acl_networks`: refuses IPv4-mapped policy; otherwise no IPv6 entry meets the
      mapped range any more, exactly the same IPv6 addresses outside it are denied, and
      the IPv4 entries are unchanged. */
  method SquidAclNetworks(networks: seq<Network>) returns (r: Option<seq<Network>>)
    requires AllValid(networks)
    ensures r == None <==> exists i :: 0 <= i < |networks| && MappedPolicy(networks[i])
    ensures r.Some? ==> Renders(networks, r.value)
  {
    hide Renders, MappedPolicy;
    var rendered: seq<Network> := [];
    RendersNothing();
    assert networks[..0] == [];
    for i := 0 to |networks|
      invariant forall j :: 0 <= j < i ==> !MappedPolicy(networks[j])
      invariant Renders(networks[..i], rendered)
    {
      var network := networks[i];
      var entry := RenderEntry(network);
      if entry == None {
        return None;
      }
      assert networks[..i + 1] == networks[..i] + [network];
      RendersAppend(networks[..i], rendered, [network], entry.value);
      rendered := rendered + entry.value;
    }
    assert networks[..|networks|] == networks;
    return Some(rendered);
  }
}
