/** The address range both pool generators of cpplib/ip_pool_mgmt.h derive from a network and a mask. */
module AddressRange {

  const TWO_32 := 0x1_0000_0000

  /** The lowest set bit of a mask: two to the number of its trailing zero bits. */
  function LowestBit(mask: nat): (r: nat)
    requires mask > 0
    ensures 1 <= r <= mask
  {
    if mask % 2 == 1 then 1 else 2 * LowestBit(mask / 2)
  }

  function Pow2(k: nat): nat {
    if k == 0 then 1 else 2 * Pow2(k - 1)
  }

  /** It is the one power of two that divides the mask with an odd quotient. */
  lemma {:induction false} LowestBitDivides(mask: nat) returns (k: nat, odd: nat)
    requires mask > 0
    ensures LowestBit(mask) == Pow2(k) && mask == Pow2(k) * odd && odd % 2 == 1
  {
    if mask % 2 == 1 {
      k, odd := 0, mask;
    } else {
      k, odd := LowestBitDivides(mask / 2);
      k := k + 1;
    }
  }

  lemma DoubleLeft(x: nat, y: nat)
    ensures (2 * x) * y == x * (2 * y)
    ensures x > 0 && y > 0 ==> 2 * x <= x * (2 * y)
  {
    if x > 0 && y > 0 {
      assert x * (2 * y) == x * (2 * y - 2) + 2 * x;
    }
  }

  lemma LowestBitDouble(half: nat)
    requires half > 0
    ensures LowestBit(2 * half) == 2 * LowestBit(half)
  {}

  lemma Halve(total: nat, m: nat)
    requires total > 0 && m > 0
    ensures (2 * total) * m == total * (2 * m) && 2 * total <= total * (2 * m)
    ensures (2 * total) * LowestBit(m) == total * LowestBit(2 * m)
  {
    DoubleLeft(total, m);
    LowestBitDouble(m);
    DoubleLeft(total, LowestBit(m));
  }

  /** The loop that counts the addresses of a network; it would not end for a zero mask. */
  method CountAddresses(mask: nat) returns (total: nat)
    requires 0 < mask < TWO_32
    ensures total == LowestBit(mask)
  {
    total := 1;
    var n := mask;
    while n % 2 == 0
      invariant n > 0 && total > 0
      invariant total * n == mask
      invariant total * LowestBit(n) == LowestBit(mask)
      decreases n
    {
      Halve(total, n / 2);
      total := Shl1(total);
      n := n / 2;
    }
  }

  /** net + i in 32 bits. */
  function Host(net: nat, i: nat): nat {
    (net + i) % TWO_32
  }

  lemma HostsDiffer(net: nat, i: nat, j: nat)
    requires j < i < j + TWO_32
    ensures Host(net, i) != Host(net, j)
  {
    var a, b := net + i, net + j;
    assert a == TWO_32 * (a / TWO_32) + a % TWO_32 && b == TWO_32 * (b / TWO_32) + b % TWO_32;
  }

  ghost function HostsBelow(net: nat, n: nat): set<nat> {
    set i: nat | 1 <= i < n :: Host(net, i)
  }

  lemma HostsBelowNext(net: nat, n: nat)
    requires n >= 1
    ensures HostsBelow(net, n + 1) == HostsBelow(net, n) + {Host(net, n)}
  {}

  /** The host addresses of a network of `total` addresses: all but the first and the last. */
  ghost function Hosts(net: nat, total: nat): set<nat>
    requires total > 0
  {
    HostsBelow(net, total - 1)
  }

  /** Without wrap-around they are the interval net+1 .. net+total-2. */
  lemma HostsAreInterval(net: nat, total: nat, a: nat)
    requires total > 0 && net + total <= TWO_32
    ensures a in Hosts(net, total) <==> net < a < net + total - 1
  {
    if net < a < net + total - 1 {
      assert a == Host(net, a - net);
    }
  }

  /** x << 1 on 32 bits. */
  function Shl1(x: nat): nat {
    2 * x % TWO_32
  }
}

/** ue_static_pool: a 256-ary trie over the four bytes of an address, with a used flag at the leaves. */
module StaticPool {
  import opened AddressRange

  /** Byte `i` of an address, most significant first; a shift right by eight is a division by 256. */
  function Byte(a: nat, i: nat): (b: nat)
    requires i < 4
    ensures b < 256
  {
    (if i == 3 then a else if i == 2 then a / 256 else if i == 1 then a / 256 / 256 else a / 256 / 256 / 256) % 256
  }

  lemma BytesDetermine(a: nat)
    requires a < TWO_32
    ensures a == 256 * (256 * (256 * Byte(a, 0) + Byte(a, 1)) + Byte(a, 2)) + Byte(a, 3)
  {
    var x := a / 256;
    var y := x / 256;
    assert a == 256 * x + a % 256 && x == 256 * y + x % 256 && y == 256 * (y / 256) + y % 256;
  }

  /** Where a node is: the bytes that lead to it from the root. */
  datatype Place = Top | Below(parent: Place, byte: nat) {
    function Depth(): nat {
      if Top? then 0 else parent.Depth() + 1
    }
  }

  /** The place the first `i` bytes of an address lead to. */
  function Way(a: nat, i: nat): (p: Place)
    requires i <= 4
    ensures p.Depth() == i
  {
    if i == 0 then Top else Below(Way(a, i - 1), Byte(a, i - 1))
  }

  function Leaf(a: nat): Place {
    Way(a, 4)
  }

  lemma LeafInjective(a: nat, b: nat)
    requires a < TWO_32 && b < TWO_32 && Leaf(a) == Leaf(b)
    ensures a == b
  {
    BytesDetermine(a);
    BytesDetermine(b);
    assert Way(a, 4).parent == Way(a, 3) && Way(a, 3).parent == Way(a, 2) && Way(a, 2).parent == Way(a, 1);
    assert Way(b, 4).parent == Way(b, 3) && Way(b, 3).parent == Way(b, 2) && Way(b, 2).parent == Way(b, 1);
    assert Byte(a, 0) == Byte(b, 0) && Byte(a, 1) == Byte(b, 1) && Byte(a, 2) == Byte(b, 2) && Byte(a, 3) == Byte(b, 3);
  }

  lemma LeafOnWay(a: nat, b: nat, i: nat)
    requires a < TWO_32 && b < TWO_32 && i <= 4 && Leaf(a) == Way(b, i)
    ensures i == 4 && a == b
  {
    assert Way(b, i).Depth() == i;
    LeafInjective(a, b);
  }

  /** The addresses whose leaf is among the places. */
  ghost function LeavesOf(places: set<Place>): set<nat> {
    set a: nat | a < TWO_32 && Leaf(a) in places
  }

  lemma LeavesAdd(places: set<Place>, host: nat, i: nat)
    requires host < TWO_32 && i < 4
    ensures LeavesOf(places + {Way(host, i + 1)}) == if i < 3 then LeavesOf(places) else LeavesOf(places) + {host}
  {
    forall a: nat | a < TWO_32 && Leaf(a) == Way(host, i + 1) ensures i == 3 && a == host {
      LeafOnWay(a, host, i + 1);
    }
  }

  /** struct ip_table; zeroed when allocated. */
  class IpTable {
    var octet: seq<IpTable?>
    var used: bool

    constructor ()
      ensures octet == seq(256, _ => null) && !used
    {
      octet := seq(256, _ => null);
      used := false;
    }
  }

  class Pool {
    var root: IpTable?
    /** The node at each place; `Valid` ties it to the pointers. */
    ghost var at: map<Place, IpTable>

    constructor ()
      ensures Valid() && root == null && Members() == {}
    {
      root := null;
      at := map[];
    }

    ghost predicate Valid()
      reads this, at.Values
    {
      && (root == null <==> at == map[])
      && (root != null ==> Top in at && at[Top] == root)
      && (forall p :: p in at ==> NodeOk(p))
      && (forall p, q :: p in at && q in at && p != q ==> at[p] != at[q])
    }

    /** A node's children are the nodes one byte further on. */
    ghost predicate NodeOk(p: Place)
      requires p in at
      reads this, at.Values
    {
      && p.Depth() <= 4 && |at[p].octet| == 256
      && (p.Below? ==> p.parent in at)
      && (forall b :: 0 <= b < 256 ==>
            at[p].octet[b] == if Below(p, b) in at then at[Below(p, b)] else null)
    }

    /** The addresses that have a leaf. */
    ghost function Members(): set<nat>
      reads this
    {
      LeavesOf(at.Keys)
    }

    ghost function Used(): set<nat>
      reads this, at.Values
    {
      set a: nat | a < TWO_32 && Leaf(a) in at && at[Leaf(a)].used
    }

    lemma {:induction false} WayPresent(host: nat, i: nat)
      requires Valid() && i <= 4 && Leaf(host) in at
      ensures Way(host, i) in at
      decreases 4 - i
    {
      if i < 4 {
        WayPresent(host, i + 1);
        assert NodeOk(Way(host, i + 1));
      }
    }

    /** The walk that reserve_ip_node and release_ip_node share. */
    method FindNode(host: nat) returns (node: IpTable?)
      requires Valid()
      ensures node == if Leaf(host) in at then at[Leaf(host)] else null
    {
      if root == null {
        return null;
      }
      node := root;
      for i := 0 to 4
        invariant Way(host, i) in at && node == at[Way(host, i)]
      {
        assert NodeOk(Way(host, i)) && Way(host, i + 1) == Below(Way(host, i), Byte(host, i));
        if node.octet[Byte(host, i)] == null {
          assert Leaf(host) !in at by {
            if Leaf(host) in at { WayPresent(host, i + 1); }
          }
          return null;
        }
        node := node.octet[Byte(host, i)];
      }
    }

    method ReserveIpNode(host: nat) returns (ok: bool)
      requires Valid() && host < TWO_32
      modifies at.Values
      ensures Valid() && at == old(at) && root == old(root)
      ensures ok <==> host in Members() && host !in old(Used())
      ensures Used() == if ok then old(Used()) + {host} else old(Used())
    {
      var node := FindNode(host);
      if node == null || node.used {
        return false;
      }
      SetUsed(host, node, true);
      return true;
    }

    method ReleaseIpNode(host: nat) returns (ok: bool)
      requires Valid() && host < TWO_32
      modifies at.Values
      ensures Valid() && at == old(at) && root == old(root)
      ensures ok <==> host in old(Used())
      ensures Used() == old(Used()) - {host}
    {
      var node := FindNode(host);
      if node != null && node.used {
        SetUsed(host, node, false);
        return true;
      }
      return false;
    }

    method SetUsed(ghost host: nat, node: IpTable, used: bool)
      requires Valid() && host < TWO_32 && Leaf(host) in at && node == at[Leaf(host)]
      modifies node`used
      ensures Valid()
      ensures Used() == if used then old(Used()) + {host} else old(Used()) - {host}
    {
      node.used := used;
      forall p | p in at ensures NodeOk(p) {
        assert old(NodeOk(p));
      }
      forall a: nat | a < TWO_32 && Leaf(a) in at && a != host
        ensures at[Leaf(a)] != node
      {
        if Leaf(a) == Leaf(host) { LeafInjective(a, host); }
      }
    }

    /** Puts an address into the trie, allocating the nodes on its path that are missing. */
    method AddIpaddrInPool(host: nat)
      requires Valid() && root != null && host < TWO_32
      modifies this`at, at.Values
      ensures Valid()
      ensures fresh(at.Values - old(at.Values))
      ensures Members() == old(Members()) + {host}
      ensures Used() == old(Used())
    {
      var node := root;
      for i := 0 to 4
        invariant Valid()
        invariant fresh(at.Values - old(at.Values))
        invariant Way(host, i) in at && node == at[Way(host, i)]
        invariant Members() == if i < 4 then old(Members()) else old(Members()) + {host}
        invariant Used() == old(Used())
      {
        node := Descend(node, host, i);
      }
    }

    /** One level down, into a new node if there was none. */
    method Descend(node: IpTable, host: nat, i: nat) returns (next: IpTable)
      requires Valid() && i < 4 && host < TWO_32 && Way(host, i) in at && node == at[Way(host, i)]
      modifies this`at, node`octet
      ensures Valid()
      ensures Way(host, i + 1) in at && next == at[Way(host, i + 1)]
      ensures at.Values <= old(at.Values) + {next} && (next in old(at.Values) || fresh(next))
      ensures Members() == if i < 3 then old(Members()) else old(Members()) + {host}
      ensures Used() == old(Used())
    {
      assert NodeOk(Way(host, i)) && Way(host, i + 1) == Below(Way(host, i), Byte(host, i));
      if node.octet[Byte(host, i)] == null {
        AddNext(node, host, i);
      }
      next := node.octet[Byte(host, i)];
    }

    method AddNext(node: IpTable, host: nat, i: nat)
      requires Valid() && i < 4 && host < TWO_32 && Way(host, i) in at && node == at[Way(host, i)]
      requires |node.octet| == 256 && node.octet[Byte(host, i)] == null
      modifies this`at, node`octet
      ensures Valid()
      ensures Way(host, i + 1) in at && |node.octet| == 256 && node.octet[Byte(host, i)] == at[Way(host, i + 1)]
      ensures at.Values <= old(at.Values) + {at[Way(host, i + 1)]} && fresh(at[Way(host, i + 1)])
      ensures Members() == if i < 3 then old(Members()) else old(Members()) + {host}
      ensures Used() == old(Used())
    {
      assert Way(host, i + 1) == Below(Way(host, i), Byte(host, i));
      AddChild(node, Way(host, i), Byte(host, i));
      LeavesAdd(old(at.Keys), host, i);
      assert at.Keys == old(at.Keys) + {Way(host, i + 1)};
    }

    method AddChild(node: IpTable, ghost p: Place, b: nat)
      requires Valid() && p in at && node == at[p] && p.Depth() < 4 && b < 256
      requires |node.octet| == 256 && node.octet[b] == null
      modifies this`at, node`octet
      ensures Valid()
      ensures Below(p, b) in at && at == old(at)[Below(p, b) := at[Below(p, b)]] && fresh(at[Below(p, b)])
      ensures |node.octet| == 256 && node.octet[b] == at[Below(p, b)]
      ensures !at[Below(p, b)].used
    {
      assert NodeOk(p);
      var child := new IpTable();
      node.octet := node.octet[b := child];
      at := at[Below(p, b) := child];
      forall q | q in at ensures NodeOk(q) {
        assert q in old(at) ==> old(NodeOk(q));
        forall c | Below(q, c) in old(at) ensures q in old(at) {
          assert old(NodeOk(Below(q, c)));
        }
      }
    }
  
    method GenPool(net: nat, mask: nat)
      requires net < TWO_32 && 0 < mask < TWO_32
      modifies this
      ensures Valid() && root != null && fresh(at.Values)
      ensures Members() == Hosts(net, LowestBit(mask)) && Used() == {}
    {
      var total := CountAddresses(mask);
      NewRoot();
      assert HostsBelow(net, 1) == {};
      var i := 1;
      while i < total - 1
        invariant 1 <= i && (i == 1 || i <= total - 1)
        invariant Valid() && root != null && fresh(at.Values)
        invariant Members() == HostsBelow(net, i)
        invariant Used() == {}
      {
        HostsBelowNext(net, i);
        AddIpaddrInPool(Host(net, i));
        i := i + 1;
      }
      assert HostsBelow(net, i) == Hosts(net, total);
    }

    method NewRoot()
      modifies this
      ensures Valid() && root != null && fresh(at.Values)
      ensures Members() == {} && Used() == {}
    {
      root := new IpTable();
      at := map[Top := root];
      assert Top in at;
      assert forall a :: Leaf(a) != Top;
    }

    /** Any sequence of calls answers and ends like the pair (members, used). */
    method RunCalls(calls: seq<Call>) returns (answers: seq<bool>)
      requires Valid() && forall i :: 0 <= i < |calls| ==> calls[i].host < TWO_32
      modifies at.Values
      ensures Valid() && at == old(at)
      ensures answers == Answers(Members(), old(Used()), calls)
      ensures Used() == UsedAfter(Members(), old(Used()), calls)
    {
      answers := [];
      for i := 0 to |calls|
        invariant Valid() && at == old(at)
        invariant answers == Answers(Members(), old(Used()), calls[..i])
        invariant Used() == UsedAfter(Members(), old(Used()), calls[..i])
      {
        assert calls[..i + 1][..i] == calls[..i];
        var ok;
        match calls[i] {
          case Reserve(host) => ok := ReserveIpNode(host);
          case Release(host) => ok := ReleaseIpNode(host);
        }
        answers := answers + [ok];
      }
      assert calls[..|calls|] == calls;
    }
  }

  // ------------------------------------------------------------------ the pair a trie refines

  datatype Call = Reserve(host: nat) | Release(host: nat)

  ghost predicate Answer(members: set<nat>, used: set<nat>, call: Call) {
    match call
    case Reserve(host) => host in members && host !in used
    case Release(host) => host in used
  }

  ghost function UsedAfter(members: set<nat>, used: set<nat>, calls: seq<Call>): set<nat> {
    if calls == [] then used else
    var u := UsedAfter(members, used, calls[..|calls| - 1]);
    var call := calls[|calls| - 1];
    if !Answer(members, u, call) then u
    else if call.Reserve? then u + {call.host} else u - {call.host}
  }

  ghost function Answers(members: set<nat>, used: set<nat>, calls: seq<Call>): (answers: seq<bool>)
    ensures |answers| == |calls|
  {
    if calls == [] then [] else
    var n := |calls| - 1;
    Answers(members, used, calls[..n]) + [Answer(members, UsedAfter(members, used, calls[..n]), calls[n])]
  }

  lemma {:induction false} AnswerAt(members: set<nat>, used: set<nat>, calls: seq<Call>, i: nat)
    requires i < |calls|
    ensures Answers(members, used, calls)[i] == Answer(members, UsedAfter(members, used, calls[..i]), calls[i])
    decreases |calls|
  {
    var n := |calls| - 1;
    if i < n {
      AnswerAt(members, used, calls[..n], i);
      assert calls[..n][..i] == calls[..i];
    }
  }

  /** A host stays used until a release of it succeeds. */
  lemma {:induction false} UsedUntilReleased(members: set<nat>, used: set<nat>, calls: seq<Call>, host: nat, i: nat, j: nat)
    requires i <= j <= |calls| && host in UsedAfter(members, used, calls[..i])
    ensures host in UsedAfter(members, used, calls[..j])
            || exists k :: i <= k < j && calls[k] == Release(host) && Answers(members, used, calls)[k]
    decreases j
  {
    if i < j {
      UsedUntilReleased(members, used, calls, host, i, j - 1);
      assert calls[..j][..j - 1] == calls[..j - 1];
      AnswerAt(members, used, calls, j - 1);
    }
  }

  /** No address is given out twice: between two successful reservations it was released. */
  lemma ReservedOnce(members: set<nat>, used: set<nat>, calls: seq<Call>, host: nat, i: nat, j: nat)
    requires i < j < |calls| && calls[i] == calls[j] == Reserve(host)
    requires Answers(members, used, calls)[i] && Answers(members, used, calls)[j]
    ensures exists k :: i < k < j && calls[k] == Release(host) && Answers(members, used, calls)[k]
  {
    AnswerAt(members, used, calls, i);
    AnswerAt(members, used, calls, j);
    assert calls[..i + 1][..i] == calls[..i];
    UsedUntilReleased(members, used, calls, host, i + 1, j);
  }
}

/** ue_dynamic_pool: a FIFO of free addresses. */
module DynamicPool {
  import opened AddressRange
  import opened Basics

  /** The addresses gen_pool queues: from offset n down to offset 1. */
  function Descending(net: nat, n: nat): seq<nat> {
    seq(n, i requires 0 <= i < n => Host(net, n - i))
  }

  /** total - 2 in unsigned 32-bit arithmetic; an odd mask, total == 1, wraps. */
  function HostCount(total: nat): nat {
    (total - 2) % TWO_32
  }

  class Pool {
    var free: seq<nat>

    constructor ()
      ensures free == []
    {
      free := [];
    }

    method GenPool(net: nat, mask: nat)
      requires net < TWO_32 && 0 < mask < TWO_32
      modifies this
      ensures free == old(free) + Descending(net, HostCount(LowestBit(mask)))
    {
      var total := CountAddresses(mask);
      var n := HostCount(total);
      var i := n;
      while i > 0
        invariant 0 <= i <= n
        invariant free == old(free) + Descending(net, n)[..n - i]
      {
        free := free + [Host(net, i)];
        i := i - 1;
      }
    }

    method GetIp() returns (addr: nat)
      modifies this
      ensures old(free) == [] ==> addr == 0 && free == []
      ensures old(free) != [] ==> old(free) == [addr] + free
    {
      if free == [] {
        return 0;
      }
      addr := free[0];
      free := free[1..];
    }

    method FreeIp(addr: nat)
      modifies this
      ensures free == old(free) + [addr]
    {
      free := free + [addr];
    }
  }

  lemma DescendingDistinct(net: nat, n: nat)
    requires n < TWO_32
    ensures NoDup(Descending(net, n))
  {
    forall i, j | 0 <= i < j < n ensures Descending(net, n)[i] != Descending(net, n)[j] {
      HostsDiffer(net, n - i, n - j);
    }
  }

  lemma DescendingFalls(net: nat, n: nat)
    requires net + n < TWO_32
    ensures forall i, j :: 0 <= i < j < n ==> Descending(net, n)[i] > Descending(net, n)[j]
  {
    forall i | 0 <= i < n ensures Descending(net, n)[i] == net + (n - i) {
      assert Host(net, n - i) == net + (n - i);
    }
  }

  /**
   For a non-zero even mask the pool holds the hosts of the network, the same as the static pool of the same
   network: each once and, when nothing wraps, in descending order.
   */
  lemma DynamicPoolIsHosts(net: nat, mask: nat)
    requires net < TWO_32 && 0 < mask < TWO_32 && mask % 2 == 0
    ensures var d := Descending(net, HostCount(LowestBit(mask)));
            && (forall a :: a in d <==> a in Hosts(net, LowestBit(mask)))
            && NoDup(d)
            && (net + LowestBit(mask) <= TWO_32 ==> forall i, j :: 0 <= i < j < |d| ==> d[i] > d[j])
  {
    var total := LowestBit(mask);
    assert 2 <= total && HostCount(total) == total - 2;
    DescendingDistinct(net, total - 2);
    var d := Descending(net, total - 2);
    if net + total <= TWO_32 {
      DescendingFalls(net, total - 2);
    }
    forall a | a in Hosts(net, total) ensures a in d {
      var i: nat :| 1 <= i < total - 1 && a == Host(net, i);
      assert d[total - 2 - i] == a;
    }
  }

  /** The two generators agree exactly on even masks; for an odd one the FIFO gets 2^32 - 1 addresses, the trie none. */
  lemma PoolsAgreeExactly(net: nat, mask: nat)
    requires net < TWO_32 && 0 < mask < TWO_32
    ensures var d := Descending(net, HostCount(LowestBit(mask)));
            && ((forall a :: a in d <==> a in Hosts(net, LowestBit(mask))) <==> mask % 2 == 0)
            && (mask % 2 == 1 ==> |d| == TWO_32 - 1 && Hosts(net, LowestBit(mask)) == {})
  {
    if mask % 2 == 0 {
      DynamicPoolIsHosts(net, mask);
    } else {
      assert LowestBit(mask) == 1 && Hosts(net, 1) == {};
      var d := Descending(net, HostCount(LowestBit(mask)));
      assert d[0] in d;
    }
  }
}
