/**
 Who holds a UE address: the steps of attach, hand-over to the user plane and detach that take addresses from
 the two pools and give them back (cp/procedures/proc_initial_attach.c, cp/pdn.c, delete_session_request.c).
 Addresses are in host byte order.
 */
module Addresses {
  import opened AddressRange
  import opened Basics
  import DynamicPool
  import StaticPool

  /** The address fields of a pdn_connection_t; a freed one stays in the list as not live. */
  datatype Pdn = Pdn(live: bool, isStatic: bool, control: bool, upf: bool, ipv4: nat)

  /** `taken` and `returned` record what left and entered the dynamic FIFO. */
  datatype State = State(
    free: seq<nat>,
    members: set<nat>,
    used: set<nat>,
    pdns: seq<Pdn>,
    taken: multiset<nat>,
    returned: multiset<nat>)

  datatype Step =
    /** A Create Session Request; `paa` is the address it asks for, 0 for none; `contextOk` is the outcome of create_ue_context. */
    | Create(paa: nat, ueip: bool, globalAddress: bool, contextOk: bool)
    /** initiate_upf_session on an associated UPF; `ueip` tells whether it allocates addresses itself. */
    | InitiateUpfSession(pdn: nat, ueip: bool)
    /** A session establishment response; `v4` tells whether it carries an address. */
    | EstablishResponse(pdn: nat, v4: bool, address: nat)
    /** The checks on a Delete Session Request. */
    | DeleteRequest(pdn: nat)
    /** cleanup_pdn_context. */
    | Cleanup(pdn: nat)

  function Live(s: State, i: nat): bool {
    i < |s.pdns| && s.pdns[i].live
  }

  function Take(s: State): State
    requires s.free != []
  {
    s.(free := s.free[1..], taken := s.taken + multiset{s.free[0]})
  }

  function Return(s: State, a: nat): State {
    s.(free := s.free + [a], returned := s.returned + multiset{a})
  }

  predicate Reservable(s: State, a: nat) {
    a in s.members && a !in s.used
  }

  function AddPdn(s: State, p: Pdn): State {
    s.(pdns := s.pdns + [p])
  }

  function AfterCreate(s: State, paa: nat, ueip: bool, globalAddress: bool, contextOk: bool): State {
    if paa != 0 then
      if !Reservable(s, paa) then s else
      var t := s.(used := s.used + {paa});
      // a refused static create keeps its reservation
      if contextOk then AddPdn(t, Pdn(true, true, true, false, paa)) else t
    else if ueip || !globalAddress then
      // a refused create gives back ue_ip, which is still zero here
      if contextOk then AddPdn(s, Pdn(true, false, false, true, 0)) else Return(s, 0)
    else if s.free == [] then s else
      var a, t := s.free[0], Take(s);
      if a == 0 then t
      else if contextOk then AddPdn(t, Pdn(true, false, true, false, a))
      else Return(t, a)
  }

  function AfterInitiate(s: State, i: nat, ueip: bool): State
    requires Live(s, i)
  {
    var p := s.pdns[i];
    if ueip && p.control then
      Return(s, p.ipv4).(pdns := s.pdns[i := p.(ipv4 := 0, control := false, upf := true)])
    else
      s
  }

  function AfterResponse(s: State, i: nat, v4: bool, address: nat): State
    requires Live(s, i)
  {
    if v4 then s.(pdns := s.pdns[i := s.pdns[i].(ipv4 := address)]) else s
  }

  function AfterDeleteRequest(s: State, i: nat): State
    requires Live(s, i)
  {
    if s.pdns[i].isStatic then s.(used := s.used - {s.pdns[i].ipv4}) else s
  }

  function AfterCleanup(s: State, i: nat): State
    requires Live(s, i)
  {
    var p := s.pdns[i];
    var t := s.(pdns := s.pdns[i := p.(live := false)]);
    if p.isStatic then t.(used := t.used - {p.ipv4})
    else if p.control then Return(t, p.ipv4)
    else t
  }

  function Next(s: State, step: Step): State {
    match step
    case Create(paa, ueip, globalAddress, contextOk) => AfterCreate(s, paa, ueip, globalAddress, contextOk)
    case InitiateUpfSession(i, ueip) => if Live(s, i) then AfterInitiate(s, i, ueip) else s
    case EstablishResponse(i, v4, address) => if Live(s, i) then AfterResponse(s, i, v4, address) else s
    case DeleteRequest(i) => if Live(s, i) then AfterDeleteRequest(s, i) else s
    case Cleanup(i) => if Live(s, i) then AfterCleanup(s, i) else s
  }

  function Run(s: State, steps: seq<Step>): State {
    if steps == [] then s else Next(Run(s, steps[..|steps| - 1]), steps[|steps| - 1])
  }

  // ------------------------------------------------------------------ conservation

  datatype Kind = Dynamic | Static

  predicate Owns(kind: Kind, p: Pdn) {
    p.live && match kind { case Dynamic => !p.isStatic && p.control case Static => p.isStatic }
  }

  function One(b: bool): nat {
    if b then 1 else 0
  }

  /** How many live PDNs would give `a` back to the pool of that kind. */
  function Held(kind: Kind, pdns: seq<Pdn>, a: nat): nat {
    if pdns == [] then 0 else
    var n := |pdns| - 1;
    Held(kind, pdns[..n], a) + One(Owns(kind, pdns[n]) && pdns[n].ipv4 == a)
  }

  /** How often `a` is free or held. */
  function Total(s: State, a: nat): nat {
    multiset(s.free)[a] + Held(Dynamic, s.pdns, a)
  }

  /** Free and held dynamic addresses make up the pool; the used static addresses are the held ones, each once. */
  ghost predicate Conserved(pool: multiset<nat>, s: State) {
    && 0 !in pool
    && (forall a: nat :: Total(s, a) == pool[a])
    && (forall a: nat :: Held(Static, s.pdns, a) == One(a in s.used))
  }

  lemma HeldAppend(kind: Kind, pdns: seq<Pdn>, p: Pdn, a: nat)
    ensures Held(kind, pdns + [p], a) == Held(kind, pdns, a) + One(Owns(kind, p) && p.ipv4 == a)
  {
    assert (pdns + [p])[..|pdns|] == pdns;
  }

  lemma {:induction false} HeldUpdate(kind: Kind, pdns: seq<Pdn>, i: nat, p: Pdn, a: nat)
    requires i < |pdns|
    ensures Held(kind, pdns[i := p], a) + One(Owns(kind, pdns[i]) && pdns[i].ipv4 == a)
            == Held(kind, pdns, a) + One(Owns(kind, p) && p.ipv4 == a)
  {
    var n := |pdns| - 1;
    if i < n {
      HeldUpdate(kind, pdns[..n], i, p, a);
      assert pdns[i := p][..n] == pdns[..n][i := p];
    } else {
      assert pdns[i := p][..n] == pdns[..n];
    }
  }

  lemma {:induction false} HeldMember(kind: Kind, pdns: seq<Pdn>, i: nat)
    requires i < |pdns| && Owns(kind, pdns[i])
    ensures Held(kind, pdns, pdns[i].ipv4) >= 1
  {
    if i < |pdns| - 1 {
      HeldMember(kind, pdns[..|pdns| - 1], i);
    }
  }

  lemma {:induction false} HeldTwice(kind: Kind, pdns: seq<Pdn>, i: nat, j: nat)
    requires i < j < |pdns| && Owns(kind, pdns[i]) && Owns(kind, pdns[j]) && pdns[i].ipv4 == pdns[j].ipv4
    ensures Held(kind, pdns, pdns[i].ipv4) >= 2
  {
    var n := |pdns| - 1;
    if j < n {
      HeldTwice(kind, pdns[..n], i, j);
    } else {
      HeldMember(kind, pdns[..n], i);
    }
  }

  lemma ReturnCount(s: State, x: nat, a: nat)
    ensures multiset(Return(s, x).free)[a] == multiset(s.free)[a] + One(x == a)
    ensures Return(s, x).returned[a] == s.returned[a] + One(x == a)
  {}

  lemma TakeCount(s: State, a: nat)
    requires s.free != []
    ensures multiset(s.free)[a] == multiset(Take(s).free)[a] + One(s.free[0] == a)
    ensures Take(s).taken[a] == s.taken[a] + One(s.free[0] == a)
  {
    assert s.free == [s.free[0]] + s.free[1..];
  }

  /** What a caller can check before a step: the steps the code gets right. */
  predicate Sound(s: State, step: Step) {
    match step
    case Create(paa, ueip, globalAddress, contextOk) =>
      contextOk || (if paa != 0 then !Reservable(s, paa) else !ueip && globalAddress)
    case InitiateUpfSession(i, ueip) => Live(s, i) && ueip && s.pdns[i].control ==> !s.pdns[i].isStatic
    case EstablishResponse(i, v4, address) =>
      Live(s, i) && v4 && s.pdns[i].ipv4 != address ==> !s.pdns[i].isStatic && !s.pdns[i].control
    case DeleteRequest(i) => Live(s, i) ==> !s.pdns[i].isStatic
    case Cleanup(i) => true
  }

  /** Adding a PDN: a dynamic one that holds `x` after `x` left the FIFO, a static one after its reservation. */
  lemma AddPdnCount(s: State, p: Pdn, a: nat)
    ensures Total(AddPdn(s, p), a) == Total(s, a) + One(Owns(Dynamic, p) && p.ipv4 == a)
    ensures Held(Static, AddPdn(s, p).pdns, a) == Held(Static, s.pdns, a) + One(Owns(Static, p) && p.ipv4 == a)
  {
    HeldAppend(Dynamic, s.pdns, p, a);
    HeldAppend(Static, s.pdns, p, a);
  }

  lemma SetPdnCount(s: State, i: nat, p: Pdn, a: nat)
    requires i < |s.pdns|
    ensures var t := s.(pdns := s.pdns[i := p]);
            && Total(t, a) + One(Owns(Dynamic, s.pdns[i]) && s.pdns[i].ipv4 == a)
               == Total(s, a) + One(Owns(Dynamic, p) && p.ipv4 == a)
            && Held(Static, t.pdns, a) + One(Owns(Static, s.pdns[i]) && s.pdns[i].ipv4 == a)
               == Held(Static, s.pdns, a) + One(Owns(Static, p) && p.ipv4 == a)
  {
    HeldUpdate(Dynamic, s.pdns, i, p, a);
    HeldUpdate(Static, s.pdns, i, p, a);
  }

  lemma CreateStaticConserves(pool: multiset<nat>, s: State, paa: nat, contextOk: bool)
    requires Conserved(pool, s) && paa != 0
    ensures Conserved(pool, AfterCreate(s, paa, false, false, contextOk)) <==> contextOk || !Reservable(s, paa)
  {
    if Reservable(s, paa) {
      var u := AfterCreate(s, paa, false, false, contextOk);
      if contextOk {
        forall a: nat ensures Total(u, a) == pool[a] && Held(Static, u.pdns, a) == One(a in u.used) {
          assert Total(s, a) == pool[a] && Held(Static, s.pdns, a) == One(a in s.used);
          AddPdnCount(s.(used := s.used + {paa}), Pdn(true, true, true, false, paa), a);
        }
      } else {
        assert Held(Static, s.pdns, paa) == One(paa in s.used);
        assert Held(Static, u.pdns, paa) != One(paa in u.used);
      }
    }
  }

  lemma CreateByUpfConserves(pool: multiset<nat>, s: State, contextOk: bool)
    requires Conserved(pool, s)
    ensures Conserved(pool, AfterCreate(s, 0, true, false, contextOk)) <==> contextOk
  {
    if contextOk {
      var p := Pdn(true, false, false, true, 0);
      forall a: nat
        ensures Total(AddPdn(s, p), a) == pool[a] && Held(Static, AddPdn(s, p).pdns, a) == One(a in s.used)
      {
        assert Total(s, a) == pool[a] && Held(Static, s.pdns, a) == One(a in s.used);
        AddPdnCount(s, p, a);
      }
    } else {
      ReturnCount(s, 0, 0);
      assert Total(s, 0) == pool[0] == 0;
      assert Total(Return(s, 0), 0) == 1;
    }
  }

  lemma ControlCount(s: State, contextOk: bool, a: nat)
    requires s.free != [] && s.free[0] != 0
    ensures var u := AfterCreate(s, 0, false, true, contextOk);
            && Total(u, a) == Total(s, a) && u.used == s.used
            && Held(Static, u.pdns, a) == Held(Static, s.pdns, a)
  {
    TakeCount(s, a);
    if contextOk {
      AddPdnCount(Take(s), Pdn(true, false, true, false, s.free[0]), a);
    } else {
      ReturnCount(Take(s), s.free[0], a);
    }
  }

  lemma CreateByControlConserves(pool: multiset<nat>, s: State, contextOk: bool)
    requires Conserved(pool, s)
    ensures Conserved(pool, AfterCreate(s, 0, false, true, contextOk))
  {
    if s.free != [] {
      TakeCount(s, s.free[0]);
      assert Total(s, s.free[0]) == pool[s.free[0]] > 0;
      var u := AfterCreate(s, 0, false, true, contextOk);
      forall a: nat ensures Total(u, a) == pool[a] && Held(Static, u.pdns, a) == One(a in u.used) {
        ControlCount(s, contextOk, a);
        assert Total(s, a) == pool[a] && Held(Static, s.pdns, a) == One(a in s.used);
      }
    }
  }

  lemma CreateConserves(pool: multiset<nat>, s: State, paa: nat, ueip: bool, globalAddress: bool, contextOk: bool)
    requires Conserved(pool, s)
    ensures Conserved(pool, AfterCreate(s, paa, ueip, globalAddress, contextOk))
            <==> Sound(s, Create(paa, ueip, globalAddress, contextOk))
  {
    if paa != 0 {
      CreateStaticConserves(pool, s, paa, contextOk);
    } else if ueip || !globalAddress {
      CreateByUpfConserves(pool, s, contextOk);
    } else {
      CreateByControlConserves(pool, s, contextOk);
    }
  }

  lemma InitiateConserves(pool: multiset<nat>, s: State, i: nat, ueip: bool)
    requires Conserved(pool, s) && Live(s, i)
    ensures Conserved(pool, AfterInitiate(s, i, ueip)) <==> Sound(s, InitiateUpfSession(i, ueip))
  {
    var p := s.pdns[i];
    if ueip && p.control {
      var q := p.(ipv4 := 0, control := false, upf := true);
      var t, u := Return(s, p.ipv4), AfterInitiate(s, i, ueip);
      forall a: nat
        ensures Total(u, a) == pool[a] + One(p.isStatic && p.ipv4 == a)
        ensures !p.isStatic ==> Held(Static, u.pdns, a) == One(a in u.used)
      {
        assert Total(s, a) == pool[a] && Held(Static, s.pdns, a) == One(a in s.used);
        ReturnCount(s, p.ipv4, a);
        SetPdnCount(t, i, q, a);
      }
      assert p.isStatic ==> Total(u, p.ipv4) != pool[p.ipv4];
    }
  }

  lemma ResponseConserves(pool: multiset<nat>, s: State, i: nat, v4: bool, address: nat)
    requires Conserved(pool, s) && Live(s, i)
    ensures Conserved(pool, AfterResponse(s, i, v4, address)) <==> Sound(s, EstablishResponse(i, v4, address))
  {
    var p := s.pdns[i];
    var q := p.(ipv4 := address);
    if v4 && address == p.ipv4 {
      assert s.pdns[i := q] == s.pdns;
    } else if v4 {
      var u := AfterResponse(s, i, v4, address);
      forall a: nat
        ensures Total(u, a) + One(Owns(Dynamic, p) && p.ipv4 == a) == pool[a] + One(Owns(Dynamic, p) && address == a)
        ensures Held(Static, u.pdns, a) + One(p.isStatic && p.ipv4 == a) == One(a in u.used) + One(p.isStatic && address == a)
      {
        assert Total(s, a) == pool[a] && Held(Static, s.pdns, a) == One(a in s.used);
        SetPdnCount(s, i, q, a);
      }
      assert Owns(Dynamic, p) ==> Total(u, address) != pool[address];
      assert p.isStatic ==> Held(Static, u.pdns, address) != One(address in u.used);
    }
  }

  lemma DeleteRequestConserves(pool: multiset<nat>, s: State, i: nat)
    requires Conserved(pool, s) && Live(s, i)
    ensures Conserved(pool, AfterDeleteRequest(s, i)) <==> Sound(s, DeleteRequest(i))
  {
    var a, t := s.pdns[i].ipv4, AfterDeleteRequest(s, i);
    if s.pdns[i].isStatic {
      HeldMember(Static, s.pdns, i);
      assert Held(Static, t.pdns, a) != One(a in t.used);
    }
  }

  lemma CleanupConserves(pool: multiset<nat>, s: State, i: nat)
    requires Conserved(pool, s) && Live(s, i)
    ensures Conserved(pool, AfterCleanup(s, i))
  {
    var p := s.pdns[i];
    var t := s.(pdns := s.pdns[i := p.(live := false)]);
    var u := AfterCleanup(s, i);
    forall a: nat ensures Total(u, a) == pool[a] && Held(Static, u.pdns, a) == One(a in u.used) {
      assert Total(s, a) == pool[a] && Held(Static, s.pdns, a) == One(a in s.used);
      SetPdnCount(s, i, p.(live := false), a);
      ReturnCount(t, p.ipv4, a);
    }
  }

  /** A step keeps the addresses conserved exactly when it is sound. */
  lemma ConservedExactly(pool: multiset<nat>, s: State, step: Step)
    requires Conserved(pool, s)
    ensures Conserved(pool, Next(s, step)) <==> Sound(s, step)
  {
    match step
    case Create(paa, ueip, globalAddress, contextOk) => CreateConserves(pool, s, paa, ueip, globalAddress, contextOk);
    case InitiateUpfSession(i, ueip) => if Live(s, i) { InitiateConserves(pool, s, i, ueip); }
    case EstablishResponse(i, v4, address) => if Live(s, i) { ResponseConserves(pool, s, i, v4, address); }
    case DeleteRequest(i) => if Live(s, i) { DeleteRequestConserves(pool, s, i); }
    case Cleanup(i) => if Live(s, i) { CleanupConserves(pool, s, i); }
  }

  predicate SoundRun(s: State, steps: seq<Step>) {
    forall k :: 0 <= k < |steps| ==> Sound(Run(s, steps[..k]), steps[k])
  }

  function Initial(free: seq<nat>, members: set<nat>): State {
    State(free, members, {}, [], multiset{}, multiset{})
  }

  lemma {:induction false} SoundRunsConserve(free: seq<nat>, members: set<nat>, steps: seq<Step>)
    requires 0 !in free && SoundRun(Initial(free, members), steps)
    ensures Conserved(multiset(free), Run(Initial(free, members), steps))
  {
    if steps != [] {
      var n := |steps| - 1;
      forall k | 0 <= k < n ensures Sound(Run(Initial(free, members), steps[..n][..k]), steps[..n][k]) {
        assert steps[..n][..k] == steps[..k];
      }
      SoundRunsConserve(free, members, steps[..n]);
      ConservedExactly(multiset(free), Run(Initial(free, members), steps[..n]), steps[n]);
    }
  }

  /** Whatever happens, the FIFO holds what was generated plus what came back less what went out. */
  lemma {:induction false} FifoBalance(s: State, steps: seq<Step>, a: nat)
    ensures Balanced(s, Run(s, steps), a)
  {
    if steps != [] {
      FifoBalance(s, steps[..|steps| - 1], a);
      FifoStep(Run(s, steps[..|steps| - 1]), steps[|steps| - 1], a);
    }
  }

  ghost predicate Balanced(s: State, t: State, a: nat) {
    multiset(t.free)[a] + t.taken[a] + s.returned[a] == multiset(s.free)[a] + s.taken[a] + t.returned[a]
  }

  lemma FifoStep(s: State, step: Step, a: nat)
    ensures Balanced(s, Next(s, step), a)
  {
    match step
    case Create(paa, ueip, globalAddress, contextOk) => FifoCreate(s, paa, ueip, globalAddress, contextOk, a);
    case InitiateUpfSession(i, _) => if Live(s, i) { ReturnCount(s, s.pdns[i].ipv4, a); }
    case EstablishResponse(_, _, _) =>
    case DeleteRequest(_) =>
    case Cleanup(i) => if Live(s, i) { ReturnCount(s, s.pdns[i].ipv4, a); }
  }

  lemma FifoCreate(s: State, paa: nat, ueip: bool, globalAddress: bool, contextOk: bool, a: nat)
    ensures Balanced(s, AfterCreate(s, paa, ueip, globalAddress, contextOk), a)
  {
    if paa == 0 && (ueip || !globalAddress) {
      ReturnCount(s, 0, a);
    } else if paa == 0 && s.free != [] {
      TakeCount(s, a);
      ReturnCount(Take(s), s.free[0], a);
    }
  }

  /** In a sound run every address taken was returned as often, once less while a PDN holds it. */
  lemma TakenReturnedOrHeld(free: seq<nat>, members: set<nat>, steps: seq<Step>, a: nat)
    requires 0 !in free && SoundRun(Initial(free, members), steps)
    ensures var s := Run(Initial(free, members), steps);
            s.taken[a] == s.returned[a] + Held(Dynamic, s.pdns, a)
  {
    SoundRunsConserve(free, members, steps);
    FifoBalance(Initial(free, members), steps, a);
    assert Total(Run(Initial(free, members), steps), a) == multiset(free)[a];
  }

  /** In a sound run from a pool of distinct addresses no address is held twice, or both held and free. */
  lemma AddressesNeverShared(free: seq<nat>, members: set<nat>, steps: seq<Step>, kind: Kind, i: nat, j: nat)
    requires 0 !in free && SoundRun(Initial(free, members), steps)
    requires forall a :: multiset(free)[a] <= 1
    ensures var s := Run(Initial(free, members), steps);
            i < |s.pdns| && Owns(kind, s.pdns[i]) ==>
              && (match kind
                  case Dynamic => s.pdns[i].ipv4 in free && s.pdns[i].ipv4 !in s.free
                  case Static => s.pdns[i].ipv4 in s.used)
              && (i < j < |s.pdns| && Owns(kind, s.pdns[j]) ==> s.pdns[i].ipv4 != s.pdns[j].ipv4)
  {
    var s := Run(Initial(free, members), steps);
    SoundRunsConserve(free, members, steps);
    if i < |s.pdns| && Owns(kind, s.pdns[i]) {
      var a := s.pdns[i].ipv4;
      assert Total(s, a) == multiset(free)[a] <= 1 && Held(Static, s.pdns, a) == One(a in s.used);
      HeldMember(kind, s.pdns, i);
      if i < j < |s.pdns| && Owns(kind, s.pdns[j]) && s.pdns[j].ipv4 == a {
        HeldTwice(kind, s.pdns, i, j);
        assert false;
      }
    }
  }

  /** A generated pool of an even mask has no address twice, and lacks address 0 exactly when no host wraps round to it. */
  lemma GeneratedPool(net: nat, mask: nat)
    requires net < TWO_32 && 0 < mask < TWO_32 && mask % 2 == 0
    ensures var free := DynamicPool.Descending(net, DynamicPool.HostCount(LowestBit(mask)));
            && (0 !in free <==> net + LowestBit(mask) - 2 < TWO_32)
            && forall a :: multiset(free)[a] <= 1
  {
    var n := LowestBit(mask) - 2;
    assert DynamicPool.HostCount(LowestBit(mask)) == n;
    var free := DynamicPool.Descending(net, n);
    DynamicPool.DescendingDistinct(net, n);
    forall a: nat ensures multiset(free)[a] <= 1 {
      NoDupCount(free, a);
    }
    if net + n >= TWO_32 {
      assert free[n - (TWO_32 - net)] == Host(net, TWO_32 - net) == 0;
    } else {
      forall i | 0 <= i < n ensures free[i] != 0 {
        assert free[i] == Host(net, n - i) == net + (n - i);
      }
    }
  }

  /** So on a network whose hosts do not wrap round to 0 the gateway never shares an address in a sound run. */
  lemma GeneratedNeverShared(net: nat, mask: nat, members: set<nat>, steps: seq<Step>, kind: Kind, i: nat, j: nat)
    requires net < TWO_32 && 0 < mask < TWO_32 && mask % 2 == 0 && net + LowestBit(mask) - 2 < TWO_32
    requires SoundRun(Initial(DynamicPool.Descending(net, DynamicPool.HostCount(LowestBit(mask))), members), steps)
    ensures var s := Run(Initial(DynamicPool.Descending(net, DynamicPool.HostCount(LowestBit(mask))), members), steps);
            i < j < |s.pdns| && Owns(kind, s.pdns[i]) && Owns(kind, s.pdns[j]) ==> s.pdns[i].ipv4 != s.pdns[j].ipv4
  {
    GeneratedPool(net, mask);
    AddressesNeverShared(DynamicPool.Descending(net, DynamicPool.HostCount(LowestBit(mask))), members, steps, kind, i, j);
  }

  /** Each PDN's address comes either from the gateway or from the user plane. */
  predicate OneSource(s: State) {
    forall i :: 0 <= i < |s.pdns| ==> s.pdns[i].control != s.pdns[i].upf
  }

  lemma SourceStep(s: State, step: Step)
    requires OneSource(s)
    ensures OneSource(Next(s, step))
  {}

  /** In every run, sound or not. */
  lemma {:induction false} OneSourceAlways(free: seq<nat>, members: set<nat>, steps: seq<Step>)
    ensures OneSource(Run(Initial(free, members), steps))
  {
    if steps != [] {
      var n := |steps| - 1;
      OneSourceAlways(free, members, steps[..n]);
      SourceStep(Run(Initial(free, members), steps[..n]), steps[n]);
    }
  }

  /** Detaching a static PDN releases its address twice; nothing is lost if no step comes between the two. */
  lemma DeleteThenCleanup(pool: multiset<nat>, s: State, i: nat)
    requires Conserved(pool, s) && Live(s, i)
    ensures Conserved(pool, Next(Next(s, DeleteRequest(i)), Cleanup(i)))
  {
    CleanupConserves(pool, s, i);
    assert Next(Next(s, DeleteRequest(i)), Cleanup(i)) == Next(s, Cleanup(i));
  }

  /** In between, the address can be given to a second PDN, and the first one's clean-up then frees it under the second. */
  lemma StaticAddressShared(a: nat)
    requires a != 0
    ensures var s := Run(Initial([], {a}), [Create(a, false, false, true), DeleteRequest(0), Create(a, false, false, true)]);
            && |s.pdns| == 2 && Owns(Static, s.pdns[0]) && Owns(Static, s.pdns[1])
            && s.pdns[0].ipv4 == s.pdns[1].ipv4 == a
            && Owns(Static, Next(s, Cleanup(0)).pdns[1]) && Reservable(Next(s, Cleanup(0)), a)
  {
    var c := Create(a, false, false, true);
    assert [c, DeleteRequest(0), c][..2] == [c, DeleteRequest(0)];
    assert [c, DeleteRequest(0)][..1] == [c];
    assert Run(Initial([], {a}), [c]) == Next(Initial([], {a}), c);
  }

  /** After a refused create that had acquired nothing, a create is told the pool is empty although it is not. */
  lemma RefusedCreateStopsPool(a: nat)
    requires a != 0
    ensures var s := Next(Next(Initial([a], {}), Create(0, true, false, false)), Create(0, false, true, true));
            && s.free == [0]
            && var t := Next(Next(s, Cleanup(0)), Create(0, false, true, true));
               t.free == [a] && |t.pdns| == 1
  {
    var s := Next(Initial([a], {}), Create(0, true, false, false));
    assert s.free == [a, 0];
  }

  // ------------------------------------------------------------------ the running gateway

  /** The two pools and the PDN connections, updated in place. */
  class AddressKeeper {
    const dynamicPool: DynamicPool.Pool
    const staticPool: StaticPool.Pool
    var pdns: seq<Pdn>
    ghost var taken: multiset<nat>
    ghost var returned: multiset<nat>

    constructor (dynamicPool: DynamicPool.Pool, staticPool: StaticPool.Pool)
      requires staticPool.Valid()
      ensures Valid() && this.dynamicPool == dynamicPool && this.staticPool == staticPool
      ensures Value() == Initial(dynamicPool.free, staticPool.Members()).(used := staticPool.Used())
    {
      this.dynamicPool := dynamicPool;
      this.staticPool := staticPool;
      pdns := [];
      taken := multiset{};
      returned := multiset{};
    }

    ghost predicate Valid()
      reads this, staticPool, staticPool.at.Values
    {
      && staticPool.Valid()
      && forall i :: 0 <= i < |pdns| && pdns[i].isStatic ==> pdns[i].ipv4 < TWO_32
    }

    ghost function Value(): State
      reads this, dynamicPool, staticPool, staticPool.at.Values
    {
      State(dynamicPool.free, staticPool.Members(), staticPool.Used(), pdns, taken, returned)
    }

    /** acquire_ip: 0 reports an empty pool. */
    method AcquireIp() returns (a: nat)
      requires Valid()
      modifies this`taken, dynamicPool
      ensures Valid()
      ensures Value() == if old(dynamicPool.free) == [] then old(Value()) else Take(old(Value()))
      ensures a == if old(dynamicPool.free) == [] then 0 else old(dynamicPool.free)[0]
    {
      taken := if dynamicPool.free == [] then taken else taken + multiset{dynamicPool.free[0]};
      a := dynamicPool.GetIp();
    }

    method ReleaseIp(a: nat)
      requires Valid()
      modifies this`returned, dynamicPool
      ensures Valid() && Value() == Return(old(Value()), a)
    {
      dynamicPool.FreeIp(a);
      returned := returned + multiset{a};
    }

    method ReserveStatic(a: nat) returns (found: bool)
      requires Valid() && a < TWO_32
      modifies staticPool.at.Values
      ensures Valid() && staticPool.at == old(staticPool.at)
      ensures found == Reservable(old(Value()), a)
      ensures Value() == if found then old(Value()).(used := old(Value()).used + {a}) else old(Value())
    {
      found := staticPool.ReserveIpNode(a);
    }

    method ReleaseStatic(a: nat)
      requires Valid() && a < TWO_32
      modifies staticPool.at.Values
      ensures Valid() && staticPool.at == old(staticPool.at)
      ensures Value() == old(Value()).(used := old(Value()).used - {a})
    {
      var released := staticPool.ReleaseIpNode(a);
    }

    method Connect(p: Pdn)
      requires Valid() && (p.isStatic ==> p.ipv4 < TWO_32)
      modifies this`pdns
      ensures Valid() && Value() == AddPdn(old(Value()), p)
    {
      pdns := pdns + [p];
    }

    /** The address part of process_create_sess_req. */
    method ProcessCreateSession(paa: nat, ueip: bool, globalAddress: bool, contextOk: bool) returns (accepted: bool)
      requires Valid() && paa < TWO_32
      modifies this, dynamicPool, staticPool.at.Values
      ensures Valid() && staticPool.at == old(staticPool.at)
      ensures Value() == Next(old(Value()), Create(paa, ueip, globalAddress, contextOk))
      ensures accepted <==>
                && contextOk
                && (paa != 0 ==> paa in staticPool.Members() && paa !in old(staticPool.Used()))
                && (paa == 0 && !ueip && globalAddress ==> old(dynamicPool.free) != [] && old(dynamicPool.free)[0] != 0)
      ensures var control := !ueip && globalAddress;
              pdns == if !accepted then old(pdns)
                      else if paa != 0 then old(pdns) + [Pdn(true, true, true, false, paa)]
                      else old(pdns) + [Pdn(true, false, control, !control, if control then old(dynamicPool.free)[0] else 0)]
      ensures staticPool.Used() ==
                if paa != 0 && paa in staticPool.Members() then old(staticPool.Used()) + {paa} else old(staticPool.Used())
    {
      if paa != 0 {
        accepted := CreateStatic(paa, contextOk);
      } else {
        accepted := CreateDynamic(!ueip && globalAddress, contextOk);
      }
    }

    method CreateStatic(paa: nat, contextOk: bool) returns (accepted: bool)
      requires Valid() && 0 < paa < TWO_32
      modifies this`pdns, staticPool.at.Values
      ensures Valid() && staticPool.at == old(staticPool.at)
      ensures Value() == AfterCreate(old(Value()), paa, false, false, contextOk)
      ensures accepted <==> contextOk && paa in staticPool.Members() && paa !in old(staticPool.Used())
      ensures pdns == if accepted then old(pdns) + [Pdn(true, true, true, false, paa)] else old(pdns)
      ensures staticPool.Used() ==
                if paa in staticPool.Members() then old(staticPool.Used()) + {paa} else old(staticPool.Used())
    {
      var found := ReserveStatic(paa);
      if !found || !contextOk {
        return false;
      }
      Connect(Pdn(true, true, true, false, paa));
      return true;
    }

    method CreateDynamic(control: bool, contextOk: bool) returns (accepted: bool)
      requires Valid()
      modifies this, dynamicPool
      ensures Valid() && Value() == AfterCreate(old(Value()), 0, !control, control, contextOk)
      ensures accepted <==> contextOk && (control ==> old(dynamicPool.free) != [] && old(dynamicPool.free)[0] != 0)
      ensures pdns == if accepted
                      then old(pdns) + [Pdn(true, false, control, !control, if control then old(dynamicPool.free)[0] else 0)]
                      else old(pdns)
    {
      var ueIp := 0;
      if control {
        ueIp := AcquireIp();
        if ueIp == 0 {
          return false;
        }
      }
      if !contextOk {
        ReleaseIp(ueIp);
        return false;
      }
      Connect(Pdn(true, false, control, !control, ueIp));
      return true;
    }

    /** The hand-over to a user plane that allocates addresses itself. */
    method InitiateSession(i: nat, ueip: bool) returns (proceeds: bool)
      requires Valid() && i < |pdns| && pdns[i].live
      modifies this, dynamicPool
      ensures Valid() && staticPool.at == old(staticPool.at)
      ensures Value() == Next(old(Value()), InitiateUpfSession(i, ueip))
      ensures !proceeds <==> !ueip && old(pdns[i].upf)
      ensures ueip && old(pdns[i].control) ==>
                && !pdns[i].control && pdns[i].upf && pdns[i].ipv4 == 0
                && pdns == old(pdns)[i := old(pdns[i]).(control := false, upf := true, ipv4 := 0)]
                && dynamicPool.free == old(dynamicPool.free) + [old(pdns[i].ipv4)]
      ensures !(ueip && old(pdns[i].control)) ==> Value() == old(Value())
    {
      if !ueip {
        return !pdns[i].upf;
      }
      if pdns[i].control {
        ReleaseIp(pdns[i].ipv4);
        pdns := pdns[i := pdns[i].(ipv4 := 0, control := false, upf := true)];
      }
      return true;
    }

    method HandleEstablishResponse(i: nat, v4: bool, address: nat)
      requires Valid() && i < |pdns| && pdns[i].live && address < TWO_32
      modifies this`pdns
      ensures Valid()
      ensures Value() == Next(old(Value()), EstablishResponse(i, v4, address))
      ensures pdns == old(pdns)[i := old(pdns[i]).(ipv4 := if v4 then address else old(pdns[i].ipv4))]
    {
      if v4 {
        pdns := pdns[i := pdns[i].(ipv4 := address)];
      }
    }

    method CheckDeleteRequest(i: nat)
      requires Valid() && i < |pdns| && pdns[i].live
      modifies staticPool.at.Values
      ensures Valid() && staticPool.at == old(staticPool.at)
      ensures Value() == Next(old(Value()), DeleteRequest(i))
      ensures staticPool.Used() == if pdns[i].isStatic then old(staticPool.Used()) - {pdns[i].ipv4} else old(staticPool.Used())
    {
      if pdns[i].isStatic {
        ReleaseStatic(pdns[i].ipv4);
      }
    }

    /** The end of cleanup_pdn_context. */
    method CleanupPdn(i: nat)
      requires Valid() && i < |pdns| && pdns[i].live
      modifies this, dynamicPool, staticPool.at.Values
      ensures Valid() && staticPool.at == old(staticPool.at)
      ensures Value() == Next(old(Value()), Cleanup(i))
      ensures pdns == old(pdns)[i := old(pdns[i]).(live := false)]
      ensures staticPool.Used() == if pdns[i].isStatic then old(staticPool.Used()) - {pdns[i].ipv4} else old(staticPool.Used())
      ensures dynamicPool.free ==
                if !pdns[i].isStatic && pdns[i].control then old(dynamicPool.free) + [pdns[i].ipv4] else old(dynamicPool.free)
    {
      if pdns[i].isStatic {
        ReleaseStatic(pdns[i].ipv4);
      } else if pdns[i].control {
        ReleaseIp(pdns[i].ipv4);
      }
      Disconnect(i);
    }

    method Disconnect(i: nat)
      requires Valid() && i < |pdns|
      modifies this`pdns
      ensures Valid() && Value() == old(Value()).(pdns := old(pdns)[i := old(pdns[i]).(live := false)])
    {
      pdns := pdns[i := pdns[i].(live := false)];
    }
  }
}
