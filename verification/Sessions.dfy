/**
 Subscriber contexts and the tables that index them: cp/ue.c, cp/pdn.c, cpplib/ue_tables.h,
 cpplib/pdn_tables.h and the session-id macros of cp/vepc_cp_dp_api.h. One subscriber is
 reachable by IMSI, by control TEID and, once its PFCP session is being established, by SEID;
 its PDN connection is reachable by TEID. The SEID packs the TEID and the bearer id.
 */
module Sessions {

  const TWO_28 := 0x1000_0000
  const TWO_32 := 0x1_0000_0000

  // ------------------------------------------------------------------ session ids

  /** (ue_id << 4) | (0xf & br_id): the shift leaves the low four bits clear, so the or is a sum. */
  function SessId(ueId: nat, bearerId: nat): nat {
    16 * ueId + bearerId % 16
  }

  /** (x & 0xffffffff) >> 4 */
  function UeSessId(seid: nat): nat {
    (seid % TWO_32) / 16
  }

  /** x & 0xf */
  function UeBearId(seid: nat): nat {
    seid % 16
  }

  /** UE_SESS_ID keeps 28 bits: it gives the TEID back exactly for TEIDs below 2^28. */
  lemma TeidRecoveredExactly(teid: nat, bearerId: nat)
    ensures UeSessId(SessId(teid, bearerId)) == teid % TWO_28
    ensures UeSessId(SessId(teid, bearerId)) == teid <==> teid < TWO_28
    ensures UeBearId(SessId(teid, bearerId)) == bearerId % 16
  {
    var high, low := teid / 0x1000_0000, teid % 0x1000_0000;
    var rest := 16 * low + bearerId % 16;
    assert SessId(teid, bearerId) == 0x1_0000_0000 * high + rest && 0 <= rest < 0x1_0000_0000;
    LowBits(SessId(teid, bearerId), high, rest);
    Nibble(SessId(teid, bearerId), teid, bearerId % 16);
    Nibble(rest, low, bearerId % 16);
  }

  lemma Nibble(x: int, q: int, r: int)
    requires x == 16 * q + r && 0 <= r < 16
    ensures x / 16 == q && x % 16 == r
  {}

  lemma LowBits(x: int, q: int, r: int)
    requires x == 0x1_0000_0000 * q + r && 0 <= r < 0x1_0000_0000
    ensures x % 0x1_0000_0000 == r
  {}

  lemma SessIdInjective(t1: nat, b1: nat, t2: nat, b2: nat)
    ensures SessId(t1, b1) == SessId(t2, b2) <==> t1 == t2 && b1 % 16 == b2 % 16
  {
    Nibble(SessId(t1, b1), t1, b1 % 16);
    Nibble(SessId(t2, b2), t2, b2 % 16);
  }

  // ------------------------------------------------------------------ contexts and tables

  class UeContext {
    const imsi: nat
    const teid: nat

    constructor (imsi: nat, teid: nat)
      ensures this.imsi == imsi && this.teid == teid
    {
      this.imsi, this.teid := imsi, teid;
    }
  }

  class PdnConnection {
    const context: UeContext
    const bearerId: nat
    const seid: nat

    constructor (context: UeContext, bearerId: nat, seid: nat)
      ensures this.context == context && this.bearerId == bearerId && this.seid == seid
    {
      this.context, this.bearerId, this.seid := context, bearerId, seid;
    }

    /** The SEID packs the TEID of the subscriber and the id of the default bearer. */
    predicate SeidPacksTeid() {
      seid == SessId(context.teid, bearerId)
    }
  }

  /** unordered_map::insert: an existing entry stays. */
  function Insert<K, V>(m: map<K, V>, k: K, v: V): (r: map<K, V>)
    ensures r.Keys == m.Keys + {k} && (forall j :: j in m ==> r[j] == m[j]) && (k !in m ==> r[k] == v)
  {
    if k in m then m else m[k := v]
  }

  datatype Op =
    | AttachRequest(imsi: nat, bearerId: nat)
    | SendEstablishment(teid: nat)
    | EndSession(teid: nat)

  datatype Outcome = Done | Rejected | NotFound | AssertionFailed

  /**
   The four tables, and what the contexts' own pdns arrays hold: a subscriber has one PDN connection from
   creation to cleanup, so the keys of `pdns` are the live subscribers. `establishing` are those for which
   a PFCP session establishment was sent.
   */
  datatype Tables = Tables(
    byImsi: map<nat, UeContext>,
    byTeid: map<nat, UeContext>,
    bySeid: map<nat, UeContext>,
    pdnByTeid: map<nat, PdnConnection>,
    pdns: map<UeContext, PdnConnection>,
    establishing: set<UeContext>)
  {
    /** The tables know this live subscriber under all its keys. */
    ghost predicate Indexed(u: UeContext)
      requires u in pdns
    {
      && u.imsi in byImsi && byImsi[u.imsi] == u
      && u.teid in byTeid && byTeid[u.teid] == u
      && u.teid in pdnByTeid && pdnByTeid[u.teid] == pdns[u]
      && pdns[u].context == u && pdns[u].SeidPacksTeid()
      && (u in establishing ==> pdns[u].seid in bySeid && bySeid[pdns[u].seid] == u)
    }

    /** Live subscribers are fully indexed and the tables hold nothing else. */
    ghost predicate Agree() {
      && (forall u :: u in pdns ==> Indexed(u))
      && (forall u :: u in establishing ==> u in pdns)
      && (forall k :: k in byImsi ==> byImsi[k] in pdns && byImsi[k].imsi == k)
      && (forall k :: k in byTeid ==> byTeid[k] in pdns && byTeid[k].teid == k)
      && (forall k :: k in pdnByTeid ==> k in byTeid)
      && (forall k :: k in bySeid ==> bySeid[k] in establishing && bySeid[k] in pdns && pdns[bySeid[k]].seid == k)
    }

    function Attached(u: UeContext, pdn: PdnConnection): Tables {
      this.(byImsi := Insert(byImsi, u.imsi, u), byTeid := Insert(byTeid, u.teid, u),
            pdnByTeid := Insert(pdnByTeid, u.teid, pdn), pdns := pdns[u := pdn])
    }

    function Established(u: UeContext): Tables
      requires u in pdns
    {
      this.(bySeid := Insert(bySeid, pdns[u].seid, u), establishing := establishing + {u})
    }

    function Finished(u: UeContext): Tables
      requires u in pdns
    {
      this.(bySeid := bySeid - {pdns[u].seid}, pdnByTeid := pdnByTeid - {u.teid}, pdns := pdns - {u},
            byImsi := byImsi - {u.imsi}, byTeid := byTeid - {u.teid}, establishing := establishing - {u})
    }

    lemma SeidsDistinct(u: UeContext, v: UeContext)
      requires Agree() && u in pdns && v in pdns && u != v
      ensures pdns[u].seid != pdns[v].seid
    {
      assert Indexed(u) && Indexed(v);
      SessIdInjective(u.teid, pdns[u].bearerId, v.teid, pdns[v].bearerId);
    }

    lemma AttachedAgrees(u: UeContext, pdn: PdnConnection)
      requires Agree() && u.imsi !in byImsi && u.teid !in byTeid && pdn.context == u && pdn.SeidPacksTeid()
      ensures Attached(u, pdn).Agree()
    {
      var t := Attached(u, pdn);
      assert u !in pdns by { assert u in pdns ==> Indexed(u); }
      forall v | v in t.pdns ensures t.Indexed(v) {
        assert v != u ==> Indexed(v);
      }
    }

    lemma EstablishedAgrees(u: UeContext)
      requires Agree() && u in pdns
      ensures Established(u).Agree()
      ensures Established(u).bySeid == bySeid[pdns[u].seid := u]
    {
      var t := Established(u);
      forall v | v in pdns && v != u ensures pdns[v].seid != pdns[u].seid {
        SeidsDistinct(u, v);
      }
      forall v | v in t.pdns ensures t.Indexed(v) {
        assert Indexed(v);
      }
    }

    lemma EstablishedKeeps(u: UeContext)
      requires Agree() && u in pdns
      ensures OthersKept(this, Established(u), u)
    {
      EstablishedAgrees(u);
    }

    lemma FinishedRemoves(u: UeContext)
      requires Agree() && u in pdns
      ensures Gone(Finished(u), u, pdns[u].seid) && OthersKept(this, Finished(u), u)
    {
      FinishedAgrees(u);
    }

    lemma FinishedAgrees(u: UeContext)
      requires Agree() && u in pdns
      ensures Finished(u).Agree()
    {
      var t := Finished(u);
      assert Indexed(u);
      forall v | v in t.pdns ensures t.Indexed(v) {
        assert Indexed(v);
        SeidsDistinct(u, v);
      }
      forall k | k in t.bySeid ensures t.bySeid[k] in t.establishing {
        assert Indexed(bySeid[k]);
      }
    }
  }

  /** Nothing of the subscriber is left in the tables. */
  ghost predicate Gone(t: Tables, u: UeContext, seid: nat) {
    && u !in t.pdns && u !in t.establishing
    && u.imsi !in t.byImsi && u.teid !in t.byTeid && u.teid !in t.pdnByTeid && seid !in t.bySeid
  }

  /** Every other subscriber is still there, with its PDN connection, its mark and all its entries. */
  ghost predicate OthersKept(before: Tables, after: Tables, u: UeContext) {
    forall v :: v in before.pdns && v != u ==>
      && v in after.pdns && after.pdns[v] == before.pdns[v] && after.Indexed(v)
      && (v in after.establishing <==> v in before.establishing)
  }

  class Gateway {
    /** The first TEID: 0xC0FFEE for a combined gateway, 0xD0FFEE for a PGW. */
    const base: nat
    var offset: nat
    var byImsi: map<nat, UeContext>
    var byTeid: map<nat, UeContext>
    var bySeid: map<nat, UeContext>
    var pdnByTeid: map<nat, PdnConnection>
    var pdns: map<UeContext, PdnConnection>
    ghost var establishing: set<UeContext>

    constructor (base: nat)
      ensures Valid() && this.base == base && offset == 0
      ensures State() == Tables(map[], map[], map[], map[], map[], {})
    {
      this.base, offset := base, 0;
      byImsi, byTeid, bySeid, pdnByTeid, pdns := map[], map[], map[], map[], map[];
      establishing := {};
    }

    ghost function State(): Tables
      reads this
    {
      Tables(byImsi, byTeid, bySeid, pdnByTeid, pdns, establishing)
    }

    /** TEID number `i`, in 32 bits. */
    function Teid(i: nat): nat {
      (base + i) % TWO_32
    }

    /** The number under which a TEID is issued. */
    function Rank(teid: nat): nat {
      (teid - base) % TWO_32
    }

    ghost predicate Issued(teid: nat, n: nat) {
      teid < TWO_32 && Rank(teid) < n
    }

    ghost predicate Valid()
      reads this
    {
      && State().Agree()
      && offset <= TWO_32
      && (forall k :: k in byTeid ==> Issued(k, offset))
    }

    lemma RankOfTeid(n: nat)
      requires n < TWO_32
      ensures Teid(n) < TWO_32 && Rank(Teid(n)) == n
    {
      var q := (base + n) / TWO_32;
      assert Teid(n) - base == n - TWO_32 * q;
    }

    lemma TeidOfRank(teid: nat)
      requires teid < TWO_32
      ensures Teid(Rank(teid)) == teid
    {
      var q := (teid - base) / TWO_32;
      assert base + Rank(teid) == teid - TWO_32 * q;
    }

    /**
     create_ue_context and the part of process_create_sess_req that links PDN and subscriber. As long as the
     32-bit TEID counter has not wrapped, the TEID is new and every insert adds its entry.
     */
    method Attach(imsi: nat, bearerId: nat) returns (r: Outcome, u: UeContext?)
      requires Valid() && offset < TWO_32
      modifies this
      ensures Valid()
      ensures imsi in old(byImsi) ==> r == Rejected && State() == old(State()) && offset == old(offset)
      ensures imsi !in old(byImsi) ==>
                && r == Done && u != null && fresh(u) && u in pdns && offset == old(offset) + 1
                && u.imsi == imsi && u.teid == Teid(old(offset)) && pdns[u].bearerId == bearerId
                && u.teid !in old(byTeid)
                && State() == old(State()).Attached(u, pdns[u])
                && OthersKept(old(State()), State(), u)
    {
      if imsi in byImsi {
        return Rejected, null;
      }
      RankOfTeid(offset);
      u := new UeContext(imsi, Teid(offset));
      var pdn := new PdnConnection(u, bearerId, SessId(u.teid, bearerId));
      State().AttachedAgrees(u, pdn);
      AddEntries(u, pdn);
      offset := offset + 1;
      r := Done;
    }

    method AddEntries(u: UeContext, pdn: PdnConnection)
      modifies this
      ensures State() == old(State()).Attached(u, pdn) && offset == old(offset)
    {
      byImsi := Insert(byImsi, u.imsi, u);
      byTeid := Insert(byTeid, u.teid, u);
      pdns := pdns[u := pdn];
      pdnByTeid := Insert(pdnByTeid, u.teid, pdn);
    }

    /** process_pfcp_sess_est_request: from now on the subscriber is reachable by SEID. */
    method Establish(u: UeContext)
      requires Valid() && u in pdns
      modifies this
      ensures Valid() && offset == old(offset)
      ensures State() == old(State()).Established(u)
      ensures bySeid == old(bySeid)[pdns[u].seid := u]
      ensures u in establishing && OthersKept(old(State()), State(), u)
    {
      State().EstablishedAgrees(u);
      State().EstablishedKeeps(u);
      bySeid := Insert(bySeid, pdns[u].seid, u);
      establishing := establishing + {u};
      assert State() == old(State()).Established(u);
    }

    /**
     cleanup_pdn_context followed by cleanup_ue_context: the end of a failed attach, of a detach and of a
     network-initiated detach. The assertion on the TEID recovered from the SEID holds exactly below 2^28.
     */
    method Finish(u: UeContext) returns (r: Outcome)
      requires Valid() && u in pdns
      modifies this
      ensures Valid() && offset == old(offset)
      ensures r == if u.teid < TWO_28 then Done else AssertionFailed
      ensures State() == if u.teid < TWO_28 then old(State()).Finished(u) else old(State())
      ensures u.teid < TWO_28 ==> Gone(State(), u, old(pdns)[u].seid) && OthersKept(old(State()), State(), u)
    {
      var pdn := pdns[u];
      assert State().Indexed(u);
      TeidRecoveredExactly(u.teid, pdn.bearerId);
      if pdn.context.teid != UeSessId(pdn.seid) {
        return AssertionFailed;
      }
      State().FinishedAgrees(u);
      State().FinishedRemoves(u);
      RemoveEntries(u);
      r := Done;
    }

    method RemoveEntries(u: UeContext)
      requires u in pdns && pdns[u].context == u
      modifies this
      ensures State() == old(State()).Finished(u) && offset == old(offset)
    {
      var pdn := pdns[u];
      bySeid := bySeid - {pdn.seid};
      pdnByTeid := pdnByTeid - {pdn.context.teid};
      pdns := pdns - {u};
      byImsi := byImsi - {u.imsi};
      byTeid := byTeid - {u.teid};
      establishing := establishing - {u};
    }

    /**
     process_pfcp_sess_est_resp finds the subscriber of a response through the TEID packed in the SEID; below
     2^28 that is the subscriber the SEID table holds.
     */
    method FindForResponse(seid: nat) returns (found: bool, u: UeContext?)
      requires Valid()
      ensures found ==> u != null && u in pdns && u.teid == UeSessId(seid)
      ensures seid in bySeid && bySeid[seid].teid < TWO_28 ==> found && u == bySeid[seid]
      ensures !found ==> UeSessId(seid) !in byTeid
    {
      var teid := UeSessId(seid);
      if seid in bySeid {
        assert State().Indexed(bySeid[seid]);
        TeidRecoveredExactly(bySeid[seid].teid, pdns[bySeid[seid]].bearerId);
      }
      if teid in byTeid {
        return true, byTeid[teid];
      }
      return false, null;
    }

    /** One message: the TEID-keyed ones look their subscriber up first. */
    method Handle(op: Op) returns (r: Outcome)
      requires Valid() && base + offset <= TWO_28
      requires op.AttachRequest? && op.imsi !in byImsi ==> base + offset < TWO_28
      modifies this
      ensures Valid() && base + offset <= TWO_28
      ensures r != AssertionFailed
      ensures op.AttachRequest? ==>
                if op.imsi in old(byImsi) then r == Rejected && State() == old(State())
                else && r == Done && op.imsi in byImsi && byImsi[op.imsi] in pdns
                     && State() == old(State()).Attached(byImsi[op.imsi], pdns[byImsi[op.imsi]])
      ensures !op.AttachRequest? && op.teid !in old(byTeid) ==> r == NotFound && State() == old(State())
      ensures op.SendEstablishment? && op.teid in old(byTeid) ==>
                r == Done && State() == old(State()).Established(old(byTeid)[op.teid])
      ensures op.EndSession? && op.teid in old(byTeid) ==>
                && r == Done && State() == old(State()).Finished(old(byTeid)[op.teid])
                && Gone(State(), old(byTeid)[op.teid], old(pdns)[old(byTeid)[op.teid]].seid)
                && OthersKept(old(State()), State(), old(byTeid)[op.teid])
    {
      if op.AttachRequest? {
        var u;
        r, u := Attach(op.imsi, op.bearerId);
      } else if op.teid !in byTeid {
        r := NotFound;
      } else if op.SendEstablishment? {
        Establish(byTeid[op.teid]);
        r := Done;
      } else {
        TeidOfRank(op.teid);
        r := Finish(byTeid[op.teid]);
      }
    }

    /** A subscriber whose session ended can attach again, as a new context. */
    method EndAndAttach(u: UeContext, bearerId: nat) returns (ended: Outcome, attached: Outcome, again: UeContext?)
      requires Valid() && offset < TWO_32 && u in pdns && u.teid < TWO_28
      modifies this
      ensures Valid() && ended == Done && attached == Done
      ensures again != null && fresh(again) && again.imsi == u.imsi && again in pdns && u !in pdns
    {
      ended := Finish(u);
      attached, again := Attach(u.imsi, bearerId);
    }

    /** The message needs a TEID and there is none left below 2^28. */
    predicate Exhausted(op: Op)
      reads this
    {
      op.AttachRequest? && op.imsi !in byImsi && base + offset >= TWO_28
    }

    /**
     Every run of attaches, establishments and ends, in any order, up to an attach that finds no TEID below 2^28:
     the tables agree at every point and no assertion fails.
     */
    method Run(ops: seq<Op>) returns (outcomes: seq<Outcome>)
      requires Valid() && base + offset <= TWO_28
      modifies this
      ensures Valid()
      ensures |outcomes| <= |ops| && AssertionFailed !in outcomes
      ensures |outcomes| < |ops| ==> Exhausted(ops[|outcomes|])
    {
      outcomes := [];
      while |outcomes| < |ops| && !Exhausted(ops[|outcomes|])
        invariant |outcomes| <= |ops|
        invariant Valid() && base + offset <= TWO_28
        invariant AssertionFailed !in outcomes
        decreases |ops| - |outcomes|
      {
        var r := Handle(ops[|outcomes|]);
        outcomes := outcomes + [r];
      }
    }
  }
}
