/** spgwTables: the transaction map, a std::map ordered by `comp` on a key whose fields are filled by position. */
module TransactionTable {
  import opened Basics

  /** A transaction as its callers name it. */
  datatype Name = Name(address: nat, port: nat, sequence: nat)

  /** struct transKey. */
  datatype TransKey = TransKey(srcPort: nat, srcIp: nat, seqNum: nat)

  /** The initialiser { msg_seq, src_addr, src_port } puts the sequence number in src_port and the port in seq_num. */
  function KeyOf(n: Name): TransKey {
    TransKey(n.sequence, n.address, n.port)
  }

  predicate Comp(l: TransKey, r: TransKey) {
    if l.srcPort == r.srcPort then
      if l.srcIp == r.srcIp then
        if l.seqNum == r.seqNum then false else l.seqNum < r.seqNum
      else l.srcIp < r.srcIp
    else l.srcPort < r.srcPort
  }

  lemma CompIsTotalOrder(a: TransKey, b: TransKey, c: TransKey)
    ensures !Comp(a, a)
    ensures Comp(a, b) && Comp(b, c) ==> Comp(a, c)
    ensures !Comp(a, b) && !Comp(b, a) <==> a == b
  {}

  type Entries = seq<(TransKey, nat)>

  predicate Ordered(es: Entries) {
    forall i, j :: 0 <= i < j < |es| ==> Comp(es[i].0, es[j].0)
  }

  /** lower_bound: the first entry that does not come before `k`. */
  function LowerBound(es: Entries, k: TransKey): (i: nat)
    ensures i <= |es|
    ensures forall j :: 0 <= j < i ==> Comp(es[j].0, k)
    ensures i < |es| ==> !Comp(es[i].0, k)
  {
    if es == [] || !Comp(es[0].0, k) then 0 else 1 + LowerBound(es[1..], k)
  }

  /** The entry equivalent to `k` under `comp`, if there is one. */
  function Lookup(es: Entries, k: TransKey): Option<nat> {
    var i := LowerBound(es, k);
    if i < |es| && !Comp(k, es[i].0) then Some(es[i].1) else None
  }

  /** insert: does nothing if the key is there. */
  function Insert(es: Entries, k: TransKey, v: nat): Entries {
    var i := LowerBound(es, k);
    if Lookup(es, k) == None then es[..i] + [(k, v)] + es[i..] else es
  }

  function Erase(es: Entries, k: TransKey): Entries {
    var i := LowerBound(es, k);
    if Lookup(es, k) == None then es else es[..i] + es[i + 1..]
  }

  /** In an ordered list a lookup finds exactly the entry with that key. */
  lemma LookupFinds(es: Entries, k: TransKey, i: nat)
    requires Ordered(es) && i < |es| && es[i].0 == k
    ensures LowerBound(es, k) == i && Lookup(es, k) == Some(es[i].1)
  {}

  lemma LookupMember(es: Entries, k: TransKey)
    requires Lookup(es, k).Some?
    ensures var i := LowerBound(es, k); i < |es| && es[i] == (k, Lookup(es, k).value)
  {
    CompIsTotalOrder(es[LowerBound(es, k)].0, k, k);
  }

  lemma InsertOrdered(es: Entries, k: TransKey, v: nat)
    requires Ordered(es) && Lookup(es, k) == None
    ensures Ordered(Insert(es, k, v))
  {
    var i, t := LowerBound(es, k), Insert(es, k, v);
    forall a, b | 0 <= a < b < |t| ensures Comp(t[a].0, t[b].0) {
      if i < b {
        assert t[b] == es[b - 1];
        assert i < b - 1 ==> Comp(es[i].0, es[b - 1].0);
        CompIsTotalOrder(k, es[i].0, es[b - 1].0);
      }
    }
  }

  lemma InsertLookup(es: Entries, k: TransKey, v: nat, q: TransKey)
    requires Ordered(es)
    ensures Ordered(Insert(es, k, v))
    ensures Lookup(Insert(es, k, v), q) == if q == k && Lookup(es, k) == None then Some(v) else Lookup(es, q)
  {
    if Lookup(es, k) == None {
      InsertOrdered(es, k, v);
      var i, t := LowerBound(es, k), Insert(es, k, v);
      if q == k {
        LookupFinds(t, k, i);
      } else {
        if Lookup(es, q).Some? {
          LookupMember(es, q);
          var j := LowerBound(es, q);
          LookupFinds(t, q, if j < i then j else j + 1);
        }
        if Lookup(t, q).Some? {
          LookupMember(t, q);
          var j := LowerBound(t, q);
          assert j != i;
          LookupFinds(es, q, if j < i then j else j - 1);
        }
      }
    }
  }

  lemma EraseOrdered(es: Entries, k: TransKey)
    requires Ordered(es)
    ensures Ordered(Erase(es, k))
  {
    var i, t := LowerBound(es, k), Erase(es, k);
    if t != es {
      forall a, b | 0 <= a < b < |t| ensures Comp(t[a].0, t[b].0) {
        assert Comp(es[if a < i then a else a + 1].0, es[if b < i then b else b + 1].0);
      }
    }
  }

  lemma EraseFinds(es: Entries, k: TransKey, q: TransKey)
    requires Ordered(es) && Lookup(Erase(es, k), q).Some?
    ensures q != k && Lookup(es, q) == Lookup(Erase(es, k), q)
  {
    var i, t := LowerBound(es, k), Erase(es, k);
    if t != es {
      LookupMember(es, k);
      LookupMember(t, q);
      var j := LowerBound(t, q);
      LookupFinds(es, q, if j < i then j else j + 1);
    }
  }

  lemma EraseKeeps(es: Entries, k: TransKey, q: TransKey)
    requires Ordered(es) && q != k && Lookup(es, q).Some?
    ensures Lookup(Erase(es, k), q) == Lookup(es, q)
  {
    var i, t := LowerBound(es, k), Erase(es, k);
    if Lookup(es, k).Some? {
      LookupMember(es, k);
      LookupMember(es, q);
      EraseOrdered(es, k);
      var j := LowerBound(es, q);
      LookupFinds(t, q, if j < i then j else j - 1);
    }
  }

  lemma EraseLookup(es: Entries, k: TransKey, q: TransKey)
    requires Ordered(es)
    ensures Lookup(Erase(es, k), q) == if q == k then None else Lookup(es, q)
  {
    if Lookup(Erase(es, k), q).Some? {
      EraseFinds(es, k, q);
    }
    if q != k && Lookup(es, q).Some? {
      EraseKeeps(es, k, q);
    }
  }

  class SpgwTables {
    var entries: Entries
    ghost var contents: map<Name, nat>

    constructor ()
      ensures Valid() && contents == map[]
    {
      entries := [];
      contents := map[];
    }

    /** The list is ordered and answers every lookup as the map from names does. */
    ghost predicate Valid()
      reads this
    {
      && Ordered(entries)
      && forall n :: Lookup(entries, KeyOf(n)) == if n in contents then Some(contents[n]) else None
    }

    method AddTrans(n: Name, trans: nat)
      requires Valid()
      modifies this
      ensures Valid() && contents == if n in old(contents) then old(contents) else old(contents)[n := trans]
    {
      forall q ensures Lookup(Insert(entries, KeyOf(n), trans), KeyOf(q))
                       == if q == n && n !in contents then Some(trans) else Lookup(entries, KeyOf(q))
      {
        InsertLookup(entries, KeyOf(n), trans, KeyOf(q));
      }
      InsertLookup(entries, KeyOf(n), trans, KeyOf(n));
      entries := Insert(entries, KeyOf(n), trans);
      contents := if n in contents then contents else contents[n := trans];
    }

    method FindTrans(n: Name) returns (trans: Option<nat>)
      requires Valid()
      ensures trans == if n in contents then Some(contents[n]) else None
    {
      trans := Lookup(entries, KeyOf(n));
    }

    method DeleteTrans(n: Name) returns (trans: Option<nat>)
      requires Valid()
      modifies this
      ensures Valid() && contents == old(contents) - {n}
      ensures trans == if n in old(contents) then Some(old(contents)[n]) else None
    {
      trans := Lookup(entries, KeyOf(n));
      forall q ensures Lookup(Erase(entries, KeyOf(n)), KeyOf(q)) == if q == n then None else Lookup(entries, KeyOf(q)) {
        EraseLookup(entries, KeyOf(n), KeyOf(q));
      }
      EraseOrdered(entries, KeyOf(n));
      entries := Erase(entries, KeyOf(n));
      contents := contents - {n};
    }
  }
}

/**
 PFCP transactions: requests sent and retried under a timer, requests received from a peer, and the deferred freeing
 of their blocks (cp/cp_transactions.c, the retry handlers, cpplib/delayed_task.cpp).
 A step is one message, one timer expiry or one round of the freeing thread, each atomic.
 */
module Transactions {
  import opened Basics
  import opened TransactionTable

  /** Local PFCP address and port, and request_tries, an eight-bit setting. */
  datatype Config = Config(address: nat, port: nat, requestTries: nat)

  /** transData_t; `sends`, `successes` and `failures` record what became of it. */
  datatype Trans = Trans(
    self: bool, peerAddress: nat, peerPort: nat, sequence: nat, proc: nat,
    itrCnt: nat, armed: bool, delayedDelete: bool,
    sends: nat, successes: nat, failures: nat)

  /** `procs` maps each live procedure to its pfcp_trans; `fault` marks a failed assertion or a use of a freed procedure. */
  datatype State = State(
    table: map<Name, nat>,
    trans: seq<Trans>,
    procs: map<nat, Option<nat>>,
    queue: seq<nat>,
    freed: seq<nat>,
    fault: bool)

  datatype Step =
    /** A procedure is allocated. */
    | Begin(proc: nat)
    /** A procedure sends a request to a user plane. */
    | Send(proc: nat, peerAddress: nat, peerPort: nat, sequence: nat)
    /** A report request arrives from a user plane; its procedure gets the number `proc`. */
    | Report(proc: nat, peerAddress: nat, peerPort: nat, sequence: nat)
    | Response(sequence: nat)
    /** The retry timer of a transaction fires; `restarted` tells whether a restart of it would work. */
    | Expire(trans: nat, restarted: bool)
    | EndProcedure(proc: nat)
    /** The freeing thread takes one block. */
    | Reap

  /** The name cleanup_pfcp_trans looks a transaction up by. */
  function OwnName(c: Config, t: Trans): Name {
    if t.self then Name(c.address, c.port, t.sequence) else Name(t.peerAddress, t.peerPort, t.sequence)
  }

  function Add(c: Config, s: State, t: Trans): State {
    var n := OwnName(c, t);
    s.(table := if n in s.table then s.table else s.table[n := |s.trans|],
       trans := s.trans + [t],
       procs := s.procs[t.proc := Some(|s.trans|)])
  }

  function DelayedFree(s: State, i: nat): State
    requires i < |s.trans|
  {
    if s.trans[i].delayedDelete then s
    else s.(trans := s.trans[i := s.trans[i].(delayedDelete := true)], queue := s.queue + [i])
  }

  /** stop_transaction_timer, delayed_free and the unlinking from the procedure. */
  function Release(s: State, i: nat): State
    requires i < |s.trans|
  {
    var p := s.trans[i].proc;
    var t := DelayedFree(s.(trans := s.trans[i := s.trans[i].(armed := false)]), i);
    t.(procs := if p in t.procs then t.procs[p := None] else t.procs, fault := t.fault || p !in t.procs)
  }

  function Cleanup(c: Config, s: State, i: nat): State
    requires i < |s.trans|
  {
    var n := OwnName(c, s.trans[i]);
    Release(s.(table := s.table - {n}, fault := s.fault || (n in s.table && s.table[n] != i)), i)
  }

  /** A numbered link that dangles is a fault. */
  predicate Linked(s: State, p: nat) {
    p in s.procs && s.procs[p].Some? && s.procs[p].value < |s.trans|
  }

  function End(c: Config, s: State, p: nat): State {
    if p !in s.procs then s
    else
      var t := if Linked(s, p) then Cleanup(c, s, s.procs[p].value) else s;
      t.(procs := t.procs - {p})
  }

  function HandleResponse(s: State, n: Name): State {
    if n !in s.table || s.table[n] >= |s.trans| then s
    else
      var i := s.table[n];
      var t := s.trans[i];
      Release(SetTrans(s.(table := s.table - {n}), i, t.(successes := t.successes + 1)), i)
  }

  function SetTrans(s: State, i: nat, t: Trans): State
    requires i < |s.trans|
  {
    s.(trans := s.trans[i := t])
  }

  /** The counter has eight bits. */
  function CountUp(t: Trans): Trans {
    t.(itrCnt := (t.itrCnt + 1) % 256)
  }

  /** A procedure's time-out handler: it retries or fails the transaction the procedure points to. */
  function HandleTimeout(c: Config, s: State, p: nat, restarted: bool): State {
    if !Linked(s, p) then s.(fault := true)
    else
      var i := s.procs[p].value;
      var u := CountUp(s.trans[i]);
      if u.itrCnt < c.requestTries then SetTrans(s, i, u.(sends := u.sends + 1, armed := restarted))
      else End(c, SetTrans(s, i, u.(failures := u.failures + 1)), p)
  }

  /** transaction_retry_callback. */
  function Retry(c: Config, s: State, i: nat, restarted: bool): State
    requires i < |s.trans|
  {
    if s.trans[i].delayedDelete then s
    else HandleTimeout(c, SetTrans(s, i, s.trans[i].(armed := false)), s.trans[i].proc, restarted)
  }

  function Next(c: Config, s: State, step: Step): State {
    match step
    case Begin(p) => if p in s.procs then s else s.(procs := s.procs[p := None])
    case Send(p, address, port, sequence) =>
      if p !in s.procs then s
      else Add(c, s, Trans(true, address, port, sequence, p, 0, true, false, 1, 0, 0))
    case Report(p, address, port, sequence) =>
      if p in s.procs || Name(address, port, sequence) in s.table then s
      else Add(c, s, Trans(false, address, port, sequence, p, 0, false, false, 0, 0, 0))
    case Response(sequence) => HandleResponse(s, Name(c.address, c.port, sequence))
    case Expire(i, restarted) =>
      if i < |s.trans| && s.trans[i].self && i !in s.freed then Retry(c, s, i, restarted) else s
    case EndProcedure(p) => End(c, s, p)
    case Reap => if s.queue == [] then s else s.(queue := s.queue[1..], freed := s.freed + [s.queue[0]])
  }

  function Run(c: Config, s: State, steps: seq<Step>): State
    decreases |steps|
  {
    if steps == [] then s else Run(c, Next(c, s, steps[0]), steps[1..])
  }

  // ------------------------------------------------------------------ the invariant

  function Tries(c: Config): nat {
    if c.requestTries == 0 then 1 else c.requestTries
  }

  /** An unfinished transaction has its own table entry and is the one its procedure points to. */
  predicate InFlight(c: Config, s: State, i: nat)
    requires i < |s.trans|
  {
    var n, p := OwnName(c, s.trans[i]), s.trans[i].proc;
    n in s.table && s.table[n] == i && p in s.procs && s.procs[p] == Some(i)
  }

  predicate Counted(c: Config, t: Trans) {
    (t.armed ==> t.self) &&
    if t.delayedDelete then
      t.successes + t.failures <= 1 && t.sends <= Tries(c) && t.itrCnt <= Tries(c) && !t.armed
    else
      t.successes == t.failures == 0 && t.itrCnt < Tries(c) && t.sends == if t.self then t.itrCnt + 1 else 0
  }

  /** Blocks handed to the freeing thread, freed or still queued. */
  function Retired(s: State): seq<nat> {
    s.freed + s.queue
  }

  ghost predicate Links(c: Config, s: State) {
    && (forall i :: 0 <= i < |s.trans| && !s.trans[i].delayedDelete ==> InFlight(c, s, i))
    && (forall n :: n in s.table ==> s.table[n] < |s.trans| && !s.trans[s.table[n]].delayedDelete
                                     && OwnName(c, s.trans[s.table[n]]) == n)
    && (forall p :: p in s.procs && s.procs[p].Some? ==>
          s.procs[p].value < |s.trans| && !s.trans[s.procs[p].value].delayedDelete && s.trans[s.procs[p].value].proc == p)
  }

  ghost predicate RetiredOnce(s: State) {
    && NoDup(Retired(s))
    && (forall i: nat :: i in Retired(s) <==> i < |s.trans| && s.trans[i].delayedDelete)
  }

  ghost predicate Inv(c: Config, s: State) {
    && !s.fault
    && Links(c, s)
    && RetiredOnce(s)
    && (forall i :: 0 <= i < |s.trans| ==> Counted(c, s.trans[i]))
  }

  predicate ValidConfig(c: Config) {
    c.requestTries < 256
  }

  /** What finishing an unfinished transaction comes to: its final record `t`, off the table, unlinked, queued. */
  function Finished(c: Config, s: State, i: nat, t: Trans): State
    requires i < |s.trans|
  {
    s.(table := s.table - {OwnName(c, s.trans[i])},
       trans := s.trans[i := t],
       procs := s.procs[t.proc := None],
       queue := s.queue + [i])
  }

  lemma FinishedLinks(c: Config, s: State, i: nat, t: Trans)
    requires Links(c, s) && i < |s.trans| && !s.trans[i].delayedDelete
    requires t.delayedDelete && t.proc == s.trans[i].proc
    ensures Links(c, Finished(c, s, i, t))
  {
    var f := Finished(c, s, i, t);
    assert InFlight(c, s, i);
    forall j | 0 <= j < |f.trans| && !f.trans[j].delayedDelete ensures InFlight(c, f, j) {
      assert InFlight(c, s, j);
    }
  }

  lemma FinishedRetired(c: Config, s: State, i: nat, t: Trans)
    requires RetiredOnce(s) && i < |s.trans| && !s.trans[i].delayedDelete && t.delayedDelete
    ensures RetiredOnce(Finished(c, s, i, t))
  {
    assert Retired(Finished(c, s, i, t)) == Retired(s) + [i];
    assert i !in Retired(s);
  }

  lemma FinishedKeeps(c: Config, s: State, i: nat, t: Trans)
    requires Inv(c, s) && i < |s.trans| && !s.trans[i].delayedDelete
    requires t.delayedDelete && t.proc == s.trans[i].proc && Counted(c, t)
    ensures Inv(c, Finished(c, s, i, t))
  {
    FinishedLinks(c, s, i, t);
    FinishedRetired(c, s, i, t);
  }

  /** Cleaning up an unfinished transaction finds its own entry, unlinks it and queues it. */
  lemma CleanupFinishes(c: Config, s: State, i: nat, t: Trans)
    requires Inv(c, s) && i < |s.trans| && !s.trans[i].delayedDelete
    requires !t.delayedDelete && t.proc == s.trans[i].proc && OwnName(c, t) == OwnName(c, s.trans[i])
    ensures Cleanup(c, s.(trans := s.trans[i := t]), i) == Finished(c, s, i, t.(armed := false, delayedDelete := true))
  {
    assert InFlight(c, s, i);
    var u := s.trans[i := t];
    assert u[i := t.(armed := false)][i := t.(armed := false, delayedDelete := true)]
        == s.trans[i := t.(armed := false, delayedDelete := true)];
  }

  lemma EndKeeps(c: Config, s: State, p: nat)
    requires Inv(c, s)
    ensures Inv(c, End(c, s, p))
  {
    if Linked(s, p) {
      var i := s.procs[p].value;
      var t := s.trans[i];
      assert s.trans[i := t] == s.trans;
      CleanupFinishes(c, s, i, t);
      var g := t.(armed := false, delayedDelete := true);
      FinishedKeeps(c, s, i, g);
      DropProc(c, Finished(c, s, i, g), p);
    } else if p in s.procs {
      DropProc(c, s, p);
    }
  }

  lemma DropProc(c: Config, s: State, p: nat)
    requires Inv(c, s) && p in s.procs && s.procs[p] == None
    ensures Inv(c, s.(procs := s.procs - {p}))
  {
    var t := s.(procs := s.procs - {p});
    forall i | 0 <= i < |t.trans| && !t.trans[i].delayedDelete ensures InFlight(c, t, i) {
      assert InFlight(c, s, i);
    }
  }

  lemma ResponseFinishes(c: Config, s: State, n: Name)
    requires Inv(c, s) && n in s.table
    ensures var t := s.trans[s.table[n]];
            HandleResponse(s, n) == Finished(c, s, s.table[n], t.(successes := 1, armed := false, delayedDelete := true))
  {
    var i := s.table[n];
    var t := s.trans[i];
    assert InFlight(c, s, i) && Counted(c, t);
    var u := t.(successes := 1, armed := false, delayedDelete := true);
    assert s.trans[i := t.(successes := 1)][i := t.(successes := 1, armed := false)][i := u] == s.trans[i := u];
  }

  lemma ResponseKeeps(c: Config, s: State, n: Name)
    requires Inv(c, s)
    ensures Inv(c, HandleResponse(s, n))
  {
    if n in s.table {
      ResponseFinishes(c, s, n);
      var t := s.trans[s.table[n]];
      assert Counted(c, t);
      FinishedKeeps(c, s, s.table[n], t.(successes := 1, armed := false, delayedDelete := true));
    }
  }

  /** The record of an unfinished transaction may change as long as it stays unfinished. */
  lemma RecordKeeps(c: Config, s: State, i: nat, t: Trans)
    requires Inv(c, s) && i < |s.trans| && !s.trans[i].delayedDelete
    requires !t.delayedDelete && t.proc == s.trans[i].proc && OwnName(c, t) == OwnName(c, s.trans[i]) && Counted(c, t)
    ensures Inv(c, s.(trans := s.trans[i := t]))
  {
    var u := s.(trans := s.trans[i := t]);
    forall j | 0 <= j < |u.trans| && !u.trans[j].delayedDelete ensures InFlight(c, u, j) {
      assert InFlight(c, s, j);
    }
    assert Retired(u) == Retired(s);
  }

  /** A retry's outcome: one more transmission, or the failure that ends the procedure. */
  lemma RetryOutcome(c: Config, s: State, i: nat, restarted: bool)
    requires ValidConfig(c) && Inv(c, s) && i < |s.trans| && s.trans[i].self && !s.trans[i].delayedDelete
    ensures var t := s.trans[i];
            Retry(c, s, i, restarted) ==
              if t.itrCnt + 1 < c.requestTries
              then s.(trans := s.trans[i := t.(itrCnt := t.itrCnt + 1, sends := t.sends + 1, armed := restarted)])
              else
                var f := Finished(c, s, i, t.(itrCnt := t.itrCnt + 1, failures := 1, armed := false, delayedDelete := true));
                f.(procs := f.procs - {t.proc})
  {
    var t := s.trans[i];
    assert InFlight(c, s, i) && Counted(c, t);
    assert (t.itrCnt + 1) % 256 == t.itrCnt + 1;
    var u := t.(armed := false);
    var s1 := s.(trans := s.trans[i := u]);
    if t.itrCnt + 1 < c.requestTries {
      var v := t.(itrCnt := t.itrCnt + 1, sends := t.sends + 1, armed := restarted);
      assert s1.trans[i := v] == s.trans[i := v];
    } else {
      var v := u.(itrCnt := t.itrCnt + 1, failures := 1);
      assert s1.trans[i := v] == s.trans[i := v];
      CleanupFinishes(c, s, i, v);
    }
  }

  lemma LastRetryKeeps(c: Config, s: State, i: nat)
    requires Inv(c, s) && i < |s.trans| && s.trans[i].self && !s.trans[i].delayedDelete
    ensures var t := s.trans[i];
            var f := Finished(c, s, i, t.(itrCnt := t.itrCnt + 1, failures := 1, armed := false, delayedDelete := true));
            Inv(c, f.(procs := f.procs - {t.proc}))
  {
    var t := s.trans[i];
    assert Counted(c, t);
    var g := t.(itrCnt := t.itrCnt + 1, failures := 1, armed := false, delayedDelete := true);
    FinishedKeeps(c, s, i, g);
    DropProc(c, Finished(c, s, i, g), t.proc);
  }

  lemma RetryKeeps(c: Config, s: State, i: nat, restarted: bool)
    requires ValidConfig(c) && Inv(c, s) && i < |s.trans| && s.trans[i].self
    ensures Inv(c, Retry(c, s, i, restarted))
  {
    var t := s.trans[i];
    if !t.delayedDelete {
      RetryOutcome(c, s, i, restarted);
      if t.itrCnt + 1 < c.requestTries {
        assert Counted(c, t);
        RecordKeeps(c, s, i, t.(itrCnt := t.itrCnt + 1, sends := t.sends + 1, armed := restarted));
      } else {
        LastRetryKeeps(c, s, i);
      }
    }
  }

  lemma AddKeeps(c: Config, s: State, t: Trans)
    requires Inv(c, s) && !t.delayedDelete && Counted(c, t)
    requires OwnName(c, t) !in s.table && (t.proc in s.procs ==> s.procs[t.proc] == None)
    ensures Inv(c, Add(c, s, t))
  {
    var u := Add(c, s, t);
    forall i | 0 <= i < |u.trans| && !u.trans[i].delayedDelete ensures InFlight(c, u, i) {
      if i < |s.trans| {
        assert u.trans[i] == s.trans[i];
        assert InFlight(c, s, i);
      }
    }
    assert Retired(u) == Retired(s);
    assert forall i: nat :: i in Retired(s) ==> i < |s.trans|;
  }

  /** When a procedure may send: it waits for no other answer and the sequence number is not in flight. */
  predicate MaySend(c: Config, s: State, step: Step) {
    step.Send? && step.proc in s.procs ==>
      s.procs[step.proc] == None && Name(c.address, c.port, step.sequence) !in s.table
  }

  /** A send keeps the invariant exactly then. */
  lemma SendExactly(c: Config, s: State, step: Step)
    requires ValidConfig(c) && Inv(c, s) && step.Send?
    ensures Inv(c, Next(c, s, step)) <==> MaySend(c, s, step)
  {
    if step.proc in s.procs {
      var t := Trans(true, step.peerAddress, step.peerPort, step.sequence, step.proc, 0, true, false, 1, 0, 0);
      var u := Next(c, s, step);
      if MaySend(c, s, step) {
        AddKeeps(c, s, t);
      } else if s.procs[step.proc] != None {
        var i := s.procs[step.proc].value;
        assert u.trans[i] == s.trans[i] && !InFlight(c, u, i);
      } else {
        assert u.trans[|s.trans|] == t && !InFlight(c, u, |s.trans|);
      }
    }
  }

  lemma BeginKeeps(c: Config, s: State, p: nat)
    requires Inv(c, s) && p !in s.procs
    ensures Inv(c, s.(procs := s.procs[p := None]))
  {
    var t := s.(procs := s.procs[p := None]);
    forall i | 0 <= i < |t.trans| && !t.trans[i].delayedDelete ensures InFlight(c, t, i) {
      assert InFlight(c, s, i);
    }
    assert Retired(t) == Retired(s);
  }

  lemma ReapKeeps(c: Config, s: State)
    requires Inv(c, s)
    ensures Inv(c, Next(c, s, Reap))
  {
    var t := Next(c, s, Reap);
    assert Retired(t) == Retired(s);
    forall i | 0 <= i < |t.trans| && !t.trans[i].delayedDelete ensures InFlight(c, t, i) {
      assert InFlight(c, s, i);
    }
  }

  lemma NextKeeps(c: Config, s: State, step: Step)
    requires ValidConfig(c) && Inv(c, s) && MaySend(c, s, step)
    ensures Inv(c, Next(c, s, step))
  {
    match step
    case Begin(p) => if p !in s.procs { BeginKeeps(c, s, p); }
    case Send(_, _, _, _) => SendExactly(c, s, step);
    case Report(p, address, port, sequence) =>
      if p !in s.procs && Name(address, port, sequence) !in s.table {
        AddKeeps(c, s, Trans(false, address, port, sequence, p, 0, false, false, 0, 0, 0));
      }
    case Response(sequence) => ResponseKeeps(c, s, Name(c.address, c.port, sequence));
    case Expire(i, restarted) => if i < |s.trans| && s.trans[i].self { RetryKeeps(c, s, i, restarted); }
    case EndProcedure(p) => EndKeeps(c, s, p);
    case Reap => ReapKeeps(c, s);
  }

  const EMPTY := State(map[], [], map[], [], [], false)

  /** Runs in which every request gets a sequence number not in flight, from a procedure that awaits no answer. */
  predicate FreshRun(c: Config, s: State, steps: seq<Step>)
    decreases |steps|
  {
    steps == [] || (MaySend(c, s, steps[0]) && FreshRun(c, Next(c, s, steps[0]), steps[1..]))
  }

  lemma {:induction false} RunKeeps(c: Config, s: State, steps: seq<Step>)
    requires ValidConfig(c) && Inv(c, s) && FreshRun(c, s, steps)
    ensures Inv(c, Run(c, s, steps))
    decreases |steps|
  {
    if steps != [] {
      NextKeeps(c, s, steps[0]);
      RunKeeps(c, Next(c, s, steps[0]), steps[1..]);
    }
  }

  // ------------------------------------------------------------------ what every run gives

  /**
   At most max(1, request_tries) transmissions and at most one outcome, after which no timer runs; no assertion fails and no
   freed procedure is used.
   */
  lemma OutcomesBounded(c: Config, steps: seq<Step>, i: nat)
    requires ValidConfig(c) && FreshRun(c, EMPTY, steps) && i < |Run(c, EMPTY, steps).trans|
    ensures var s := Run(c, EMPTY, steps);
            && !s.fault
            && s.trans[i].sends <= Tries(c) && s.trans[i].successes + s.trans[i].failures <= 1
            && (s.trans[i].successes + s.trans[i].failures == 1 ==> s.trans[i].delayedDelete && !s.trans[i].armed)
  {
    RunKeeps(c, EMPTY, steps);
    assert Counted(c, Run(c, EMPTY, steps).trans[i]);
  }

  /** Every finished transaction is queued for freeing once, freed after it was queued, and never again. */
  lemma FreedOnce(c: Config, steps: seq<Step>, i: nat)
    requires ValidConfig(c) && FreshRun(c, EMPTY, steps)
    ensures var s := Run(c, EMPTY, steps);
            && multiset(s.freed + s.queue)[i] == (if i < |s.trans| && s.trans[i].delayedDelete then 1 else 0)
            && (i in s.freed ==> !exists n :: n in s.table && s.table[n] == i)
            && (i in s.freed ==> !exists p :: p in s.procs && s.procs[p] == Some(i))
  {
    RunKeeps(c, EMPTY, steps);
    var s := Run(c, EMPTY, steps);
    NoDupCount(Retired(s), i);
    if i in s.freed {
      assert i in Retired(s);
    }
  }

  /** A report of a new name is taken: it has a table entry, and a procedure of its own that points to it. */
  lemma ReportTaken(c: Config, s: State, p: nat, address: nat, port: nat, sequence: nat)
    requires p !in s.procs
    ensures var n, t := Name(address, port, sequence), Next(c, s, Report(p, address, port, sequence));
            if n in s.table then t == s
            else n in t.table && t.table[n] == |s.trans| && t.procs == s.procs[p := Some(|s.trans|)] && |t.trans| == |s.trans| + 1
  {}

  /** As many rounds of the freeing thread as blocks are queued free them all, in order. */
  lemma {:induction false} ReapAll(c: Config, s: State)
    ensures Run(c, s, seq(|s.queue|, _ => Reap)) == s.(queue := [], freed := s.freed + s.queue)
    decreases |s.queue|
  {
    if s.queue == [] {
      assert s.freed + [] == s.freed;
    } else {
      var t := Next(c, s, Reap);
      assert seq(|s.queue|, _ => Reap)[1..] == seq(|t.queue|, _ => Reap);
      ReapAll(c, t);
      assert t.freed + t.queue == s.freed + s.queue;
    }
  }

  /** A step faults exactly on a dangling link or, in a clean-up, on an entry that is not the transaction's own. */
  lemma FaultExactly(c: Config, s: State, i: nat, p: nat, restarted: bool)
    requires i < |s.trans| && !s.fault
    ensures var n := OwnName(c, s.trans[i]);
            Cleanup(c, s, i).fault <==> s.trans[i].proc !in s.procs || (n in s.table && s.table[n] != i)
    ensures !Linked(s, p) ==> HandleTimeout(c, s, p, restarted).fault
  {}

  /** What a transaction is about. */
  predicate SameRequest(t: Trans, u: Trans) {
    t.self == u.self && t.peerAddress == u.peerAddress && t.peerPort == u.peerPort && t.sequence == u.sequence && t.proc == u.proc
  }

  /** A send makes a record of the request to that peer, sent once, with its timer running and found by its answer's name. */
  lemma SendRecords(c: Config, s: State, p: nat, address: nat, port: nat, sequence: nat)
    requires p in s.procs && Name(c.address, c.port, sequence) !in s.table
    ensures var t, i := Next(c, s, Send(p, address, port, sequence)), |s.trans|;
            && |t.trans| == i + 1 && t.trans[..i] == s.trans
            && SameRequest(t.trans[i], Trans(true, address, port, sequence, p, 0, true, false, 1, 0, 0))
            && t.trans[i].armed && t.trans[i].sends == 1 && t.trans[i].itrCnt == 0 && !t.trans[i].delayedDelete
            && t.table == s.table[Name(c.address, c.port, sequence) := i] && t.procs == s.procs[p := Some(i)]
  {}

  predicate SameRequests(s: State, t: State) {
    |s.trans| <= |t.trans| && forall i :: 0 <= i < |s.trans| ==> SameRequest(t.trans[i], s.trans[i])
  }

  lemma ReleaseSame(s: State, i: nat)
    requires i < |s.trans|
    ensures SameRequests(s, Release(s, i))
  {}

  lemma EndSame(c: Config, s: State, p: nat)
    ensures SameRequests(s, End(c, s, p))
  {
    if Linked(s, p) {
      var i := s.procs[p].value;
      var n := OwnName(c, s.trans[i]);
      ReleaseSame(s.(table := s.table - {n}, fault := s.fault || (n in s.table && s.table[n] != i)), i);
    }
  }

  lemma SetSame(s: State, i: nat, t: Trans)
    requires i < |s.trans| && SameRequest(t, s.trans[i])
    ensures SameRequests(s, SetTrans(s, i, t))
  {}

  lemma TimeoutSame(c: Config, s: State, p: nat, restarted: bool)
    ensures SameRequests(s, HandleTimeout(c, s, p, restarted))
  {
    if Linked(s, p) {
      var i := s.procs[p].value;
      var u := CountUp(s.trans[i]);
      var failed := u.(failures := u.failures + 1);
      SetSame(s, i, u.(sends := u.sends + 1, armed := restarted));
      SetSame(s, i, failed);
      EndSame(c, SetTrans(s, i, failed), p);
      SameThen(s, SetTrans(s, i, failed), End(c, SetTrans(s, i, failed), p));
    }
  }

  lemma SameThen(s: State, t: State, u: State)
    requires SameRequests(s, t) && SameRequests(t, u)
    ensures SameRequests(s, u)
  {
    forall i | 0 <= i < |s.trans| ensures SameRequest(u.trans[i], s.trans[i]) {
      assert SameRequest(t.trans[i], s.trans[i]) && SameRequest(u.trans[i], t.trans[i]);
    }
  }

  lemma RetrySame(c: Config, s: State, i: nat, restarted: bool)
    requires i < |s.trans|
    ensures SameRequests(s, Retry(c, s, i, restarted))
  {
    var stopped := s.trans[i].(armed := false);
    SetSame(s, i, stopped);
    TimeoutSame(c, SetTrans(s, i, stopped), stopped.proc, restarted);
    SameThen(s, SetTrans(s, i, stopped), HandleTimeout(c, SetTrans(s, i, stopped), stopped.proc, restarted));
  }

  /** No step ever changes what a transaction is about: retransmissions go to the peer it was sent to. */
  lemma RequestsKept(c: Config, s: State, step: Step)
    ensures SameRequests(s, Next(c, s, step))
  {
    match step
    case Response(sequence) =>
      var n := Name(c.address, c.port, sequence);
      if n in s.table && s.table[n] < |s.trans| {
        var i := s.table[n];
        ReleaseSame(SetTrans(s.(table := s.table - {n}), i, s.trans[i].(successes := s.trans[i].successes + 1)), i);
      }
    case Expire(i, restarted) => if i < |s.trans| { RetrySame(c, s, i, restarted); }
    case EndProcedure(p) => EndSame(c, s, p);
    case _ =>
  }

  /** The end of a procedure takes it away and finishes the transaction it points to. */
  lemma EndTakesAway(c: Config, s: State, p: nat)
    requires Inv(c, s) && p in s.procs
    ensures var t := Next(c, s, EndProcedure(p));
            && t.procs == s.procs - {p}
            && (s.procs[p] == None ==> t == s.(procs := s.procs - {p}))
            && (s.procs[p].Some? ==>
                  var i := s.procs[p].value;
                  t.trans[i].delayedDelete && !t.trans[i].armed && t.queue == s.queue + [i] && t.table == s.table - {OwnName(c, s.trans[i])})
  {
    if s.procs[p].Some? {
      var i := s.procs[p].value;
      assert s.trans[i := s.trans[i]] == s.trans;
      CleanupFinishes(c, s, i, s.trans[i]);
    }
  }

  /** Every unfinished request of the gateway's own has its timer running. */
  predicate Timed(s: State) {
    forall i :: 0 <= i < |s.trans| && s.trans[i].self && !s.trans[i].delayedDelete ==> s.trans[i].armed
  }

  lemma TimedStep(c: Config, s: State, step: Step)
    requires ValidConfig(c) && Inv(c, s) && Timed(s) && (step.Expire? ==> step.restarted)
    ensures Timed(Next(c, s, step))
  {
    match step
    case Response(sequence) =>
      var n := Name(c.address, c.port, sequence);
      if n in s.table { ResponseFinishes(c, s, n); }
    case Expire(j, restarted) =>
      if j < |s.trans| && s.trans[j].self && !s.trans[j].delayedDelete { RetryOutcome(c, s, j, restarted); }
    case EndProcedure(p) =>
      if Linked(s, p) {
        var j := s.procs[p].value;
        assert s.trans[j := s.trans[j]] == s.trans;
        CleanupFinishes(c, s, j, s.trans[j]);
      }
    case _ =>
  }

  /** So it has in every run whose timer restarts succeed: no request is left without an answer, a time-out or an end. */
  lemma {:induction false} AlwaysTimed(c: Config, s: State, steps: seq<Step>)
    requires ValidConfig(c) && Inv(c, s) && Timed(s) && FreshRun(c, s, steps)
    requires forall i :: 0 <= i < |steps| && steps[i].Expire? ==> steps[i].restarted
    ensures Timed(Run(c, s, steps))
    decreases |steps|
  {
    if steps != [] {
      NextKeeps(c, s, steps[0]);
      TimedStep(c, s, steps[0]);
      AlwaysTimed(c, Next(c, s, steps[0]), steps[1..]);
    }
  }

  /** Transaction i is finished, with record t. */
  predicate Done(s: State, i: nat, t: Trans) {
    i < |s.trans| && s.trans[i] == t && t.delayedDelete
  }

  /** A finished transaction's record never changes again: a late timer or answer does nothing to it. */
  lemma DoneIsFinal(c: Config, s: State, step: Step, i: nat, t: Trans)
    requires ValidConfig(c) && Inv(c, s) && Done(s, i, t)
    ensures Done(Next(c, s, step), i, t)
  {
    match step
    case Response(sequence) =>
      var n := Name(c.address, c.port, sequence);
      if n in s.table { ResponseFinishes(c, s, n); }
    case Expire(j, restarted) =>
      if j < |s.trans| && s.trans[j].self && !s.trans[j].delayedDelete { RetryOutcome(c, s, j, restarted); }
    case EndProcedure(p) =>
      if Linked(s, p) {
        var j := s.procs[p].value;
        assert s.trans[j := s.trans[j]] == s.trans;
        CleanupFinishes(c, s, j, s.trans[j]);
      }
    case _ =>
  }

  lemma {:induction false} DoneStaysDone(c: Config, s: State, steps: seq<Step>, i: nat, t: Trans)
    requires ValidConfig(c) && Inv(c, s) && FreshRun(c, s, steps) && Done(s, i, t)
    ensures Done(Run(c, s, steps), i, t)
    decreases |steps|
  {
    if steps != [] {
      NextKeeps(c, s, steps[0]);
      DoneIsFinal(c, s, steps[0], i, t);
      DoneStaysDone(c, Next(c, s, steps[0]), steps[1..], i, t);
    }
  }

  /** An expiry that finds transaction i unfinished. */
  predicate LiveExpiry(s: State, step: Step, i: nat) {
    step.Expire? && step.trans == i && i < |s.trans| && s.trans[i].self && !s.trans[i].delayedDelete
  }

  function LiveExpiries(c: Config, s: State, steps: seq<Step>, i: nat): nat
    decreases |steps|
  {
    if steps == [] then 0 else
    (if LiveExpiry(s, steps[0], i) then 1 else 0) + LiveExpiries(c, Next(c, s, steps[0]), steps[1..], i)
  }

  function Counter(s: State, i: nat): nat {
    if i < |s.trans| then s.trans[i].itrCnt else 0
  }

  lemma CounterCounts(c: Config, s: State, step: Step, i: nat)
    requires ValidConfig(c) && Inv(c, s)
    ensures Counter(Next(c, s, step), i) == Counter(s, i) + if LiveExpiry(s, step, i) then 1 else 0
  {
    match step
    case Expire(j, restarted) =>
      if j < |s.trans| && s.trans[j].self && !s.trans[j].delayedDelete {
        assert j !in Retired(s);
        RetryOutcome(c, s, j, restarted);
      }
    case _ =>
  }

  lemma {:induction false} CounterCountsRun(c: Config, s: State, steps: seq<Step>, i: nat)
    requires ValidConfig(c) && Inv(c, s) && FreshRun(c, s, steps)
    ensures Counter(Run(c, s, steps), i) == Counter(s, i) + LiveExpiries(c, s, steps, i)
    decreases |steps|
  {
    if steps != [] {
      NextKeeps(c, s, steps[0]);
      CounterCounts(c, s, steps[0], i);
      CounterCountsRun(c, Next(c, s, steps[0]), steps[1..], i);
    }
  }

  /** The eight-bit counter counts the live expiries without wrapping, so there are at most max(1, request_tries). */
  lemma ExpiriesBounded(c: Config, steps: seq<Step>, i: nat)
    requires ValidConfig(c) && FreshRun(c, EMPTY, steps)
    ensures LiveExpiries(c, EMPTY, steps, i) == Counter(Run(c, EMPTY, steps), i) <= Tries(c) <= 255
  {
    RunKeeps(c, EMPTY, steps);
    CounterCountsRun(c, EMPTY, steps, i);
    var s := Run(c, EMPTY, steps);
    assert i < |s.trans| ==> Counted(c, s.trans[i]);
  }

  /** Cleaning up again queues nothing, and while the name is not taken anew it changes nothing else either. */
  lemma CleanupTwice(c: Config, s: State, i: nat)
    requires i < |s.trans| && s.trans[i].proc in s.procs
    ensures Cleanup(c, Cleanup(c, s, i), i) == Cleanup(c, s, i)
  {
    var t := Cleanup(c, s, i);
    assert t.trans[i := t.trans[i].(armed := false)] == t.trans;
    assert t.table - {OwnName(c, t.trans[i])} == t.table;
    assert t.procs[s.trans[i].proc := None] == t.procs;
  }

  /** With a sequence number that is still in flight, the second request's clean-up meets the first one's entry. */
  lemma ReusedSequenceFaults(c: Config, seqNo: nat)
    requires ValidConfig(c)
    ensures var steps := [Begin(0), Begin(1), Send(0, 9, 9, seqNo), Send(1, 9, 9, seqNo), EndProcedure(1)];
            Run(c, EMPTY, steps).fault
  {
    var steps := [Begin(0), Begin(1), Send(0, 9, 9, seqNo), Send(1, 9, 9, seqNo), EndProcedure(1)];
    var s1 := Next(c, EMPTY, Begin(0));
    var s2 := Next(c, s1, Begin(1));
    var s3 := Next(c, s2, steps[2]);
    var s4 := Next(c, s3, steps[3]);
    var n := Name(c.address, c.port, seqNo);
    assert s4.table[n] == 0 && s4.procs[1] == Some(1) && |s4.trans| == 2;
    assert Next(c, s4, steps[4]).fault;
    assert Run(c, s4, steps[4..]) == Next(c, s4, steps[4]);
    assert Run(c, s3, steps[3..]) == Run(c, s4, steps[4..]);
    assert Run(c, s2, steps[2..]) == Run(c, s3, steps[3..]);
    assert Run(c, s1, steps[1..]) == Run(c, s2, steps[2..]);
  }

  // ------------------------------------------------------------------ the running gateway

  /** Transactions, procedures' links and the freeing queue, updated in place; a transaction is named by its position. */
  class TransactionKeeper {
    const config: Config
    const tables: SpgwTables
    var trans: seq<Trans>
    var procs: map<nat, Option<nat>>
    var queue: seq<nat>
    ghost var freed: seq<nat>
    ghost var fault: bool

    constructor (config: Config)
      ensures Valid() && fresh(tables) && Value() == EMPTY && this.config == config
    {
      this.config := config;
      tables := new SpgwTables();
      trans, procs, queue, freed, fault := [], map[], [], [], false;
    }

    ghost predicate Valid()
      reads this, tables
    {
      && tables.Valid()
      && (forall n :: n in tables.contents ==> tables.contents[n] < |trans|)
      && (forall p :: p in procs && procs[p].Some? ==> procs[p].value < |trans|)
    }

    ghost function Value(): State
      reads this, tables
    {
      State(tables.contents, trans, procs, queue, freed, fault)
    }

    method AddTransaction(t: Trans)
      requires Valid()
      modifies this, tables
      ensures Valid() && Value() == Add(config, old(Value()), t)
    {
      tables.AddTrans(OwnName(config, t), |trans|);
      procs := procs[t.proc := Some(|trans|)];
      trans := trans + [t];
    }

    method SendRequest(p: nat, address: nat, port: nat, sequence: nat)
      requires Valid() && p in procs
      modifies this, tables
      ensures Valid() && Value() == Next(config, old(Value()), Send(p, address, port, sequence))
    {
      AddTransaction(Trans(true, address, port, sequence, p, 0, true, false, 1, 0, 0));
    }

    /** A retransmitted report is dropped. */
    method HandleReport(p: nat, address: nat, port: nat, sequence: nat) returns (accepted: bool)
      requires Valid() && p !in procs
      modifies this, tables
      ensures Valid() && Value() == Next(config, old(Value()), Report(p, address, port, sequence))
      ensures accepted <==> Name(address, port, sequence) !in old(tables.contents)
      ensures |trans| == if accepted then |old(trans)| + 1 else |old(trans)|
    {
      var earlier := tables.FindTrans(Name(address, port, sequence));
      if earlier.Some? {
        return false;
      }
      AddTransaction(Trans(false, address, port, sequence, p, 0, false, false, 0, 0, 0));
      return true;
    }

    /** delayed_free. */
    method FreeLater(i: nat)
      requires Valid() && i < |trans|
      modifies this`trans, this`queue
      ensures Valid() && Value() == DelayedFree(old(Value()), i)
    {
      if trans[i].delayedDelete {
        return;
      }
      trans := trans[i := trans[i].(delayedDelete := true)];
      queue := queue + [i];
    }

    method StopAndRelease(i: nat)
      requires Valid() && i < |trans|
      modifies this`trans, this`queue, this`procs, this`fault
      ensures Valid() && Value() == Release(old(Value()), i)
    {
      var p := trans[i].proc;
      trans := trans[i := trans[i].(armed := false)];
      FreeLater(i);
      if p in procs {
        procs := procs[p := None];
      } else {
        fault := true;
      }
    }

    method CleanupPfcpTrans(i: nat)
      requires Valid() && i < |trans|
      modifies this, tables
      ensures Valid() && Value() == Cleanup(config, old(Value()), i)
    {
      var found := tables.DeleteTrans(OwnName(config, trans[i]));
      fault := fault || (found.Some? && found.value != i);
      StopAndRelease(i);
    }

    /** The transaction part of end_procedure. */
    method Finish(p: nat)
      requires Valid() && p in procs
      modifies this, tables
      ensures Valid() && Value() == End(config, old(Value()), p)
    {
      if procs[p].Some? {
        CleanupPfcpTrans(procs[p].value);
      }
      procs := procs - {p};
    }

    method ReceiveResponse(sequence: nat) returns (found: bool)
      requires Valid()
      modifies this, tables
      ensures Valid() && Value() == HandleResponse(old(Value()), Name(config.address, config.port, sequence))
      ensures found <==> Name(config.address, config.port, sequence) in old(tables.contents)
    {
      var i := tables.DeleteTrans(Name(config.address, config.port, sequence));
      if i == None {
        assert tables.contents == old(tables.contents);
        return false;
      }
      UpdateAndRelease(i.value, trans[i.value].(successes := trans[i.value].successes + 1));
      return true;
    }

    method UpdateAndRelease(i: nat, t: Trans)
      requires Valid() && i < |trans|
      modifies this`trans, this`queue, this`procs, this`fault
      ensures Valid() && Value() == Release(SetTrans(old(Value()), i, t), i)
    {
      Update(i, t);
      StopAndRelease(i);
    }

    method Update(i: nat, t: Trans)
      requires Valid() && i < |trans|
      modifies this`trans
      ensures Valid() && Value() == SetTrans(old(Value()), i, t)
    {
      trans := trans[i := t];
    }

    method TimeoutHandler(p: nat, restarted: bool)
      requires Valid()
      modifies this, tables
      ensures Valid() && Value() == HandleTimeout(config, old(Value()), p, restarted)
    {
      if p !in procs || procs[p] == None {
        fault := true;
      } else {
        var i := procs[p].value;
        var t := CountUp(trans[i]);
        if t.itrCnt < config.requestTries {
          Update(i, t.(sends := t.sends + 1, armed := restarted));
        } else {
          UpdateAndFinish(p, i, t.(failures := t.failures + 1));
        }
      }
    }

    method UpdateAndFinish(p: nat, i: nat, t: Trans)
      requires Valid() && p in procs && i < |trans|
      modifies this, tables
      ensures Valid() && Value() == End(config, SetTrans(old(Value()), i, t), p)
    {
      Update(i, t);
      Finish(p);
    }

    method RetryCallback(i: nat, restarted: bool)
      requires Valid() && i < |trans|
      modifies this, tables
      ensures Valid() && Value() == Retry(config, old(Value()), i, restarted)
    {
      if trans[i].delayedDelete {
        return;
      }
      Update(i, trans[i].(armed := false));
      TimeoutHandler(trans[i].proc, restarted);
    }

    /** One block for the freeing thread. */
    method ReapOne() returns (block: Option<nat>)
      requires Valid()
      modifies this`queue, this`freed
      ensures Valid() && Value() == Next(config, old(Value()), Reap)
      ensures block == None <==> old(queue) == []
      ensures block.Some? ==> [block.value] + queue == old(queue)
    {
      if queue == [] {
        return None;
      }
      block := Some(queue[0]);
      freed := freed + [queue[0]];
      queue := queue[1..];
    }
  }
}
