/**
 Binding policy rules to bearers: the pass that drains a PDN's pending rules into a session modification
 (cp/procedures/proc_bearer_create.c, cp/pdn.c). A bearer serves one class of QCI and ARP.
 */
module Bearers {
  import opened Basics


  /** QCI and the three ARP fields. */
  datatype Class = Class(qci: nat, vulnerability: nat, level: nat, capability: nat)

  datatype Action = Add | Modify | Other

  datatype PccRule = PccRule(action: Action, id: nat, class_: Class)

  /** A packet detection rule, by the policy rule it was made for and its source interface, 0 or 1. */
  datatype Pdr = Pdr(rule: nat, interface: nat)

  datatype Bearer = Bearer(class_: Class, rules: seq<nat>, pdrs: seq<Pdr>)

  const MAX_BEARERS := 15
  const MAX_RULES := 16
  const MAX_PDRS := 16

  /** pdr_t *pdr[2] of a rule, from which the message is filled once per packet detection rule of the bearer. */
  const PDRS_PER_RULE := 2

  datatype Pdn = Pdn(bearers: seq<Option<Bearer>>, numBearer: nat, pending: seq<PccRule>)

  /** How the pass ends: list drained, given up at a rule, assertion on a second new bearer, or past the end of an array. */
  datatype Outcome = Drained(pdn: Pdn) | GivenUp(pdn: Pdn) | SecondBearer | OutOfBounds

  /** The arrays' sizes, and one bearer per class. */
  ghost predicate Valid(p: Pdn) {
    && |p.bearers| == MAX_BEARERS
    && (forall i :: 0 <= i < MAX_BEARERS && p.bearers[i].Some? ==>
          |p.bearers[i].value.rules| <= MAX_RULES && |p.bearers[i].value.pdrs| <= MAX_PDRS)
    && (forall i, j :: 0 <= i < j < MAX_BEARERS && p.bearers[i].Some? && p.bearers[j].Some? ==>
          p.bearers[i].value.class_ != p.bearers[j].value.class_)
  }

  predicate Serves(b: Option<Bearer>, c: Class) {
    b.Some? && b.value.class_ == c
  }

  /** get_bearer: the first bearer of a class. */
  function Find(bearers: seq<Option<Bearer>>, c: Class): (r: Option<nat>)
    ensures r.Some? ==> r.value < |bearers| && Serves(bearers[r.value], c)
    ensures r == None ==> forall i :: 0 <= i < |bearers| ==> !Serves(bearers[i], c)
  {
    if bearers == [] then None
    else if Serves(bearers[0], c) then Some(0)
    else
      var r := Find(bearers[1..], c);
      if r == None then None else Some(r.value + 1)
  }

  /** The rule's entry and its two packet detection rules. */
  function Bind(b: Bearer, id: nat): Bearer {
    b.(rules := b.rules + [id], pdrs := b.pdrs + [Pdr(id, 0), Pdr(id, 1)])
  }

  /**
   Room for one more rule when `cap` packet detection rules may be read. After a bind the message is filled by a loop over
   all packet detection rules of the bearer that reads the two of the rule, so the code has a cap of PDRS_PER_RULE;
   without that loop the bearer's own array gives a cap of MAX_PDRS.
   */
  predicate Room(b: Bearer, cap: nat) {
    |b.rules| < MAX_RULES && |b.pdrs| + 2 <= cap
  }

  function BindAt(p: Pdn, i: nat, id: nat): Pdn
    requires i < |p.bearers| && p.bearers[i].Some?
  {
    p.(bearers := p.bearers[i := Some(Bind(p.bearers[i].value, id))], pending := if p.pending == [] then [] else p.pending[1..])
  }

  predicate ValidCap(cap: nat) {
    PDRS_PER_RULE <= cap <= MAX_PDRS
  }

  /** A new bearer goes to the slot num_bearer counts to. */
  function Open(p: Pdn, c: Class): Pdn
    requires p.numBearer < |p.bearers|
  {
    p.(bearers := p.bearers[p.numBearer := Some(Bearer(c, [], []))], numBearer := p.numBearer + 1)
  }

  /** The pass; `made` tells whether it has made a bearer yet. The code's pass has cap PDRS_PER_RULE. */
  function Drain(p: Pdn, made: bool, cap: nat): Outcome
    requires |p.bearers| == MAX_BEARERS
    decreases |p.pending|
  {
    if p.pending == [] then Drained(p)
    else
      var r := p.pending[0];
      var at := Find(p.bearers, r.class_);
      match r.action
      case Add =>
        if at.Some? then
          if Room(p.bearers[at.value].value, cap) then Drain(BindAt(p, at.value, r.id), made, cap) else OutOfBounds
        else if made then SecondBearer
        else if p.numBearer >= MAX_BEARERS then OutOfBounds
        else Drain(BindAt(Open(p, r.class_), p.numBearer, r.id), true, cap)
      case Modify => if at == None then GivenUp(p) else Drain(p.(pending := p.pending[1..]), made, cap)
      case Other => Drain(p.(pending := p.pending[1..]), made, cap)
  }

  // ------------------------------------------------------------------ what the pass computes

  predicate AllAdd(rules: seq<PccRule>) {
    forall i :: 0 <= i < |rules| ==> rules[i].action == Add
  }

  /** The pending rules of a class, in order. */
  function OfClass(rules: seq<PccRule>, c: Class): seq<nat> {
    if rules == [] then []
    else if rules[0].class_ == c then [rules[0].id] + OfClass(rules[1..], c)
    else OfClass(rules[1..], c)
  }

  /** Two packet detection rules for each rule. */
  function Pairs(ids: seq<nat>): (r: seq<Pdr>)
    ensures |r| == 2 * |ids|
  {
    if ids == [] then [] else [Pdr(ids[0], 0), Pdr(ids[0], 1)] + Pairs(ids[1..])
  }

  function BindAll(b: Bearer, ids: seq<nat>): Bearer {
    b.(rules := b.rules + ids, pdrs := b.pdrs + Pairs(ids))
  }

  predicate Holds(b: Bearer, ids: seq<nat>, cap: nat) {
    ids == [] || (|b.rules| + |ids| <= MAX_RULES && |b.pdrs| + 2 * |ids| <= cap)
  }

  /** The first class among the rules that no bearer serves. */
  function NewClass(bearers: seq<Option<Bearer>>, rules: seq<PccRule>): (r: Option<Class>)
    ensures r == None <==> forall i :: 0 <= i < |rules| ==> Find(bearers, rules[i].class_).Some?
    ensures r.Some? ==> Find(bearers, r.value) == None
  {
    if rules == [] then None
    else if Find(bearers, rules[0].class_) == None then Some(rules[0].class_)
    else NewClass(bearers, rules[1..])
  }

  predicate SlotHolds(p: Pdn, i: nat, cap: nat)
    requires i < |p.bearers|
  {
    p.bearers[i].Some? ==> Holds(p.bearers[i].value, OfClass(p.pending, p.bearers[i].value.class_), cap)
  }

  ghost predicate SlotsHold(p: Pdn, cap: nat)
    requires |p.bearers| == MAX_BEARERS
  {
    forall i: nat :: i < MAX_BEARERS ==> SlotHolds(p, i, cap)
  }

  /** What a caller can check: at most one new class, a slot for it, and room for every rule. */
  ghost predicate Fits(p: Pdn, made: bool, cap: nat)
    requires |p.bearers| == MAX_BEARERS
  {
    var c := NewClass(p.bearers, p.pending);
    && SlotsHold(p, cap)
    && (c.Some? ==>
          && !made && p.numBearer < MAX_BEARERS
          && Holds(Bearer(c.value, [], []), OfClass(p.pending, c.value), cap)
          && forall i :: 0 <= i < |p.pending| ==> p.pending[i].class_ == c.value || Find(p.bearers, p.pending[i].class_).Some?)
  }

  /** Slot i in the end: each bearer gets the rules of its class, and the new class a bearer of its own. */
  function FinalSlot(p: Pdn, i: nat): Option<Bearer>
    requires i < |p.bearers|
  {
    var c := NewClass(p.bearers, p.pending);
    if p.bearers[i].Some? then Some(BindAll(p.bearers[i].value, OfClass(p.pending, p.bearers[i].value.class_)))
    else if c.Some? && i == p.numBearer then Some(BindAll(Bearer(c.value, [], []), OfClass(p.pending, c.value)))
    else None
  }

  function Final(p: Pdn): Pdn
    requires |p.bearers| == MAX_BEARERS
  {
    Pdn(seq(MAX_BEARERS, i requires 0 <= i < MAX_BEARERS => FinalSlot(p, i)),
        p.numBearer + (if NewClass(p.bearers, p.pending).Some? then 1 else 0),
        [])
  }

  ghost predicate SlotFree(p: Pdn) {
    |p.bearers| == MAX_BEARERS && (p.numBearer < MAX_BEARERS ==> p.bearers[p.numBearer] == None)
  }

  // ------------------------------------------------------------------ lemmas about one step

  predicate SameClass(a: Option<Bearer>, b: Option<Bearer>) {
    a.Some? == b.Some? && (a.Some? ==> a.value.class_ == b.value.class_)
  }

  lemma {:induction false} FindSame(a: seq<Option<Bearer>>, b: seq<Option<Bearer>>, c: Class)
    requires |a| == |b| && forall i :: 0 <= i < |a| ==> SameClass(a[i], b[i])
    ensures Find(a, c) == Find(b, c)
  {
    if a != [] {
      assert SameClass(a[0], b[0]);
      forall i | 0 <= i < |a| - 1 ensures SameClass(a[1..][i], b[1..][i]) {
        assert SameClass(a[i + 1], b[i + 1]);
      }
      FindSame(a[1..], b[1..], c);
    }
  }

  lemma FindUnique(p: Pdn, i: nat, c: Class)
    requires Valid(p) && i < MAX_BEARERS && Serves(p.bearers[i], c)
    ensures Find(p.bearers, c) == Some(i)
  {
    var r := Find(p.bearers, c);
    assert r.Some? && Serves(p.bearers[r.value], c);
  }

  lemma {:induction false} NewClassSame(a: seq<Option<Bearer>>, b: seq<Option<Bearer>>, rules: seq<PccRule>)
    requires |a| == |b| && forall i :: 0 <= i < |a| ==> SameClass(a[i], b[i])
    ensures NewClass(a, rules) == NewClass(b, rules)
  {
    if rules != [] {
      FindSame(a, b, rules[0].class_);
      NewClassSame(a, b, rules[1..]);
    }
  }

  lemma BindAllStep(b: Bearer, id: nat, ids: seq<nat>, cap: nat)
    ensures BindAll(b, [id] + ids) == BindAll(Bind(b, id), ids)
    ensures Holds(b, [id] + ids, cap) ==> Room(b, cap)
    ensures Room(b, cap) ==> (Holds(b, [id] + ids, cap) <==> Holds(Bind(b, id), ids, cap))
  {
    assert ([id] + ids)[1..] == ids;
    assert b.rules + ([id] + ids) == (b.rules + [id]) + ids;
    var two := [Pdr(id, 0), Pdr(id, 1)];
    assert Pairs([id] + ids) == two + Pairs(ids);
    assert b.pdrs + (two + Pairs(ids)) == (b.pdrs + two) + Pairs(ids);
  }

  /** The bearers' classes do not change when a rule is bound. */
  lemma BindAtClasses(p: Pdn, i: nat, id: nat)
    requires i < |p.bearers| && p.bearers[i].Some?
    ensures forall j :: 0 <= j < |p.bearers| ==> SameClass(p.bearers[j], BindAt(p, i, id).bearers[j])
    ensures forall c :: Find(p.bearers, c) == Find(BindAt(p, i, id).bearers, c)
    ensures forall rules :: NewClass(p.bearers, rules) == NewClass(BindAt(p, i, id).bearers, rules)
  {
    var q := BindAt(p, i, id);
    forall c ensures Find(p.bearers, c) == Find(q.bearers, c) {
      FindSame(p.bearers, q.bearers, c);
    }
    forall rules ensures NewClass(p.bearers, rules) == NewClass(q.bearers, rules) {
      NewClassSame(p.bearers, q.bearers, rules);
    }
  }

  lemma BoundValid(p: Pdn, i: nat, id: nat, cap: nat)
    requires Valid(p) && ValidCap(cap) && i < MAX_BEARERS && p.bearers[i].Some? && Room(p.bearers[i].value, cap)
    ensures Valid(BindAt(p, i, id))
  {}

  lemma OpenValid(p: Pdn, c: Class)
    requires Valid(p) && p.numBearer < MAX_BEARERS && Find(p.bearers, c) == None
    ensures Valid(Open(p, c))
  {
    assert forall i :: 0 <= i < MAX_BEARERS ==> !Serves(p.bearers[i], c);
  }

  lemma BoundSlot(p: Pdn, i: nat, j: nat)
    requires Valid(p) && p.pending != [] && i < MAX_BEARERS && Serves(p.bearers[i], p.pending[0].class_)
    requires j < MAX_BEARERS
    ensures FinalSlot(BindAt(p, i, p.pending[0].id), j) == FinalSlot(p, j)
  {
    var r, rest := p.pending[0], p.pending[1..];
    var q := BindAt(p, i, r.id);
    BindAtClasses(p, i, r.id);
    FindUnique(p, i, r.class_);
    assert NewClass(p.bearers, p.pending) == NewClass(q.bearers, rest);
    if i == j {
      BindAllStep(p.bearers[i].value, r.id, OfClass(rest, r.class_), MAX_PDRS);
    }
  }

  lemma BoundSlotHolds(p: Pdn, i: nat, j: nat, cap: nat)
    requires Valid(p) && p.pending != [] && i < MAX_BEARERS && Serves(p.bearers[i], p.pending[0].class_)
    requires j < MAX_BEARERS && Room(p.bearers[i].value, cap)
    ensures SlotHolds(p, j, cap) <==> SlotHolds(BindAt(p, i, p.pending[0].id), j, cap)
  {
    if i == j {
      BindAllStep(p.bearers[i].value, p.pending[0].id, OfClass(p.pending[1..], p.pending[0].class_), cap);
    }
  }

  lemma BoundSlotsHold(p: Pdn, i: nat, cap: nat)
    requires Valid(p) && p.pending != [] && i < MAX_BEARERS && Serves(p.bearers[i], p.pending[0].class_)
    ensures SlotsHold(p, cap) ==> Room(p.bearers[i].value, cap)
    ensures Room(p.bearers[i].value, cap) ==> (SlotsHold(p, cap) <==> SlotsHold(BindAt(p, i, p.pending[0].id), cap))
  {
    if Room(p.bearers[i].value, cap) {
      forall j: nat | j < MAX_BEARERS ensures SlotHolds(p, j, cap) <==> SlotHolds(BindAt(p, i, p.pending[0].id), j, cap) {
        BoundSlotHolds(p, i, j, cap);
      }
    } else {
      BindAllStep(p.bearers[i].value, p.pending[0].id, OfClass(p.pending[1..], p.pending[0].class_), cap);
      assert !SlotHolds(p, i, cap);
    }
  }

  /** Binding the first rule to the bearer of its class changes neither what fits nor the final result. */
  lemma BoundStep(p: Pdn, i: nat, made: bool, cap: nat)
    requires Valid(p) && p.pending != [] && i < MAX_BEARERS && Serves(p.bearers[i], p.pending[0].class_)
    ensures Fits(p, made, cap) ==> Room(p.bearers[i].value, cap)
    ensures Room(p.bearers[i].value, cap) ==> (Fits(p, made, cap) <==> Fits(BindAt(p, i, p.pending[0].id), made, cap))
    ensures Final(BindAt(p, i, p.pending[0].id)) == Final(p)
  {
    var r, rest := p.pending[0], p.pending[1..];
    var q := BindAt(p, i, r.id);
    BindAtClasses(p, i, r.id);
    FindUnique(p, i, r.class_);
    BoundSlotsHold(p, i, cap);
    forall j | 0 <= j < MAX_BEARERS ensures FinalSlot(q, j) == FinalSlot(p, j) {
      BoundSlot(p, i, j);
    }
    assert NewClass(p.bearers, p.pending) == NewClass(q.bearers, rest);
    assert p.pending == [r] + rest;
    assert Final(q).bearers == Final(p).bearers;
  }

  // ------------------------------------------------------------------ the first rule of a new class

  lemma {:induction false} FindOpened(bearers: seq<Option<Bearer>>, i: nat, b: Bearer, c: Class)
    requires i < |bearers| && bearers[i] == None
    ensures Find(bearers[i := Some(b)], c).Some? <==> c == b.class_ || Find(bearers, c).Some?
  {
    var after := bearers[i := Some(b)];
    assert Serves(after[i], b.class_);
    if Find(bearers, c).Some? {
      var j := Find(bearers, c).value;
      assert after[j] == bearers[j];
    }
    if Find(after, c).Some? && c != b.class_ {
      var j := Find(after, c).value;
      assert after[j] == bearers[j];
    }
  }

  /** A bearer is made for the first rule of a new class and the rule bound to it. */
  function Opened(p: Pdn): Pdn
    requires p.pending != [] && p.numBearer < |p.bearers|
  {
    BindAt(Open(p, p.pending[0].class_), p.numBearer, p.pending[0].id)
  }

  lemma OpenedFind(p: Pdn, c: Class)
    requires Valid(p) && SlotFree(p) && p.pending != [] && p.numBearer < MAX_BEARERS
    ensures Find(Opened(p).bearers, c).Some? <==> c == p.pending[0].class_ || Find(p.bearers, c).Some?
  {
    var b := Bearer(p.pending[0].class_, [], []);
    FindOpened(p.bearers, p.numBearer, Bind(b, p.pending[0].id), c);
    assert Opened(p).bearers == p.bearers[p.numBearer := Some(Bind(b, p.pending[0].id))];
  }

  lemma OpenedSlot(p: Pdn, j: nat, cap: nat)
    requires Valid(p) && ValidCap(cap) && SlotFree(p) && p.pending != [] && p.numBearer < MAX_BEARERS && j < MAX_BEARERS
    requires Find(p.bearers, p.pending[0].class_) == None
    ensures SlotHolds(Opened(p), j, cap) <==>
              if j == p.numBearer then Holds(Bearer(p.pending[0].class_, [], []), OfClass(p.pending, p.pending[0].class_), cap)
              else SlotHolds(p, j, cap)
    ensures NewClass(Opened(p).bearers, p.pending[1..]) == None ==> FinalSlot(Opened(p), j) == FinalSlot(p, j)
  {
    var c := p.pending[0].class_;
    assert NewClass(p.bearers, p.pending) == Some(c);
    BindAllStep(Bearer(c, [], []), p.pending[0].id, OfClass(p.pending[1..], c), cap);
    assert !Serves(p.bearers[j], c);
  }

  lemma OpenedStep(p: Pdn, cap: nat)
    requires Valid(p) && ValidCap(cap) && SlotFree(p) && p.pending != [] && p.numBearer < MAX_BEARERS
    requires Find(p.bearers, p.pending[0].class_) == None
    ensures Fits(p, false, cap) <==> Fits(Opened(p), true, cap)
    ensures Fits(p, false, cap) ==> Final(Opened(p)) == Final(p)
  {
    var q, c := Opened(p), p.pending[0].class_;
    assert NewClass(p.bearers, p.pending) == Some(c);
    OpenedFits(p, cap);
    if Fits(p, false, cap) {
      forall j: nat | j < MAX_BEARERS ensures FinalSlot(q, j) == FinalSlot(p, j) {
        OpenedSlot(p, j, cap);
      }
      assert Final(q).bearers == Final(p).bearers;
    }
  }

  lemma OpenedFits(p: Pdn, cap: nat)
    requires Valid(p) && ValidCap(cap) && SlotFree(p) && p.pending != [] && p.numBearer < MAX_BEARERS
    requires Find(p.bearers, p.pending[0].class_) == None
    ensures Fits(p, false, cap) <==> Fits(Opened(p), true, cap)
    ensures Fits(p, false, cap) ==> NewClass(Opened(p).bearers, p.pending[1..]) == None
  {
    var q, c, rest := Opened(p), p.pending[0].class_, p.pending[1..];
    assert q.pending == rest && p.pending == [p.pending[0]] + rest;
    forall d ensures Find(q.bearers, d).Some? <==> d == c || Find(p.bearers, d).Some? {
      OpenedFind(p, d);
    }
    var room := Holds(Bearer(c, [], []), OfClass(p.pending, c), cap);
    assert SlotHolds(p, p.numBearer, cap);
    forall j: nat | j < MAX_BEARERS
      ensures SlotHolds(q, j, cap) <==> if j == p.numBearer then room else SlotHolds(p, j, cap)
    {
      OpenedSlot(p, j, cap);
    }
    assert SlotsHold(q, cap) <==> SlotsHold(p, cap) && room;
  }

  // ------------------------------------------------------------------ the whole pass

  /**
   On a list of rules to add, the pass with any cap drains the list exactly when it fits, and then every bearer has gained
   the rules of its class in order, two packet detection rules each, and a new class has a bearer of its own.
   */
  lemma {:induction false} DrainExactly(p: Pdn, made: bool, cap: nat)
    requires Valid(p) && ValidCap(cap) && AllAdd(p.pending) && (!made ==> SlotFree(p))
    ensures Drain(p, made, cap).Drained? <==> Fits(p, made, cap)
    ensures Fits(p, made, cap) ==> Drain(p, made, cap) == Drained(Final(p))
    decreases |p.pending|
  {
    if p.pending == [] {
      DrainEmpty(p, made, cap);
    } else {
      var r := p.pending[0];
      var at := Find(p.bearers, r.class_);
      if at.Some? {
        BoundStep(p, at.value, made, cap);
        if Room(p.bearers[at.value].value, cap) {
          BoundValid(p, at.value, r.id, cap);
          DrainExactly(BindAt(p, at.value, r.id), made, cap);
        }
      } else if !made && p.numBearer < MAX_BEARERS {
        OpenValid(p, r.class_);
        BoundValid(Open(p, r.class_), p.numBearer, r.id, cap);
        OpenedStep(p, cap);
        DrainExactly(Opened(p), true, cap);
      }
    }
  }

  lemma DrainEmpty(p: Pdn, made: bool, cap: nat)
    requires Valid(p) && p.pending == []
    ensures Fits(p, made, cap) && Final(p) == p
  {
    forall i | 0 <= i < MAX_BEARERS ensures FinalSlot(p, i) == p.bearers[i] {
      if p.bearers[i].Some? {
        var b := p.bearers[i].value;
        assert b.rules + [] == b.rules && b.pdrs + [] == b.pdrs;
      }
    }
    assert Final(p).bearers == p.bearers;
  }

  /**
   The code's own condition: at most one new class, and of every class at most one rule, for a bearer that has no packet
   detection rules yet.
   */
  ghost predicate OneRuleEach(p: Pdn)
    requires |p.bearers| == MAX_BEARERS
  {
    var c := NewClass(p.bearers, p.pending);
    && (forall i: nat :: i < MAX_BEARERS && p.bearers[i].Some? ==> Alone(p.bearers[i].value, p.pending))
    && (c.Some? ==>
          && p.numBearer < MAX_BEARERS && |OfClass(p.pending, c.value)| == 1
          && forall i :: 0 <= i < |p.pending| ==> p.pending[i].class_ == c.value || Find(p.bearers, p.pending[i].class_).Some?)
  }

  predicate Alone(b: Bearer, rules: seq<PccRule>) {
    var ids := OfClass(rules, b.class_);
    ids == [] || (|ids| == 1 && b.pdrs == [] && |b.rules| < MAX_RULES)
  }

  lemma {:induction false} NewClassOccurs(bearers: seq<Option<Bearer>>, rules: seq<PccRule>)
    requires NewClass(bearers, rules).Some?
    ensures OfClass(rules, NewClass(bearers, rules).value) != []
  {
    if Find(bearers, rules[0].class_).Some? {
      NewClassOccurs(bearers, rules[1..]);
    }
  }

  /** The code drains a list of rules to add exactly under that condition. */
  lemma CodeDrainsExactly(p: Pdn)
    requires Valid(p) && AllAdd(p.pending) && SlotFree(p)
    ensures Drain(p, false, PDRS_PER_RULE).Drained? <==> OneRuleEach(p)
    ensures OneRuleEach(p) ==> Drain(p, false, PDRS_PER_RULE) == Drained(Final(p))
  {
    DrainExactly(p, false, PDRS_PER_RULE);
    if NewClass(p.bearers, p.pending).Some? {
      NewClassOccurs(p.bearers, p.pending);
    }
    assert forall i: nat :: i < MAX_BEARERS && p.bearers[i].Some? ==>
             (Alone(p.bearers[i].value, p.pending) <==> SlotHolds(p, i, PDRS_PER_RULE));
  }

  /** Two rules of one new class: the second fill reads past the rule's two entries. */
  lemma SecondRuleOverruns(p: Pdn, c: Class, id1: nat, id2: nat)
    requires Valid(p) && SlotFree(p) && p.numBearer < MAX_BEARERS && Find(p.bearers, c) == None
    requires p.pending == [PccRule(Add, id1, c), PccRule(Add, id2, c)]
    ensures Drain(p, false, PDRS_PER_RULE) == OutOfBounds
    ensures Drain(p, false, MAX_PDRS).Drained?
  {
    var q := Opened(p);
    assert q.pending == [PccRule(Add, id2, c)];
    OpenValid(p, c);
    BoundValid(Open(p, c), p.numBearer, id1, MAX_PDRS);
    assert Serves(q.bearers[p.numBearer], c);
    FindUnique(q, p.numBearer, c);
    var last := BindAt(q, p.numBearer, id2);
    assert last.pending == [];
    assert Drain(q, true, MAX_PDRS) == Drain(last, true, MAX_PDRS) == Drained(last);
    assert Drain(p, false, MAX_PDRS) == Drain(q, true, MAX_PDRS);
  }

  /** One rule of the class of a bearer that has packet detection rules, as the default bearer has from its attach. */
  lemma BusyBearerOverruns(p: Pdn, i: nat, id: nat)
    requires Valid(p) && i < MAX_BEARERS && p.bearers[i].Some? && p.bearers[i].value.pdrs != []
    requires p.pending == [PccRule(Add, id, p.bearers[i].value.class_)]
    ensures Drain(p, false, PDRS_PER_RULE) == OutOfBounds
  {
    FindUnique(p, i, p.bearers[i].value.class_);
  }

  /** Bearers fill the slots from the first, as they do from a default bearer with identity 5. */
  ghost predicate Compact(p: Pdn) {
    |p.bearers| == MAX_BEARERS && forall i :: 0 <= i < MAX_BEARERS ==> (p.bearers[i].Some? <==> i < p.numBearer)
  }

  /** Whatever the rules, a drained pass keeps one bearer per class and the arrays' bounds, and makes at most one bearer. */
  lemma {:induction false} DrainKeeps(p: Pdn, made: bool, cap: nat)
    requires Valid(p) && ValidCap(cap) && Drain(p, made, cap).Drained?
    ensures var q := Drain(p, made, cap).pdn;
            && Valid(q) && q.pending == []
            && p.numBearer <= q.numBearer <= p.numBearer + (if made then 0 else 1)
            && (Compact(p) ==> Compact(q))
    decreases |p.pending|
  {
    if p.pending != [] {
      var r := p.pending[0];
      var at := Find(p.bearers, r.class_);
      if r.action != Add {
        DrainKeeps(p.(pending := p.pending[1..]), made, cap);
      } else if at.Some? {
        BoundValid(p, at.value, r.id, cap);
        DrainKeeps(BindAt(p, at.value, r.id), made, cap);
      } else {
        OpenValid(p, r.class_);
        BoundValid(Open(p, r.class_), p.numBearer, r.id, cap);
        DrainKeeps(Opened(p), true, cap);
      }
    }
  }

  function RuleCount(bearers: seq<Option<Bearer>>): nat {
    if bearers == [] then 0 else
    (if bearers[0].Some? then |bearers[0].value.rules| else 0) + RuleCount(bearers[1..])
  }

  function PdrCount(bearers: seq<Option<Bearer>>): nat {
    if bearers == [] then 0 else
    (if bearers[0].Some? then |bearers[0].value.pdrs| else 0) + PdrCount(bearers[1..])
  }

  lemma {:induction false} CountsAt(bearers: seq<Option<Bearer>>, i: nat, b: Bearer)
    requires i < |bearers|
    ensures var old_ := if bearers[i].Some? then bearers[i].value else Bearer(b.class_, [], []);
            && RuleCount(bearers[i := Some(b)]) == RuleCount(bearers) - |old_.rules| + |b.rules|
            && PdrCount(bearers[i := Some(b)]) == PdrCount(bearers) - |old_.pdrs| + |b.pdrs|
  {
    if i == 0 {
      assert bearers[0 := Some(b)][1..] == bearers[1..];
    } else {
      CountsAt(bearers[1..], i - 1, b);
      assert bearers[i := Some(b)][1..] == bearers[1..][i - 1 := Some(b)];
    }
  }

  /** A drained list of rules to add leaves one entry and exactly two packet detection rules more for each of them. */
  lemma {:induction false} DrainCounts(p: Pdn, made: bool, cap: nat)
    requires Valid(p) && ValidCap(cap) && AllAdd(p.pending) && (!made ==> SlotFree(p)) && Drain(p, made, cap).Drained?
    ensures RuleCount(Drain(p, made, cap).pdn.bearers) == RuleCount(p.bearers) + |p.pending|
    ensures PdrCount(Drain(p, made, cap).pdn.bearers) == PdrCount(p.bearers) + 2 * |p.pending|
    decreases |p.pending|
  {
    if p.pending != [] {
      var r := p.pending[0];
      var at := Find(p.bearers, r.class_);
      if at.Some? {
        CountsAt(p.bearers, at.value, Bind(p.bearers[at.value].value, r.id));
        BoundValid(p, at.value, r.id, cap);
        DrainCounts(BindAt(p, at.value, r.id), made, cap);
      } else {
        var b := Bind(Bearer(r.class_, [], []), r.id);
        CountsAt(p.bearers, p.numBearer, b);
        assert Opened(p).bearers == p.bearers[p.numBearer := Some(b)];
        OpenValid(p, r.class_);
        BoundValid(Open(p, r.class_), p.numBearer, r.id, cap);
        DrainCounts(Opened(p), true, cap);
      }
    }
  }

  /** Making a bearer keeps every class served exactly when the slot num_bearer counts to is free. */
  lemma OpenKeepsExactly(p: Pdn)
    requires Valid(p) && p.pending != [] && p.numBearer < MAX_BEARERS && Find(p.bearers, p.pending[0].class_) == None
    ensures SlotFree(p) <==> forall c :: Find(p.bearers, c).Some? ==> Find(Opened(p).bearers, c).Some?
  {
    var n := p.numBearer;
    if SlotFree(p) {
      forall c | Find(p.bearers, c).Some? ensures Find(Opened(p).bearers, c).Some? {
        OpenedFind(p, c);
      }
    } else {
      var lost := p.bearers[n].value.class_;
      FindUnique(p, n, lost);
      assert Serves(p.bearers[n], lost);
      var q := Opened(p).bearers;
      forall i | 0 <= i < MAX_BEARERS ensures !Serves(q[i], lost) {
        if i != n { assert q[i] == p.bearers[i]; }
      }
      assert Find(q, lost) == None;
    }
  }

  /** A default bearer with identity 6 stands in slot 1 and is lost to the first dedicated bearer. */
  lemma DefaultBearerLost(d: Class, c: Class, id: nat)
    requires c != d
    ensures var b := seq(MAX_BEARERS, i => if i == 1 then Some(Bearer(d, [], [])) else None);
            var p := Pdn(b, 1, [PccRule(Add, id, c)]);
            && Drain(p, false, PDRS_PER_RULE).Drained?
            && Find(Drain(p, false, PDRS_PER_RULE).pdn.bearers, d) == None
  {
    var b := seq(MAX_BEARERS, i => if i == 1 then Some(Bearer(d, [], [])) else None);
    var p := Pdn(b, 1, [PccRule(Add, id, c)]);
    assert forall i :: 0 <= i < MAX_BEARERS ==> !Serves(b[i], c);
    assert Find(b, c) == None;
    var q := Opened(p);
    assert Drain(p, false, PDRS_PER_RULE) == Drain(q, true, PDRS_PER_RULE) == Drained(q);
    assert forall i :: 0 <= i < MAX_BEARERS ==> !Serves(q.bearers[i], d);
  }

  // ------------------------------------------------------------------ lists that also modify rules

  /** The outcome of a list from that of its first part: the pass goes on with the rest if the first part is drained. */
  function Continued(first: Outcome, rest: seq<PccRule>, p: Pdn, made: bool, cap: nat): Outcome
    requires first.Drained? ==> |first.pdn.bearers| == MAX_BEARERS
  {
    match first
    case Drained(q) => Drain(q.(pending := rest), made || q.numBearer != p.numBearer, cap)
    case GivenUp(q) => GivenUp(q.(pending := q.pending + rest))
    case SecondBearer => SecondBearer
    case OutOfBounds => OutOfBounds
  }

  lemma {:induction false} DrainSize(p: Pdn, made: bool, cap: nat)
    requires |p.bearers| == MAX_BEARERS
    ensures Drain(p, made, cap).Drained? ==>
              |Drain(p, made, cap).pdn.bearers| == MAX_BEARERS && Drain(p, made, cap).pdn.numBearer >= p.numBearer
    ensures Drain(p, made, cap).Drained? && made ==> Drain(p, made, cap).pdn.numBearer == p.numBearer
    decreases |p.pending|
  {
    if p.pending != [] {
      var r := p.pending[0];
      var at := Find(p.bearers, r.class_);
      if r.action != Add {
        DrainSize(p.(pending := p.pending[1..]), made, cap);
      } else if at.Some? {
        DrainSize(BindAt(p, at.value, r.id), made, cap);
      } else if p.numBearer < MAX_BEARERS {
        DrainSize(Opened(p), true, cap);
      }
    }
  }

  lemma {:induction false} DrainAppends(p: Pdn, rest: seq<PccRule>, made: bool, cap: nat)
    requires |p.bearers| == MAX_BEARERS
    ensures Drain(p, made, cap).Drained? ==> |Drain(p, made, cap).pdn.bearers| == MAX_BEARERS
    ensures Drain(p.(pending := p.pending + rest), made, cap) == Continued(Drain(p, made, cap), rest, p, made, cap)
    decreases |p.pending|
  {
    DrainSize(p, made, cap);
    if p.pending == [] {
      assert p.pending + rest == rest;
    } else {
      var r, tail, whole := p.pending[0], p.pending[1..], p.(pending := p.pending + rest);
      assert whole.pending[1..] == tail + rest;
      var at := Find(p.bearers, r.class_);
      if r.action != Add {
        DrainAppends(p.(pending := tail), rest, made, cap);
      } else if at.Some? {
        DrainAppends(BindAt(p, at.value, r.id), rest, made, cap);
      } else if !made && p.numBearer < MAX_BEARERS {
        DrainSize(Opened(p), true, cap);
        DrainAppends(Opened(p), rest, true, cap);
      }
    }
  }

  /** The pass stops at rule k: what stands before it drains, and it modifies a rule of a class that then has no bearer. */
  predicate StopsAt(p: Pdn, made: bool, cap: nat, k: nat)
    requires |p.bearers| == MAX_BEARERS
  {
    && k < |p.pending| && p.pending[k].action == Modify
    && var first := Drain(p.(pending := p.pending[..k]), made, cap);
       first.Drained? && Find(first.pdn.bearers, p.pending[k].class_) == None
  }

  /** It then leaves the list from that rule on, and the bearers as the rules before it made them. */
  lemma StopLeaves(p: Pdn, made: bool, cap: nat, k: nat)
    requires |p.bearers| == MAX_BEARERS && StopsAt(p, made, cap, k)
    ensures Drain(p, made, cap) ==
            GivenUp(Drain(p.(pending := p.pending[..k]), made, cap).pdn.(pending := p.pending[k..]))
  {
    assert p.pending[..k] + p.pending[k..] == p.pending;
    DrainAppends(p.(pending := p.pending[..k]), p.pending[k..], made, cap);
  }

  /** A list is given up exactly at such a rule. */
  lemma {:induction false} GivenUpExactly(p: Pdn, made: bool, cap: nat)
    requires |p.bearers| == MAX_BEARERS
    ensures Drain(p, made, cap).GivenUp? <==> exists k: nat :: StopsAt(p, made, cap, k)
  {
    if Drain(p, made, cap).GivenUp? {
      var k := WhereGivenUp(p, made, cap);
    }
    if k: nat :| StopsAt(p, made, cap, k) {
      StopLeaves(p, made, cap, k);
    }
  }

  lemma {:induction false} WhereGivenUp(p: Pdn, made: bool, cap: nat) returns (k: nat)
    requires |p.bearers| == MAX_BEARERS && Drain(p, made, cap).GivenUp?
    ensures StopsAt(p, made, cap, k)
    decreases |p.pending|
  {
    var r, tail := p.pending[0], p.pending[1..];
    var at := Find(p.bearers, r.class_);
    if r.action == Modify && at == None {
      k := 0;
      assert p.(pending := p.pending[..0]).pending == [];
    } else {
      var q := if r.action != Add then p.(pending := tail) else if at.Some? then BindAt(p, at.value, r.id) else Opened(p);
      var made' := made || (r.action == Add && at == None);
      var j := WhereGivenUp(q, made', cap);
      k := j + 1;
      var before := p.(pending := p.pending[..k]);
      assert before.pending[1..] == tail[..j] && before.pending[0] == r;
      assert Drain(before, made, cap) == Drain(q.(pending := tail[..j]), made', cap);
    }
  }

  /** Rules to modify, and rules with any other action, change no bearer. */
  lemma {:induction false} OnlyAddsChange(p: Pdn, made: bool, cap: nat)
    requires |p.bearers| == MAX_BEARERS && forall i :: 0 <= i < |p.pending| ==> p.pending[i].action != Add
    ensures Drain(p, made, cap).Drained? || Drain(p, made, cap).GivenUp?
    ensures Drain(p, made, cap).pdn.bearers == p.bearers && Drain(p, made, cap).pdn.numBearer == p.numBearer
    ensures Drain(p, made, cap).Drained? <==>
              forall i :: 0 <= i < |p.pending| && p.pending[i].action == Modify ==> Find(p.bearers, p.pending[i].class_).Some?
    decreases |p.pending|
  {
    if p.pending != [] {
      var tail := p.pending[1..];
      assert forall i :: 0 <= i < |tail| ==> tail[i] == p.pending[i + 1];
      if !(p.pending[0].action == Modify && Find(p.bearers, p.pending[0].class_) == None) {
        OnlyAddsChange(p.(pending := tail), made, cap);
      }
    }
  }

  // ------------------------------------------------------------------ the pass in place

  lemma {:induction false} FindFirst(bearers: seq<Option<Bearer>>, c: Class, i: nat)
    requires i < |bearers| && Serves(bearers[i], c) && forall j :: 0 <= j < i ==> !Serves(bearers[j], c)
    ensures Find(bearers, c) == Some(i)
  {
    if i > 0 {
      assert !Serves(bearers[0], c);
      forall j | 0 <= j < i - 1 ensures !Serves(bearers[1..][j], c) {
        assert !Serves(bearers[j + 1], c);
      }
      FindFirst(bearers[1..], c, i - 1);
    }
  }

  datatype Status = Ok | NoBearer | AssertionFailed | Overrun

  class PdnConnection {
    const epsBearers: array<Option<Bearer>>
    var numBearer: nat
    var pending: seq<PccRule>

    constructor (p: Pdn)
      requires |p.bearers| == MAX_BEARERS
      ensures Sized() && fresh(epsBearers) && Value() == p
    {
      epsBearers := new Option<Bearer>[MAX_BEARERS](i requires 0 <= i < MAX_BEARERS => p.bearers[i]);
      numBearer := p.numBearer;
      pending := p.pending;
      new;
      assert epsBearers[..] == p.bearers;
    }

    ghost predicate Sized() {
      epsBearers.Length == MAX_BEARERS
    }

    ghost function Value(): Pdn
      reads this, epsBearers
    {
      Pdn(epsBearers[..], numBearer, pending)
    }

    method GetBearer(c: Class) returns (r: Option<nat>)
      requires Sized()
      ensures r == Find(epsBearers[..], c)
    {
      for idx := 0 to MAX_BEARERS
        invariant forall j :: 0 <= j < idx ==> !Serves(epsBearers[j], c)
      {
        if Serves(epsBearers[idx], c) {
          FindFirst(epsBearers[..], c, idx);
          return Some(idx);
        }
      }
      return None;
    }

    method Remove()
      requires pending != []
      modifies this`pending
      ensures Value() == old(Value()).(pending := old(pending)[1..])
    {
      pending := pending[1..];
    }

    /** dynamic_rules, fill_pfcp_entry and the removal from the list. */
    method BindRule(i: nat, id: nat)
      requires Sized() && pending != [] && i < MAX_BEARERS && epsBearers[i].Some?
      modifies this`pending, epsBearers
      ensures Value() == BindAt(old(Value()), i, id)
    {
      epsBearers[i] := Some(Bind(epsBearers[i].value, id));
      Remove();
    }

    method OpenBearer(c: Class)
      requires Sized() && numBearer < MAX_BEARERS
      modifies this`numBearer, epsBearers
      ensures Value() == Open(old(Value()), c)
    {
      epsBearers[numBearer] := Some(Bearer(c, [], []));
      numBearer := numBearer + 1;
    }

    /** fill_create_pfcp_info: one round per packet detection rule of the bearer, each reading that entry of the rule. */
    method FillCreateInfo(pdrCount: nat, rulePdrs: seq<Pdr>) returns (inside: bool, created: seq<Pdr>)
      requires |rulePdrs| == PDRS_PER_RULE
      ensures inside <==> pdrCount <= PDRS_PER_RULE
      ensures inside ==> created == rulePdrs[..pdrCount]
    {
      created := [];
      for i := 0 to pdrCount
        invariant i <= PDRS_PER_RULE && created == rulePdrs[..i]
      {
        if i >= PDRS_PER_RULE {
          return false, created;
        }
        created := created + [rulePdrs[i]];
      }
      return true, created;
    }

    /** The rule-draining loop of fill_pfcp_gx_sess_mod_req. */
    method FillSessionModification() returns (status: Status)
      requires Sized()
      modifies this, epsBearers
      ensures match Drain(old(Value()), false, PDRS_PER_RULE)
              case Drained(q) => status == Ok && Value() == q
              case GivenUp(q) => status == NoBearer && Value() == q
              case SecondBearer => status == AssertionFailed
              case OutOfBounds => status == Overrun
    {
      var made := false;
      while pending != []
        invariant Drain(Value(), made, PDRS_PER_RULE) == Drain(old(Value()), false, PDRS_PER_RULE)
        decreases |pending|
      {
        var r := pending[0];
        var at := GetBearer(r.class_);
        if r.action == Add {
          if at == None {
            if made {
              return AssertionFailed;
            }
            if numBearer >= MAX_BEARERS {
              return Overrun;
            }
            made := true;
            at := Some(numBearer);
            OpenBearer(r.class_);
          }
          var b := epsBearers[at.value].value;
          if |b.rules| >= MAX_RULES || |b.pdrs| + 2 > MAX_PDRS {
            return Overrun;
          }
          BindRule(at.value, r.id);
          var inside, created := FillCreateInfo(|b.pdrs| + 2, [Pdr(r.id, 0), Pdr(r.id, 1)]);
          if !inside {
            return Overrun;
          }
        } else if r.action == Modify && at == None {
          return NoBearer;
        } else {
          Remove();
        }
      }
      return Ok;
    }
  }
}
