/**
 The two-thread name resolver of cp/upf.c. The main event thread (the requester) allocates
 a request block, passes its address over a socket pair and polls for an answer; the
 resolver thread looks the name up and, under the block's own mutex, either replies or, if
 the requester gave up, frees the block.

 A state holds both threads' program counters, the heap of request blocks and both
 directions of the socket pair. An action is one atomic step of one thread, so a run is an
 arbitrary interleaving. Touching or freeing a block that is not in the heap is a fault.
 */
module NameResolver {
  import opened Basics


  datatype Holder = Nobody | ByRequester | ByResolver

  /** `struct dnsMsg`, with the mutex reduced to who holds it. */
  datatype Block = Block(name: string, ip: nat, reqValid: bool, rspSent: bool, holder: Holder)

  /** The datagram the resolver writes back: a copy of the block. */
  datatype Answer = Answer(name: string, ip: nat)

  /** What one call of `upf_name_resolve` returned; no answer stands for address 0. */
  datatype Outcome = Outcome(id: nat, asked: string, answer: Option<Answer>)

  datatype RequesterPc =
    | Idle                     // outside upf_name_resolve
    | Allocated                // block filled in, about to write its address
    | Waiting                  // in poll
    | Polled(timedOut: bool)   // about to lock
    | Holding(timedOut: bool)  // locked, about to branch
    | Abandoning               // marked the request invalid, about to unlock
    | Reading                  // about to read the answer
    | Answered(answer: Answer) // about to unlock
    | Releasing(answer: Answer) // about to free the block

  datatype ResolverPc =
    | Listening
    | Received(id: nat)  // about to look the name up
    | Resolved(id: nat)  // about to lock
    | Checking(id: nat)  // locked, about to test req_valid
    | Dropping(id: nat)  // invalid request, about to unlock
    | Freeing(id: nat)   // about to free the block
    | Replying(id: nat)  // about to write the answer
    | Marking(id: nat)   // about to set rsp_sent
    | Unlocking(id: nat) // about to unlock

  datatype State = State(
    heap: map<nat, Block>,
    next: nat,
    requests: seq<nat>,
    responses: seq<Answer>,
    rq: RequesterPc,
    cur: nat,
    asked: string,
    rs: ResolverPc,
    outcomes: seq<Outcome>,
    lookups: map<nat, nat>,
    freed: seq<nat>,
    lost: bool,
    fault: bool)

  /**
   `Call` enters upf_name_resolve. `ok` picks the outcome of a system call where there is one:
   the request write, the poll (ready or not) and the answer write. `ip` is the result of the
   name lookup.
   */
  datatype Action = Call(name: string) | Requester(ok: bool) | Resolver(ok: bool, ip: nat)

  const Initial := State(map[], 0, [], [], Idle, 0, "", Listening, [], map[], [], false, false)

  function Free(s: State, id: nat): (s': State)
    ensures s'.next == s.next && s'.heap.Keys == s.heap.Keys - {id}
    ensures s'.freed == if id in s.heap then s.freed + [id] else s.freed
  {
    if id in s.heap then s.(heap := s.heap - {id}, freed := s.freed + [id]) else s.(fault := true)
  }

  function Put(s: State, id: nat, b: Block): (s': State)
    ensures s'.heap.Keys == s.heap.Keys && s'.freed == s.freed && s'.next == s.next
  {
    if id in s.heap then s.(heap := s.heap[id := b]) else s.(fault := true)
  }

  function Return(s: State, answer: Option<Answer>): State {
    s.(rq := Idle, outcomes := s.outcomes + [Outcome(s.cur, s.asked, answer)])
  }

  function CallStep(s: State, name: string): State {
    if s.rq != Idle then s else
    s.(heap := s.heap[s.next := Block(name, 0, true, false, Nobody)],
       cur := s.next, next := s.next + 1, asked := name, rq := Allocated)
  }

  /** The requester's steps on the block's mutex and under it. */
  function MutexStep(s: State): (s': State)
    requires s.rq.Polled? || s.rq.Holding? || s.rq.Abandoning? || s.rq.Answered?
    ensures s'.rs == s.rs && s'.lookups == s.lookups && s'.cur == s.cur && s'.asked == s.asked
    ensures s'.next == s.next && s'.lost == s.lost && s'.freed == s.freed && s'.heap.Keys == s.heap.Keys
    ensures s'.requests == s.requests && s'.rq != Allocated
    ensures forall id: nat :: id in s.heap ==> s'.heap[id].ip == s.heap[id].ip
  {
    match s.rq
    case Polled(timedOut) =>
      if s.cur !in s.heap then s.(fault := true)
      else if s.heap[s.cur].holder != Nobody then s
      else Put(s.(rq := Holding(timedOut)), s.cur, s.heap[s.cur].(holder := ByRequester))
    case Holding(timedOut) =>
      if !timedOut then s.(rq := Reading)
      else if s.cur !in s.heap then s.(fault := true)
      else if s.heap[s.cur].rspSent then s.(rq := Reading)
      else Put(s.(rq := Abandoning), s.cur, s.heap[s.cur].(reqValid := false))
    case Abandoning =>
      if s.cur !in s.heap then s.(fault := true)
      else Put(Return(s, None), s.cur, s.heap[s.cur].(holder := Nobody))
    case Answered(answer) =>
      if s.cur !in s.heap then s.(fault := true)
      else Put(s.(rq := Releasing(answer)), s.cur, s.heap[s.cur].(holder := Nobody))
  }

  /** The requester never touches the resolver's program counter or its record of lookups. */
  function RequesterStep(s: State, ok: bool): (s': State)
    ensures s'.rs == s.rs && s'.lookups == s.lookups && s'.cur == s.cur && s'.asked == s.asked
    ensures s'.next == s.next && s'.lost == s.lost
    ensures s'.freed == s.freed ==> s'.heap.Keys == s.heap.Keys
    ensures s'.freed != s.freed ==>
              s.cur in s.heap && s'.freed == s.freed + [s.cur] && s'.heap.Keys == s.heap.Keys - {s.cur}
  {
    match s.rq
    case Idle => s
    case Allocated =>
      if ok then s.(requests := s.requests + [s.cur], rq := Waiting)
      else Free(Return(s, None), s.cur)
    case Waiting =>
      if !ok then s.(rq := Polled(true))
      else if s.responses == [] then s
      else s.(rq := Polled(false))
    case Reading =>
      if s.responses == [] then s
      else s.(responses := s.responses[1..], rq := Answered(s.responses[0]))
    case Releasing(answer) => Free(Return(s, Some(answer)), s.cur)
    case _ => MutexStep(s)
  }

  /** The resolver's steps on the block it received, short of freeing it. */
  function BlockStep(s: State, ok: bool, ip: nat): (s': State)
    requires !s.rs.Listening? && !s.rs.Freeing?
    ensures s'.rq == s.rq && s'.cur == s.cur && s'.asked == s.asked && s'.outcomes == s.outcomes
    ensures s'.next == s.next && s'.freed == s.freed && s'.heap.Keys == s.heap.Keys
    ensures s'.requests == s.requests && (s'.rs.Received? ==> s'.rs == s.rs)
    ensures !s.rs.Received? ==>
              s'.lookups == s.lookups && forall id: nat :: id in s'.heap ==> s'.heap[id].ip == s.heap[id].ip
  {
    if s.rs.id !in s.heap then s.(fault := true)
    else
      var id := s.rs.id;
      var b := s.heap[id];
      match s.rs
      case Received(_) =>
        Put(s.(rs := Resolved(id), lookups := s.lookups[id := ip]), id, b.(ip := ip))
      case Resolved(_) =>
        if b.holder != Nobody then s else Put(s.(rs := Checking(id)), id, b.(holder := ByResolver))
      case Checking(_) => s.(rs := if b.reqValid then Replying(id) else Dropping(id))
      case Dropping(_) => Put(s.(rs := Freeing(id)), id, b.(holder := Nobody))
      case Replying(_) =>
        if ok then s.(rs := Marking(id), responses := s.responses + [Answer(b.name, b.ip)])
        else s.(rs := Marking(id), lost := true)
      case Marking(_) => Put(s.(rs := Unlocking(id)), id, b.(rspSent := true))
      case Unlocking(_) => Put(s.(rs := Listening), id, b.(holder := Nobody))
  }

  /** The resolver never touches the requester's variables or its record of outcomes. */
  function ResolverStep(s: State, ok: bool, ip: nat): (s': State)
    ensures s'.rq == s.rq && s'.cur == s.cur && s'.asked == s.asked && s'.outcomes == s.outcomes
    ensures s'.next == s.next
    ensures s'.freed == s.freed ==> s'.heap.Keys == s.heap.Keys
    ensures s'.freed != s.freed ==>
              s.rs.Freeing? && s.rs.id in s.heap && s'.freed == s.freed + [s.rs.id]
              && s'.heap.Keys == s.heap.Keys - {s.rs.id}
    ensures !s.rs.Listening? ==> s'.requests == s.requests && (s'.rs.Received? ==> s'.rs == s.rs)
    ensures !s.rs.Received? ==>
              s'.lookups == s.lookups && forall id: nat :: id in s'.heap ==> s'.heap[id].ip == s.heap[id].ip
  {
    if s.rs.Listening? then
      if s.requests == [] then s
      else s.(requests := s.requests[1..], rs := Received(s.requests[0]))
    else if s.rs.Freeing? then Free(s.(rs := Listening), s.rs.id)
    else BlockStep(s, ok, ip)
  }

  function Step(s: State, a: Action): State {
    match a
    case Call(name) => CallStep(s, name)
    case Requester(ok) => RequesterStep(s, ok)
    case Resolver(ok, ip) => ResolverStep(s, ok, ip)
  }

  function Run(s: State, run: seq<Action>): State
    decreases |run|
  {
    if run == [] then s else Run(Step(s, run[0]), run[1..])
  }

  // ------------------------------------------------------------------ the joint invariant

  /** The block the resolver is working on, if any. */
  ghost predicate ResolverHas(s: State, id: nat) {
    !s.rs.Listening? && s.rs.id == id
  }

  ghost predicate RequesterHas(s: State, id: nat) {
    s.rq != Idle && s.cur == id
  }

  ghost predicate ResolverLocks(s: State, id: nat) {
    ResolverHas(s, id) && !(s.rs.Received? || s.rs.Resolved? || s.rs.Freeing?)
  }

  ghost predicate RequesterLocks(s: State, id: nat) {
    RequesterHas(s, id) && (s.rq.Holding? || s.rq.Abandoning? || s.rq.Reading? || s.rq.Answered?)
  }

  /** The resolver has written, or failed to write, the answer to the current request. */
  ghost predicate Replied(s: State) {
    s.rq != Idle && s.cur in s.heap && (s.heap[s.cur].rspSent || s.rs == Marking(s.cur))
  }

  /** A block is in the heap exactly while somebody still has to deal with it. */
  ghost predicate HeapOk(s: State) {
    && (forall id: nat :: id in s.heap <==> id in s.requests || ResolverHas(s, id) || RequesterHas(s, id))
    && (forall id: nat :: id in s.heap ==> id < s.next)
  }

  /** Every block ever allocated is either still in the heap or was freed exactly once. */
  ghost predicate FreedOk(s: State) {
    && (forall id: nat :: id < s.next ==> (id in s.heap <==> id !in s.freed))
    && (forall id: nat :: id in s.freed ==> id < s.next)
    && NoDup(s.freed)
  }

  ghost predicate QueueOk(s: State) {
    && NoDup(s.requests)
    && (forall id: nat :: ResolverHas(s, id) ==> id !in s.requests)
    && (s.rq == Allocated ==> s.cur !in s.requests && !ResolverHas(s, s.cur))
    && (s.rq != Idle && s.cur in s.requests ==> s.requests[|s.requests| - 1] == s.cur)
    && (s.rq != Idle && s.rq != Allocated && s.cur !in s.requests ==> s.requests == [])
  }

  /** Lock ownership and the two flags of every block. */
  ghost predicate BlockOk(s: State, id: nat)
    requires id in s.heap
  {
    var b := s.heap[id];
    && (b.holder == ByRequester <==> RequesterLocks(s, id))
    && (b.holder == ByResolver <==> ResolverLocks(s, id))
    && (b.reqValid <==> RequesterHas(s, id) && s.rq != Abandoning)
    && (b.rspSent <==> RequesterHas(s, id) && s.rq != Allocated && id !in s.requests
                       && (ResolverHas(s, id) ==> s.rs.Unlocking?))
  }

  ghost predicate BlocksOk(s: State) {
    forall id: nat :: id in s.heap ==> BlockOk(s, id)
  }

  ghost predicate ThreadsOk(s: State) {
    && (s.rs.Dropping? || s.rs.Freeing? ==> !RequesterHas(s, s.rs.id))
    && (s.rs.Replying? || s.rs.Marking? || s.rs.Unlocking? ==>
          RequesterHas(s, s.rs.id) && (s.rq.Waiting? || s.rq.Polled?))
    && (s.rq.Polled? || s.rq.Holding? ==> s.rq.timedOut || (Replied(s) && !s.lost))
    && (s.rq.Reading? ==> Replied(s))
    && (s.rq.Abandoning? ==> !Replied(s))
    && (s.rq.Answered? || s.rq.Releasing? ==>
          Replied(s) && !s.lost && s.rq.answer == Answer(s.asked, s.heap[s.cur].ip))
    && (s.rq != Idle ==> s.cur in s.heap && s.heap[s.cur].name == s.asked)
  }

  ghost predicate ResponsesOk(s: State) {
    && (s.lost ==> Replied(s))
    && s.responses ==
       if Replied(s) && !s.lost && !s.rq.Answered? && !s.rq.Releasing?
       then [Answer(s.heap[s.cur].name, s.heap[s.cur].ip)] else []
  }

  /** A block's address field is the result of its own lookup, once that was made. */
  ghost predicate LookupOk(s: State, id: nat)
    requires id in s.heap
  {
    && (id in s.lookups <==>
          id !in s.requests && s.rs != Received(id) && !(s.rq == Allocated && s.cur == id))
    && (id in s.lookups ==> s.heap[id].ip == s.lookups[id])
  }

  ghost predicate LookupsOk(s: State) {
    && (forall id: nat :: id in s.lookups ==> id < s.next)
    && (forall id: nat :: id in s.heap ==> LookupOk(s, id))
  }

  /** An answer a call returned is the lookup made for that very call, under the name it asked. */
  ghost predicate OutcomeOk(s: State, o: Outcome) {
    && o.id < s.next
    && !RequesterHas(s, o.id)
    && (o.answer.Some? ==> o.id in s.lookups && o.answer.value == Answer(o.asked, s.lookups[o.id]))
  }

  ghost predicate Core(s: State) {
    && !s.fault
    && HeapOk(s)
    && QueueOk(s)
    && BlocksOk(s)
    && ThreadsOk(s)
    && ResponsesOk(s)
  }

  ghost predicate OutcomesOk(s: State) {
    forall o :: o in s.outcomes ==> OutcomeOk(s, o)
  }

  ghost predicate Inv(s: State) {
    Core(s) && FreedOk(s) && LookupsOk(s) && OutcomesOk(s)
  }

  lemma InitialInv()
    ensures Inv(Initial)
  {}

  lemma CallKeeps(s: State, name: string)
    requires Inv(s)
    ensures Inv(CallStep(s, name))
  {}

  lemma RequesterAllocated(s: State, ok: bool)
    requires Core(s) && s.rq.Allocated?
    ensures Core(RequesterStep(s, ok))
  {
    var s' := RequesterStep(s, ok);
    forall id: nat | id in s'.heap ensures BlockOk(s', id) {
      assert BlockOk(s, id);
    }
  }

  lemma RequesterWaiting(s: State, ok: bool)
    requires Core(s) && s.rq.Waiting?
    ensures Core(RequesterStep(s, ok))
  {
    var s' := RequesterStep(s, ok);
    forall id: nat | id in s'.heap ensures BlockOk(s', id) {
      assert BlockOk(s, id);
    }
  }

  lemma RequesterPolled(s: State, ok: bool)
    requires Core(s) && s.rq.Polled?
    ensures Core(RequesterStep(s, ok))
  {
    var s' := RequesterStep(s, ok);
    forall id: nat | id in s'.heap ensures BlockOk(s', id) {
      assert BlockOk(s, id);
    }
  }

  lemma RequesterHolding(s: State, ok: bool)
    requires Core(s) && s.rq.Holding?
    ensures Core(RequesterStep(s, ok))
  {
    var s' := RequesterStep(s, ok);
    forall id: nat | id in s'.heap ensures BlockOk(s', id) {
      assert BlockOk(s, id);
    }
  }

  lemma RequesterAbandoning(s: State, ok: bool)
    requires Core(s) && s.rq.Abandoning?
    ensures Core(RequesterStep(s, ok))
  {}

  lemma RequesterReading(s: State, ok: bool)
    requires Core(s) && s.rq.Reading?
    ensures Core(RequesterStep(s, ok))
  {}

  lemma RequesterAnswered(s: State, ok: bool)
    requires Core(s) && s.rq.Answered?
    ensures Core(RequesterStep(s, ok))
  {}

  lemma RequesterReleasing(s: State, ok: bool)
    requires Core(s) && s.rq.Releasing?
    ensures Core(RequesterStep(s, ok))
  {}

  lemma ResolverListening(s: State, ok: bool, ip: nat)
    requires Core(s) && s.rs.Listening?
    ensures Core(ResolverStep(s, ok, ip))
  {
    var s' := ResolverStep(s, ok, ip);
    forall id: nat | id in s'.heap ensures BlockOk(s', id) {
      assert BlockOk(s, id);
    }
  }

  lemma ReceivedBlocks(s: State, ok: bool, ip: nat)
    requires Core(s) && s.rs.Received?
    ensures BlocksOk(ResolverStep(s, ok, ip))
  {
    var s' := ResolverStep(s, ok, ip);
    forall id: nat | id in s'.heap ensures BlockOk(s', id) {
      assert BlockOk(s, id);
    }
  }

  lemma ResolverReceived(s: State, ok: bool, ip: nat)
    requires Core(s) && s.rs.Received?
    ensures Core(ResolverStep(s, ok, ip))
  {
    ReceivedBlocks(s, ok, ip);
    assert BlockOk(s, s.rs.id);
  }

  lemma ResolvedBlocks(s: State, ok: bool, ip: nat)
    requires Core(s) && s.rs.Resolved?
    ensures BlocksOk(ResolverStep(s, ok, ip))
  {
    var s' := ResolverStep(s, ok, ip);
    forall id: nat | id in s'.heap ensures BlockOk(s', id) {
      assert BlockOk(s, id);
    }
  }

  lemma ResolverResolved(s: State, ok: bool, ip: nat)
    requires Core(s) && s.rs.Resolved?
    ensures Core(ResolverStep(s, ok, ip))
  {
    ResolvedBlocks(s, ok, ip);
    assert BlockOk(s, s.rs.id);
  }

  lemma ResolverChecking(s: State, ok: bool, ip: nat)
    requires Core(s) && s.rs.Checking?
    ensures Core(ResolverStep(s, ok, ip))
  {
    var s' := ResolverStep(s, ok, ip);
    forall id: nat | id in s'.heap ensures BlockOk(s', id) {
      assert BlockOk(s, id);
    }
  }

  lemma DroppingBlocks(s: State, ok: bool, ip: nat)
    requires Core(s) && s.rs.Dropping?
    ensures BlocksOk(ResolverStep(s, ok, ip))
  {
    var s' := ResolverStep(s, ok, ip);
    forall id: nat | id in s'.heap ensures BlockOk(s', id) {
      assert BlockOk(s, id);
    }
  }

  lemma ResolverDropping(s: State, ok: bool, ip: nat)
    requires Core(s) && s.rs.Dropping?
    ensures Core(ResolverStep(s, ok, ip))
  {
    DroppingBlocks(s, ok, ip);
    assert BlockOk(s, s.rs.id);
  }

  lemma FreeingBlocks(s: State, ok: bool, ip: nat)
    requires Core(s) && s.rs.Freeing?
    ensures BlocksOk(ResolverStep(s, ok, ip))
  {
    var s' := ResolverStep(s, ok, ip);
    forall id: nat | id in s'.heap ensures BlockOk(s', id) {
      assert BlockOk(s, id);
    }
  }

  lemma ResolverFreeing(s: State, ok: bool, ip: nat)
    requires Core(s) && s.rs.Freeing?
    ensures Core(ResolverStep(s, ok, ip))
  {
    FreeingBlocks(s, ok, ip);
    assert ResolverHas(s, s.rs.id) && BlockOk(s, s.rs.id);
  }

  lemma ResolverReplying(s: State, ok: bool, ip: nat)
    requires Core(s) && s.rs.Replying?
    ensures Core(ResolverStep(s, ok, ip))
  {}

  lemma ResolverMarking(s: State, ok: bool, ip: nat)
    requires Core(s) && s.rs.Marking?
    ensures Core(ResolverStep(s, ok, ip))
  {}

  lemma ResolverUnlocking(s: State, ok: bool, ip: nat)
    requires Core(s) && s.rs.Unlocking?
    ensures Core(ResolverStep(s, ok, ip))
  {}

  lemma RequesterCore(s: State, ok: bool)
    requires Core(s)
    ensures Core(RequesterStep(s, ok))
  {
    match s.rq
    case Idle =>
    case Allocated => RequesterAllocated(s, ok);
    case Waiting => RequesterWaiting(s, ok);
    case Polled(_) => RequesterPolled(s, ok);
    case Holding(_) => RequesterHolding(s, ok);
    case Abandoning => RequesterAbandoning(s, ok);
    case Reading => RequesterReading(s, ok);
    case Answered(_) => RequesterAnswered(s, ok);
    case Releasing(_) => RequesterReleasing(s, ok);
  }

  lemma ResolverCore(s: State, ok: bool, ip: nat)
    requires Core(s)
    ensures Core(ResolverStep(s, ok, ip))
  {
    match s.rs
    case Listening => ResolverListening(s, ok, ip);
    case Received(_) => ResolverReceived(s, ok, ip);
    case Resolved(_) => ResolverResolved(s, ok, ip);
    case Checking(_) => ResolverChecking(s, ok, ip);
    case Dropping(_) => ResolverDropping(s, ok, ip);
    case Freeing(_) => ResolverFreeing(s, ok, ip);
    case Replying(_) => ResolverReplying(s, ok, ip);
    case Marking(_) => ResolverMarking(s, ok, ip);
    case Unlocking(_) => ResolverUnlocking(s, ok, ip);
  }

  lemma FreedKeeps(s: State, s': State)
    requires HeapOk(s) && FreedOk(s)
    requires s'.next == s.next
    requires s'.freed == s.freed ==> s'.heap.Keys == s.heap.Keys
    requires s'.freed != s.freed ==>
               exists id: nat :: id in s.heap && s'.freed == s.freed + [id] && s'.heap.Keys == s.heap.Keys - {id}
    ensures FreedOk(s')
  {
    if s'.freed != s.freed {
      var id: nat :| id in s.heap && s'.freed == s.freed + [id] && s'.heap.Keys == s.heap.Keys - {id};
      assert id !in s.freed;
    }
  }

  lemma RequesterFreed(s: State, ok: bool)
    requires HeapOk(s) && FreedOk(s)
    ensures FreedOk(RequesterStep(s, ok))
  {
    FreedKeeps(s, RequesterStep(s, ok));
  }

  lemma ResolverFreed(s: State, ok: bool, ip: nat)
    requires HeapOk(s) && FreedOk(s)
    ensures FreedOk(ResolverStep(s, ok, ip))
  {
    FreedKeeps(s, ResolverStep(s, ok, ip));
  }

  // Lookups and outcomes -------------------------------------------------------------

  lemma MutexLookups(s: State)
    requires s.rq.Polled? || s.rq.Holding? || s.rq.Abandoning? || s.rq.Answered?
    requires LookupsOk(s)
    ensures LookupsOk(MutexStep(s))
  {
    var s' := MutexStep(s);
    forall id: nat | id in s'.heap ensures LookupOk(s', id) {
      assert LookupOk(s, id);
    }
  }

  lemma RequesterLookups(s: State, ok: bool)
    requires QueueOk(s) && LookupsOk(s)
    ensures LookupsOk(RequesterStep(s, ok))
  {
    if s.rq.Polled? || s.rq.Holding? || s.rq.Abandoning? || s.rq.Answered? {
      MutexLookups(s);
    } else {
      var s' := RequesterStep(s, ok);
      forall id: nat | id in s'.heap ensures LookupOk(s', id) {
        assert LookupOk(s, id);
      }
    }
  }

  lemma ResolverTakesAndLooksUp(s: State, ok: bool, ip: nat)
    requires HeapOk(s) && QueueOk(s) && LookupsOk(s)
    requires s.rs.Listening? || s.rs.Received?
    ensures LookupsOk(ResolverStep(s, ok, ip))
  {
    var s' := ResolverStep(s, ok, ip);
    assert s.rs.Listening? && s.requests != [] ==> s.requests == [s.requests[0]] + s'.requests;
    forall id: nat | id in s'.heap ensures LookupOk(s', id) {
      assert LookupOk(s, id);
    }
  }

  lemma ResolverLookups(s: State, ok: bool, ip: nat)
    requires HeapOk(s) && LookupsOk(s)
    requires !s.rs.Listening? && !s.rs.Received?
    ensures LookupsOk(ResolverStep(s, ok, ip))
  {
    var s' := ResolverStep(s, ok, ip);
    forall id: nat | id in s'.heap ensures LookupOk(s', id) {
      assert LookupOk(s, id);
    }
  }

  lemma RequesterOutcomes(s: State, ok: bool)
    requires Core(s) && LookupsOk(s) && OutcomesOk(s)
    ensures OutcomesOk(RequesterStep(s, ok))
  {
    assert s.rq.Releasing? ==> BlockOk(s, s.cur) && LookupOk(s, s.cur);
    var s' := RequesterStep(s, ok);
    forall o | o in s'.outcomes ensures OutcomeOk(s', o) {
      assert o in s.outcomes ==> OutcomeOk(s, o);
    }
  }

  lemma ResolverOutcomes(s: State, ok: bool, ip: nat)
    requires HeapOk(s) && LookupsOk(s) && OutcomesOk(s)
    ensures OutcomesOk(ResolverStep(s, ok, ip))
  {
    var s' := ResolverStep(s, ok, ip);
    assert s.rs.Received? ==> ResolverHas(s, s.rs.id) && LookupOk(s, s.rs.id);
    assert s'.lookups == s.lookups || (s.rs.Received? && s'.lookups == s.lookups[s.rs.id := ip]);
    forall o | o in s'.outcomes ensures OutcomeOk(s', o) {
      assert OutcomeOk(s, o);
    }
  }

  // ------------------------------------------------------------------ whole runs

  lemma StepKeeps(s: State, a: Action)
    requires Inv(s)
    ensures Inv(Step(s, a))
  {
    match a
    case Call(name) => CallKeeps(s, name);
    case Requester(ok) =>
      RequesterCore(s, ok);
      RequesterFreed(s, ok);
      RequesterLookups(s, ok);
      RequesterOutcomes(s, ok);
    case Resolver(ok, ip) =>
      ResolverCore(s, ok, ip);
      ResolverFreed(s, ok, ip);
      if s.rs.Listening? || s.rs.Received? {
        ResolverTakesAndLooksUp(s, ok, ip);
      } else {
        ResolverLookups(s, ok, ip);
      }
      ResolverOutcomes(s, ok, ip);
  }

  lemma {:induction false} RunKeeps(s: State, run: seq<Action>)
    requires Inv(s)
    ensures Inv(Run(s, run))
    decreases |run|
  {
    if run != [] {
      StepKeeps(s, run[0]);
      RunKeeps(Step(s, run[0]), run[1..]);
    }
  }

  /**
   Ownership. In every interleaving no thread touches or frees a block that was freed, every
   block ever allocated is in the heap or was freed exactly once, and once both threads are at
   rest nothing is left in the heap.
   */
  lemma EveryBlockFreedOnce(run: seq<Action>)
    ensures var s := Run(Initial, run);
            && !s.fault
            && NoDup(s.freed)
            && (forall id: nat :: id < s.next ==> (id in s.freed <==> id !in s.heap))
            && (s.rq == Idle && s.rs.Listening? && s.requests == [] ==> s.heap == map[])
  {
    InitialInv();
    RunKeeps(Initial, run);
  }

  /**
   Answer matching. Every answer a call returned is the lookup made for that same call, under
   the name it asked for, and the response socket is empty whenever a new call starts.
   */
  lemma AnswersMatchQuestions(run: seq<Action>)
    ensures var s := Run(Initial, run);
            && (s.rq == Idle ==> s.responses == [])
            && (forall o :: o in s.outcomes && o.answer.Some? ==>
                  o.id in s.lookups && o.answer.value == Answer(o.asked, s.lookups[o.id]))
  {
    InitialInv();
    RunKeeps(Initial, run);
    var s := Run(Initial, run);
    assert forall o :: o in s.outcomes ==> OutcomeOk(s, o);
  }

  // ------------------------------------------------------------------ what each call returns

  /** The requester gives the current call up: its request cannot be written, or it timed out and finds no answer sent. */
  predicate GivesUp(s: State, a: Action) {
    a.Requester? &&
    ( || (s.rq == Allocated && !a.ok)
      || (s.rq == Holding(true) && s.cur in s.heap && !s.heap[s.cur].rspSent))
  }

  /** The calls given up in a run. */
  function GivenUp(s: State, run: seq<Action>): set<nat>
    decreases |run|
  {
    if run == [] then {} else
    (if GivesUp(s, run[0]) then {s.cur} else {}) + GivenUp(Step(s, run[0]), run[1..])
  }

  function Asks(s: State, a: Action): seq<string> {
    if a.Call? && s.rq == Idle then [a.name] else []
  }

  /** The names asked for, call by call. */
  function Names(s: State, run: seq<Action>): seq<string>
    decreases |run|
  {
    if run == [] then [] else Asks(s, run[0]) + Names(Step(s, run[0]), run[1..])
  }

  /** One outcome for each call that returned, in order: none if it was given up, otherwise an answer. */
  ghost predicate Accounted(s: State, gone: set<nat>, names: seq<string>) {
    && (forall id :: id in gone ==> id < s.next)
    && |names| == s.next
    && |s.outcomes| == (if s.rq == Idle then s.next else s.next - 1)
    && (s.rq != Idle ==> s.cur == s.next - 1 && s.asked == names[s.cur] && (s.cur in gone <==> s.rq == Abandoning))
    && (forall i :: 0 <= i < |s.outcomes| ==>
          s.outcomes[i].id == i && s.outcomes[i].asked == names[i] && (s.outcomes[i].answer == None <==> i in gone))
  }

  lemma MutexAccounts(s: State, gone: set<nat>, names: seq<string>)
    requires s.rq.Polled? || s.rq.Holding? || s.rq.Abandoning? || s.rq.Answered?
    requires Accounted(s, gone, names)
    ensures Accounted(MutexStep(s), if GivesUp(s, Requester(true)) then gone + {s.cur} else gone, names)
  {
    if s.rq.Abandoning? {
      AbandonAccounts(s, gone, names);
    } else {
      assert MutexStep(s).outcomes == s.outcomes && MutexStep(s).rq != Idle;
    }
  }

  lemma AbandonAccounts(s: State, gone: set<nat>, names: seq<string>)
    requires s.rq.Abandoning? && Accounted(s, gone, names)
    ensures Accounted(MutexStep(s), gone, names)
  {
    if s.cur in s.heap {
      assert MutexStep(s).outcomes == s.outcomes + [Outcome(s.cur, s.asked, None)];
    }
  }

  lemma ReturnAccounts(s: State, answer: Option<Answer>, gone: set<nat>, names: seq<string>)
    requires Accounted(s, gone, names) && s.rq != Idle && s.rq != Abandoning
    ensures Accounted(Free(Return(s, answer), s.cur), if answer == None then gone + {s.cur} else gone, names)
  {
    var t := Free(Return(s, answer), s.cur);
    assert t.outcomes == s.outcomes + [Outcome(s.cur, s.asked, answer)];
  }

  lemma RequesterAccounts(s: State, ok: bool, gone: set<nat>, names: seq<string>)
    requires Accounted(s, gone, names)
    ensures Accounted(RequesterStep(s, ok), if GivesUp(s, Requester(ok)) then gone + {s.cur} else gone, names)
  {
    match s.rq
    case Idle =>
    case Allocated => if !ok { ReturnAccounts(s, None, gone, names); }
    case Waiting =>
    case Reading =>
    case Releasing(answer) => ReturnAccounts(s, Some(answer), gone, names);
    case _ => MutexAccounts(s, gone, names);
  }

  lemma StepAccounts(s: State, a: Action, gone: set<nat>, names: seq<string>)
    requires Accounted(s, gone, names)
    ensures Accounted(Step(s, a), if GivesUp(s, a) then gone + {s.cur} else gone, names + Asks(s, a))
  {
    assert names + [] == names;
    if a.Requester? {
      RequesterAccounts(s, a.ok, gone, names);
    }
  }

  lemma {:induction false} RunAccounts(s: State, run: seq<Action>, gone: set<nat>, names: seq<string>)
    requires Accounted(s, gone, names)
    ensures Accounted(Run(s, run), gone + GivenUp(s, run), names + Names(s, run))
    decreases |run|
  {
    if run == [] {
      assert gone + {} == gone && names + [] == names;
    } else {
      var a := run[0];
      var more := if GivesUp(s, a) then {s.cur} else {};
      StepAccounts(s, a, gone, names);
      assert gone + more == if GivesUp(s, a) then gone + {s.cur} else gone;
      RunAccounts(Step(s, a), run[1..], gone + more, names + Asks(s, a));
      Regroup(gone, more, GivenUp(Step(s, a), run[1..]), names, Asks(s, a), Names(Step(s, a), run[1..]));
    }
  }

  lemma Regroup(a: set<nat>, b: set<nat>, c: set<nat>, x: seq<string>, y: seq<string>, z: seq<string>)
    ensures (a + b) + c == a + (b + c) && (x + y) + z == x + (y + z)
  {}

  /** The results of the lookups of a run, by the block they were made for. */
  function Looked(s: State, run: seq<Action>, found: map<nat, nat>): map<nat, nat>
    decreases |run|
  {
    if run == [] then found else
    Looked(Step(s, run[0]), run[1..], if run[0].Resolver? && s.rs.Received? then found[s.rs.id := run[0].ip] else found)
  }

  lemma {:induction false} LookupsAreLooked(s: State, run: seq<Action>)
    requires Inv(s)
    ensures Run(s, run).lookups == Looked(s, run, s.lookups)
    decreases |run|
  {
    if run != [] {
      assert s.rs.Received? ==> ResolverHas(s, s.rs.id) && s.rs.id in s.heap;
      StepKeeps(s, run[0]);
      LookupsAreLooked(Step(s, run[0]), run[1..]);
    }
  }

  /**
   Every call that returned has exactly one outcome, in order of the calls. It carries no answer if and only if the call
   was given up; otherwise the answer is the lookup made for that call, under the name it asked for.
   */
  lemma AnsweredExactly(run: seq<Action>)
    ensures var s, names := Run(Initial, run), Names(Initial, run);
            && |names| == s.next && s.lookups == Looked(Initial, run, map[])
            && |s.outcomes| == (if s.rq == Idle then s.next else s.next - 1)
            && forall i :: 0 <= i < |s.outcomes| ==>
                 && s.outcomes[i].id == i && s.outcomes[i].asked == names[i]
                 && (s.outcomes[i].answer == None <==> i in GivenUp(Initial, run))
                 && (i !in GivenUp(Initial, run) ==>
                       i in s.lookups && s.outcomes[i].answer == Some(Answer(names[i], s.lookups[i])))
  {
    InitialInv();
    RunKeeps(Initial, run);
    RunAccounts(Initial, run, {}, []);
    LookupsAreLooked(Initial, run);
    var s := Run(Initial, run);
    assert [] + Names(Initial, run) == Names(Initial, run);
    assert {} + GivenUp(Initial, run) == GivenUp(Initial, run);
    forall i | 0 <= i < |s.outcomes| ensures OutcomeOk(s, s.outcomes[i]) {
      assert s.outcomes[i] in s.outcomes;
    }
  }

  predicate NoTimeout(s: State) {
    s.rq.Polled? || s.rq.Holding? ==> !s.rq.timedOut
  }

  lemma NoTimeoutStays(s: State, a: Action)
    requires NoTimeout(s) && (a.Requester? ==> a.ok)
    ensures NoTimeout(Step(s, a)) && !GivesUp(s, a)
  {}

  lemma {:induction false} NoneGivenUp(s: State, run: seq<Action>)
    requires NoTimeout(s) && forall i :: 0 <= i < |run| && run[i].Requester? ==> run[i].ok
    ensures GivenUp(s, run) == {}
    decreases |run|
  {
    if run != [] {
      NoTimeoutStays(s, run[0]);
      NoneGivenUp(Step(s, run[0]), run[1..]);
    }
  }

  /** So when no request write fails and no poll times out, every call that returns has its answer. */
  lemma EveryCallAnswered(run: seq<Action>)
    requires forall i :: 0 <= i < |run| && run[i].Requester? ==> run[i].ok
    ensures var s := Run(Initial, run);
            forall i :: 0 <= i < |s.outcomes| ==>
              && i < |Names(Initial, run)| && i in s.lookups
              && s.outcomes[i] == Outcome(i, Names(Initial, run)[i], Some(Answer(Names(Initial, run)[i], s.lookups[i])))
  {
    AnsweredExactly(run);
    NoneGivenUp(Initial, run);
  }

  // ------------------------------------------------------------------ progress

  /** Neither thread can move, whatever its next system call returns. */
  ghost predicate Stuck(s: State) {
    forall a: Action :: a.Call? || Step(s, a) == s
  }

  ghost predicate AtRest(s: State) {
    s.rq == Idle && s.rs.Listening? && s.requests == []
  }

  /** The requester sits in read() for an answer whose write failed. */
  ghost predicate WaitsForLostAnswer(s: State) {
    s.lost && s.rq == Reading && s.rs.Listening?
  }

  /** The threads stop only at rest or in one deadlock, and a failed answer write is the exact cause of that. */
  lemma StuckExactly(run: seq<Action>)
    ensures var s := Run(Initial, run);
            && (Stuck(s) <==> AtRest(s) || WaitsForLostAnswer(s))
            && (Stuck(s) ==> (WaitsForLostAnswer(s) <==> s.lost))
  {
    InitialInv();
    RunKeeps(Initial, run);
    var s := Run(Initial, run);
    if Stuck(s) {
      assert Step(s, Requester(true)) == s && Step(s, Requester(false)) == s && Step(s, Resolver(true, 0)) == s;
      CannotMove(s);
    }
  }

  lemma CannotMove(s: State)
    requires Inv(s)
    requires RequesterStep(s, true) == s && RequesterStep(s, false) == s && ResolverStep(s, true, 0) == s
    ensures AtRest(s) || WaitsForLostAnswer(s)
  {
    assert s.cur in s.heap ==> BlockOk(s, s.cur);
    assert forall id: nat :: ResolverHas(s, id) ==> id in s.heap;
  }

  /** No action moves either thread when every system call succeeds and every poll is answered in time. */
  ghost predicate StuckUnhindered(s: State) {
    RequesterStep(s, true) == s && forall ip: nat :: ResolverStep(s, true, ip) == s
  }

  lemma UnhinderedRest(s: State)
    requires Inv(s) && !s.lost && StuckUnhindered(s)
    ensures AtRest(s)
  {
    assert ResolverStep(s, true, 0) == s;
    assert forall id: nat :: ResolverHas(s, id) || RequesterHas(s, id) ==> id in s.heap;
  }

  /** When nothing fails and no poll times out, the threads stop only after every call was answered with its own lookup. */
  lemma EveryCallServed(run: seq<Action>)
    requires forall i :: 0 <= i < |run| && !run[i].Call? ==> run[i].ok
    requires StuckUnhindered(Run(Initial, run))
    ensures var s, names := Run(Initial, run), Names(Initial, run);
            && s.rq == Idle && |s.outcomes| == |names| && s.heap == map[]
            && forall i :: 0 <= i < |names| ==> i in s.lookups && s.outcomes[i] == Outcome(i, names[i], Some(Answer(names[i], s.lookups[i])))
  {
    InitialInv();
    RunKeeps(Initial, run);
    forall a | a in run && a.Resolver? ensures a.ok {
      var i :| 0 <= i < |run| && run[i] == a;
    }
    LostOnlyByFailedWrite(Initial, run);
    UnhinderedRest(Run(Initial, run));
    AnsweredExactly(run);
    EveryCallAnswered(run);
    EveryBlockFreedOnce(run);
  }

  /** The requester is about to use or free the block of its call. */
  predicate RequesterUses(s: State, ok: bool) {
    s.rq.Polled? || s.rq == Holding(true) || s.rq.Abandoning? || s.rq.Answered? || s.rq.Releasing? || (s.rq.Allocated? && !ok)
  }

  /** A step faults exactly when it uses or frees a block that is not in the heap. */
  lemma RequesterFaults(s: State, ok: bool)
    requires !s.fault
    ensures RequesterStep(s, ok).fault <==> RequesterUses(s, ok) && s.cur !in s.heap
  {}

  lemma ResolverFaults(s: State, ok: bool, ip: nat)
    requires !s.fault
    ensures ResolverStep(s, ok, ip).fault <==> !s.rs.Listening? && s.rs.id !in s.heap
  {}

  function RequesterRank(pc: RequesterPc): nat {
    match pc
    case Idle => 0
    case Releasing(_) => 1
    case Answered(_) => 2
    case Abandoning => 2
    case Reading => 3
    case Holding(_) => 4
    case Polled(_) => 5
    case Waiting => 6
    case Allocated => 20
  }

  function ResolverRank(pc: ResolverPc): nat {
    match pc
    case Listening => 0
    case Unlocking(_) => 1
    case Freeing(_) => 1
    case Marking(_) => 2
    case Dropping(_) => 2
    case Replying(_) => 3
    case Checking(_) => 4
    case Resolved(_) => 5
    case Received(_) => 6
  }

  function Work(s: State): nat {
    RequesterRank(s.rq) + ResolverRank(s.rs) + 7 * |s.requests|
  }

  lemma MutexUsesWork(s: State)
    requires s.rq.Polled? || s.rq.Holding? || s.rq.Abandoning? || s.rq.Answered?
    requires s.cur in s.heap && MutexStep(s) != s
    ensures RequesterRank(MutexStep(s).rq) < RequesterRank(s.rq)
  {}

  lemma RequesterUsesWork(s: State, ok: bool)
    requires (s.rq != Idle ==> s.cur in s.heap) && RequesterStep(s, ok) != s
    ensures Work(RequesterStep(s, ok)) < Work(s)
  {
    if s.rq.Polled? || s.rq.Holding? || s.rq.Abandoning? || s.rq.Answered? {
      MutexUsesWork(s);
    }
  }

  lemma ResolverUsesWork(s: State, ok: bool, ip: nat)
    requires HeapOk(s) && ResolverStep(s, ok, ip) != s
    ensures Work(ResolverStep(s, ok, ip)) < Work(s)
  {
    assert !s.rs.Listening? ==> ResolverHas(s, s.rs.id) && s.rs.id in s.heap;
  }

  /** Every action of the run changes the state and none of them is a new call. */
  ghost predicate Busy(s: State, run: seq<Action>)
    decreases |run|
  {
    run != [] ==> !run[0].Call? && Step(s, run[0]) != s && Busy(Step(s, run[0]), run[1..])
  }

  /**
   Between two calls the threads take a bounded number of steps, so they always come to a state
   as described by `StuckExactly`.
   */
  lemma {:induction false} WorkRunsOut(s: State, run: seq<Action>)
    requires Inv(s) && Busy(s, run)
    ensures |run| <= Work(s)
    decreases |run|
  {
    if run != [] {
      StepKeeps(s, run[0]);
      match run[0] {
        case Requester(ok) =>
          assert s.rq != Idle ==> RequesterHas(s, s.cur);
          RequesterUsesWork(s, ok);
        case Resolver(ok, ip) => ResolverUsesWork(s, ok, ip);
      }
      WorkRunsOut(Step(s, run[0]), run[1..]);
    }
  }

  lemma {:induction false} LostOnlyByFailedWrite(s: State, run: seq<Action>)
    requires !s.lost && forall a :: a in run && a.Resolver? ==> a.ok
    ensures !Run(s, run).lost
    decreases |run|
  {
    if run != [] {
      assert run[0] in run;
      LostOnlyByFailedWrite(Step(s, run[0]), run[1..]);
    }
  }

  /** When no answer write fails, the threads stop only with every block freed and every call returned. */
  lemma StopsClean(run: seq<Action>)
    requires forall a :: a in run && a.Resolver? ==> a.ok
    ensures var s := Run(Initial, run);
            Stuck(s) ==> s.rq == Idle && s.heap == map[] && forall id: nat :: id < s.next ==> id in s.freed
  {
    LostOnlyByFailedWrite(Initial, run);
    StuckExactly(run);
    EveryBlockFreedOnce(run);
  }

  lemma {:induction false} RunThen(s: State, run: seq<Action>, a: Action)
    ensures Run(s, run + [a]) == Step(Run(s, run), a)
    decreases |run|
  {
    if run == [] {
      assert ([] + [a])[1..] == [];
    } else {
      assert (run + [a])[1..] == run[1..] + [a];
      RunThen(Step(s, run[0]), run[1..], a);
    }
  }

  /** A run with one failed answer write and a poll timeout: its states and actions after the call. */
  ghost function LostAnswerState(i: nat): State {
    var valid := Block("upf", if i < 3 then 0 else 7, true, i >= 7,
                       if 4 <= i <= 7 then ByResolver else if i >= 10 then ByRequester else Nobody);
    State(map[0 := valid], 1, if i == 1 then [0] else [], [],
          if i == 0 then Allocated else if i <= 8 then Waiting else if i == 9 then Polled(true)
          else if i == 10 then Holding(true) else Reading,
          0, "upf",
          if i <= 1 then Listening else if i == 2 then Received(0) else if i == 3 then Resolved(0)
          else if i == 4 then Checking(0) else if i == 5 then Replying(0) else if i == 6 then Marking(0)
          else if i == 7 then Unlocking(0) else Listening,
          [], if i < 3 then map[] else map[0 := 7], [], i >= 6, false)
  }

  ghost function LostAnswerAction(i: nat): Action {
    if i == 0 then Requester(true) else if i < 8 then Resolver(i != 5, 7) else Requester(i != 8)
  }

  lemma LostAnswerWritten(i: nat)
    requires 1 <= i < 8
    ensures ResolverStep(LostAnswerState(i), i != 5, 7) == LostAnswerState(i + 1)
  {}

  lemma LostAnswerAwaited(i: nat)
    requires i == 0 || 8 <= i < 11
    ensures RequesterStep(LostAnswerState(i), i != 8) == LostAnswerState(i + 1)
  {}

  lemma LostAnswerStep(i: nat)
    requires i < 11
    ensures Step(LostAnswerState(i), LostAnswerAction(i)) == LostAnswerState(i + 1)
  {
    if 1 <= i < 8 {
      LostAnswerWritten(i);
    } else {
      LostAnswerAwaited(i);
    }
  }

  /** The deadlock is real. */
  lemma FailedWriteDeadlocks()
    ensures exists run :: Stuck(Run(Initial, run)) && WaitsForLostAnswer(Run(Initial, run))
  {
    var run := [Call("upf")];
    assert Run(Initial, run) == LostAnswerState(0);
    for i := 0 to 11
      invariant Run(Initial, run) == LostAnswerState(i)
    {
      RunThen(Initial, run, LostAnswerAction(i));
      LostAnswerStep(i);
      run := run + [LostAnswerAction(i)];
    }
    StuckExactly(run);
  }
}
