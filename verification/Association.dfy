/**
 PFCP association setup with buffered attaches: cp/procedures/proc_pfcp_assoc_setup.c, and the
 parts of cp/upf.c and cp/procedures/proc_initial_attach.c that start it. Attaches that find the
 UPF not associated are buffered; a success or failure event that is queued when the association
 attempt ends, or the timeout of the attempt, wakes them.

 The functions define each handler on values; class `UpfContext` updates a context in place, and is proved equal.
 */
module Association {
  import opened Basics


  /** upf_context.state: 0, PFCP_ASSOC_REQ_SNT_STATE, PFCP_ASSOC_RESP_RCVD_STATE. */
  datatype Link = Down | Requested | Up

  /** What reaches the context through the event queue; `resolved` says the UPF's name has an address. */
  datatype Input =
    | Attach(resolved: bool)
    | Response(proc: nat, accepted: bool)
    | RetryTimer(resolved: bool)
    /** upf_down_event. */
    | Reset
    /** An association request of the UPF's own. */
    | SetupRequest

  /** One queue holds the inputs and the events the handlers queue for themselves. */
  datatype Event = SetupSuccess | SetupFailure | Message(input: Input)

  datatype Verdict = Verdict(attach: nat, success: bool)

  /**
   `buffer` holds waiting attaches, newest first; `proc` the association procedure the context
   points at; `open` the procedures whose request is in the transaction table and `armed` those
   of them whose timer runs; `events` the queue of this UPF's messages and events. `verdicts` and `waited` are
   history: what was delivered, and every attach that was ever buffered. `hung` and `crashed`
   record a drain loop that never ends and a null procedure being completed.
   */
  datatype Upf = Upf(
    link: Link,
    buffer: seq<nat>,
    proc: Option<nat>,
    open: set<nat>,
    armed: set<nat>,
    events: seq<Event>,
    nextProc: nat,
    nextAttach: nat,
    waited: set<nat>,
    verdicts: seq<Verdict>,
    hung: bool,
    crashed: bool)

  const Fresh := Upf(Down, [], None, {}, {}, [], 0, 0, {}, [], false, false)

  // ------------------------------------------------------------------ the handlers on values

  /** alloc_pfcp_association_setup_proc and association_setup_handler; `resolved` says the name has an address. */
  function StartSetup(u: Upf, resolved: bool): Upf {
    var p := u.nextProc;
    var u1 := u.(proc := Some(p), nextProc := p + 1);
    if resolved then u1.(open := u1.open + {p}, armed := u1.armed + {p}, link := Requested)
    else u1.(link := Down, events := u1.events + [SetupFailure])
  }

  function Buffer(u: Upf, attach: nat): Upf {
    u.(buffer := [attach] + u.buffer, waited := u.waited + {attach})
  }

  /** initiate_upf_session: an associated UPF serves the attach at once. */
  function InitiateSession(u: Upf, attach: nat, resolved: bool): Upf {
    match u.link
    case Up => u
    case Requested => Buffer(u, attach)
    case Down => StartSetup(Buffer(u, attach), resolved)
  }

  /** end_upf_procedure on the context's current procedure: unlink it and drop its transaction. */
  function EndProc(u: Upf): Upf
    requires u.proc.Some?
  {
    u.(proc := None, open := u.open - {u.proc.value}, armed := u.armed - {u.proc.value})
  }

  function Deliver(u: Upf, success: bool): Upf {
    if u.buffer == [] then u else
    u.(buffer := u.buffer[1..], verdicts := u.verdicts + [Verdict(u.buffer[0], success)])
  }

  function DeliverAll(u: Upf, success: bool): Upf
    decreases |u.buffer|
  {
    if u.buffer == [] then u else DeliverAll(Deliver(u, success), success)
  }

  /** upf_pfcp_setup_failure. */
  function SetupFailed(u: Upf): Upf {
    var u1 := DeliverAll(u, false);
    if u1.proc.Some? then EndProc(u1.(link := Down)) else u1
  }

  /**
   upf_pfcp_setup_success. The drain hands each attach back to initiate_upf_session, which buffers
   it again unless the UPF is associated; `DrainNeverEnds` shows the loop then runs forever.
   */
  function SetupSucceeded(u: Upf): Upf {
    if u.buffer != [] && u.link != Up then u.(hung := true) else
    var u1 := DeliverAll(u, true);
    if u1.proc.Some? then EndProc(u1) else u1.(crashed := true)
  }

  function Receive(u: Upf, p: nat, accepted: bool): Upf {
    if p !in u.open then u else
    var u1 := u.(open := u.open - {p}, armed := u.armed - {p});
    if accepted then u1.(link := Up, events := u1.events + [SetupSuccess])
    else u1.(link := Down, events := u1.events + [SetupFailure])
  }

  function HandleInput(u: Upf, input: Input): Upf {
    match input
    case Attach(resolved) => InitiateSession(u.(nextAttach := u.nextAttach + 1), u.nextAttach, resolved)
    case Response(p, accepted) => Receive(u, p, accepted)
    case RetryTimer(resolved) => if u.link == Down then StartSetup(u, resolved) else u
    case Reset => u.(link := Down)
    case SetupRequest => u.(link := Up)
  }

  function HandleEvent(u: Upf, e: Event): Upf {
    match e
    case SetupSuccess => SetupSucceeded(u)
    case SetupFailure => SetupFailed(u)
    case Message(input) => HandleInput(u, input)
  }

  /** An input joins the queue, the head of the queue is handled, or a request times out, which does not go by the queue. */
  datatype Step = Arrive(input: Input) | Process | Timeout(proc: nat)

  /** A response can only come to a request that was made. */
  predicate CanArrive(u: Upf, input: Input) {
    input.Response? ==> input.proc < u.nextProc
  }

  function Next(u: Upf, step: Step): Upf {
    if u.hung || u.crashed then u else
    match step
    case Arrive(input) => if CanArrive(u, input) then u.(events := u.events + [Message(input)]) else u
    case Process => if u.events == [] then u else HandleEvent(u.(events := u.events[1..]), u.events[0])
    case Timeout(p) => if p !in u.armed then u else SetupFailed(u.(armed := u.armed - {p}))
  }

  // ------------------------------------------------------------------ the drain loops

  lemma {:induction false} DeliverAllEmpties(u: Upf, success: bool)
    ensures var u' := DeliverAll(u, success);
            && u' == u.(buffer := [], verdicts := u'.verdicts)
            && u'.verdicts == u.verdicts + seq(|u.buffer|, i requires 0 <= i < |u.buffer| => Verdict(u.buffer[i], success))
    decreases |u.buffer|
  {
    if u.buffer != [] {
      var u1 := Deliver(u, success);
      DeliverAllEmpties(u1, success);
      assert forall i :: 0 <= i < |u1.buffer| ==> u1.buffer[i] == u.buffer[i + 1];
    }
  }

  /** One pass of the success drain, as written: take the first attach and hand it to initiate_upf_session. */
  function DrainPass(u: Upf, resolved: bool): Upf
    requires u.buffer != []
  {
    var u1 := u.(buffer := u.buffer[1..]);
    if u.link == Up then u1.(verdicts := u1.verdicts + [Verdict(u.buffer[0], true)])
    else InitiateSession(u1, u.buffer[0], resolved)
  }

  function DrainPasses(u: Upf, resolved: seq<bool>): Upf
    decreases |resolved|
  {
    if resolved == [] || u.buffer == [] then u else DrainPasses(DrainPass(u, resolved[0]), resolved[1..])
  }

  /** On an associated UPF the passes deliver one verdict each and end with an empty buffer ... */
  lemma {:induction false} DrainEnds(u: Upf, resolved: seq<bool>)
    requires u.link == Up && |resolved| == |u.buffer|
    ensures DrainPasses(u, resolved) == DeliverAll(u, true)
    decreases |resolved|
  {
    if u.buffer != [] {
      DrainEnds(DrainPass(u, resolved[0]), resolved[1..]);
    }
  }

  /** ... otherwise, however often it goes round, no attach leaves the buffer. */
  lemma {:induction false} DrainNeverEnds(u: Upf, resolved: seq<bool>)
    requires u.link != Up && u.buffer != []
    ensures var u' := DrainPasses(u, resolved);
            u'.buffer == u.buffer && u'.link != Up && u'.verdicts == u.verdicts
    decreases |resolved|
  {
    if resolved != [] {
      assert [u.buffer[0]] + u.buffer[1..] == u.buffer;
      DrainNeverEnds(DrainPass(u, resolved[0]), resolved[1..]);
    }
  }

  // ------------------------------------------------------------------ invariants

  /** While a request is said to be out, the current procedure's transaction is there to end it. */
  ghost predicate RequestOut(u: Upf) {
    u.link == Requested ==> u.proc.Some? && u.proc.value in u.armed
  }

  /** No lost wake-up: a request's timer runs or an event that wakes is queued. */
  ghost predicate WillWake(u: Upf) {
    u.buffer != [] ==> u.armed != {} || SetupSuccess in u.events || SetupFailure in u.events
  }

  function Receivers(verdicts: seq<Verdict>): seq<nat> {
    if verdicts == [] then [] else Receivers(verdicts[..|verdicts| - 1]) + [verdicts[|verdicts| - 1].attach]
  }

  /** Every attach that waited is either in the buffer, once, or has received one verdict, not both. */
  ghost predicate OneVerdictEach(u: Upf) {
    && multiset(u.buffer) + multiset(Receivers(u.verdicts)) == multiset(u.waited)
    && (forall a :: a in u.waited ==> a < u.nextAttach)
  }

  ghost predicate Inv(u: Upf) {
    RequestOut(u) && WillWake(u) && OneVerdictEach(u)
  }

  lemma {:induction false} DeliverAllVerdicts(u: Upf, success: bool)
    requires OneVerdictEach(u)
    ensures OneVerdictEach(DeliverAll(u, success))
    decreases |u.buffer|
  {
    if u.buffer != [] {
      var u1 := Deliver(u, success);
      assert u.buffer == [u.buffer[0]] + u1.buffer;
      assert u1.verdicts[..|u.verdicts|] == u.verdicts;
      DeliverAllVerdicts(u1, success);
    }
  }

  lemma SetupFailedKeeps(u: Upf)
    requires RequestOut(u) || u.proc.Some?
    requires OneVerdictEach(u)
    ensures Inv(SetupFailed(u)) && SetupFailed(u).buffer == []
  {
    DeliverAllEmpties(u, false);
    DeliverAllVerdicts(u, false);
  }

  /** What must hold when a success event is handled: a caller can read it off the context. */
  ghost predicate SuccessIsTimely(u: Upf) {
    u.proc.Some? && (u.link == Up || (u.link == Down && u.buffer == []))
  }

  /**
   Exactly when handling a success event is safe: the drain ends, nothing null is completed and
   no later attach can be stranded.
   */
  lemma SuccessExactly(u: Upf)
    requires RequestOut(u) && OneVerdictEach(u) && !u.hung && !u.crashed
    ensures var u' := SetupSucceeded(u);
            !u'.hung && !u'.crashed && Inv(u') <==> SuccessIsTimely(u)
    ensures SuccessIsTimely(u) ==> SetupSucceeded(u).buffer == []
  {
    DeliverAllEmpties(u, true);
    DeliverAllVerdicts(u, true);
  }

  lemma BufferKeeps(u: Upf, attach: nat)
    requires OneVerdictEach(u) && attach !in u.waited && attach < u.nextAttach
    ensures OneVerdictEach(Buffer(u, attach))
  {
    assert multiset(Buffer(u, attach).waited) == multiset(u.waited) + multiset{attach};
  }

  /** Success events are handled while the association they report still stands. */
  ghost predicate Timely(u: Upf, step: Step) {
    step == Process && u.events != [] && u.events[0] == SetupSuccess ==> SuccessIsTimely(u)
  }

  lemma SetupKeeps(u: Upf, resolved: bool)
    requires OneVerdictEach(u)
    ensures Inv(StartSetup(u, resolved))
  {}

  lemma ReceiveKeeps(u: Upf, p: nat, accepted: bool)
    requires Inv(u)
    ensures Inv(Receive(u, p, accepted))
  {}

  lemma AttachKeeps(u: Upf, resolved: bool)
    requires Inv(u)
    ensures Inv(HandleInput(u, Attach(resolved)))
  {
    var u1 := u.(nextAttach := u.nextAttach + 1);
    BufferKeeps(u1, u.nextAttach);
    if u.link == Down {
      SetupKeeps(Buffer(u1, u.nextAttach), resolved);
    }
  }

  lemma InputKeeps(u: Upf, input: Input)
    requires Inv(u) && !u.hung && !u.crashed
    ensures var u' := HandleInput(u, input); Inv(u') && !u'.hung && !u'.crashed
  {
    match input
    case Attach(resolved) => AttachKeeps(u, resolved);
    case Response(p, accepted) => ReceiveKeeps(u, p, accepted);
    case RetryTimer(resolved) => if u.link == Down { SetupKeeps(u, resolved); }
    case Reset =>
    case SetupRequest =>
  }

  lemma ProcessKeeps(u: Upf)
    requires Inv(u) && !u.hung && !u.crashed && u.events != [] && Timely(u, Process)
    ensures var u' := Next(u, Process); Inv(u') && !u'.hung && !u'.crashed
    ensures !u.events[0].Message? ==> Next(u, Process).buffer == []
  {
    var u1 := u.(events := u.events[1..]);
    assert u.events == [u.events[0]] + u1.events;
    match u.events[0]
    case Message(input) => InputKeeps(u1, input);
    case SetupFailure =>
      SetupFailedKeeps(u1);
      DeliverAllEmpties(u1, false);
    case SetupSuccess =>
      SuccessExactly(u1);
      DeliverAllEmpties(u1, true);
  }

  lemma TimeoutKeeps(u: Upf, p: nat)
    requires Inv(u) && !u.hung && !u.crashed && p in u.armed
    ensures var u' := Next(u, Timeout(p)); Inv(u') && !u'.hung && !u'.crashed && u'.buffer == []
  {
    var u1 := u.(armed := u.armed - {p});
    DeliverAllEmpties(u1, false);
    DeliverAllVerdicts(u1, false);
  }

  lemma NextKeeps(u: Upf, step: Step)
    requires Inv(u) && !u.hung && !u.crashed && Timely(u, step)
    ensures var u' := Next(u, step); Inv(u') && !u'.hung && !u'.crashed
  {
    match step
    case Arrive(_) =>
    case Process => if u.events != [] { ProcessKeeps(u); }
    case Timeout(p) => if p in u.armed { TimeoutKeeps(u, p); }
  }

  function RunSteps(u: Upf, steps: seq<Step>): Upf
    decreases |steps|
  {
    if steps == [] then u else RunSteps(Next(u, steps[0]), steps[1..])
  }

  /** It also ends the current procedure and its request, and leaves no association unless a success made it. */
  lemma WakingEnds(u: Upf, step: Step)
    requires !u.hung && !u.crashed && Timely(u, step)
    requires (step == Process && u.events != [] && !u.events[0].Message?) || (step.Timeout? && step.proc in u.armed)
    ensures var u' := Next(u, step);
            && u'.proc == None && (u.proc.Some? ==> u.proc.value !in u'.open && u.proc.value !in u'.armed)
            && u'.link == (if (step == Process && u.events[0] == SetupSuccess) || u.proc == None then u.link else Down)
  {
    if step.Timeout? {
      DeliverAllEmpties(u.(armed := u.armed - {step.proc}), false);
    } else {
      DeliverAllEmpties(u.(events := u.events[1..]), u.events[0] == SetupSuccess);
    }
  }

  /** Whatever comes first, the timer of a request or the next waking event, gives every waiting attach its verdict. */
  lemma WakingServesAll(u: Upf, step: Step)
    requires Inv(u) && !u.hung && !u.crashed && Timely(u, step)
    requires (step == Process && u.events != [] && !u.events[0].Message?) || (step.Timeout? && step.proc in u.armed)
    ensures var u' := Next(u, step);
            && u'.buffer == []
            && multiset(Receivers(u'.verdicts)) == multiset(Receivers(u.verdicts)) + multiset(u.buffer)
  {
    var u' := Next(u, step);
    NextKeeps(u, step);
    if step.Timeout? {
      TimeoutKeeps(u, step.proc);
      DeliverAllEmpties(u.(armed := u.armed - {step.proc}), false);
    } else {
      ProcessKeeps(u);
      DeliverAllEmpties(u.(events := u.events[1..]), false);
      DeliverAllEmpties(u.(events := u.events[1..]), true);
    }
    assert u'.waited == u.waited && multiset(u'.buffer) == multiset{};
    assert multiset(Receivers(u'.verdicts)) == multiset(u.waited);
  }

  // ------------------------------------------------------------------ which inputs keep events timely

  /** A response that will be taken: its request is still open. */
  predicate Answers(u: Upf, e: Event) {
    e.Message? && e.input.Response? && e.input.proc in u.open
  }

  /** One request at most is open, that of the current procedure. */
  ghost predicate OneRequest(u: Upf) {
    && u.armed == u.open
    && (forall p :: p in u.open ==> u.proc == Some(p))
    && (u.open != {} ==> u.link != Down)
    && (u.proc.Some? ==> u.proc.value < u.nextProc)
    && (forall i :: 0 <= i < |u.events| && u.events[i].Message? && u.events[i].input.Response? ==>
          u.events[i].input.proc < u.nextProc)
  }

  /** A queued success is the only event, and its association stands. */
  ghost predicate SuccessStands(u: Upf) {
    SetupSuccess in u.events ==>
      && u.link == Up && u.proc.Some? && u.open == {}
      && SetupFailure !in u.events && multiset(u.events)[SetupSuccess] == 1
  }

  /** No failure is queued behind a response that will be taken. */
  ghost predicate FailuresFirst(u: Upf) {
    forall i, j :: 0 <= i < j < |u.events| && Answers(u, u.events[i]) ==> u.events[j] != SetupFailure
  }

  ghost predicate Orderly(u: Upf) {
    OneRequest(u) && SuccessStands(u) && FailuresFirst(u)
  }

  /** A reset is handled only while no request is open and no success is queued. */
  ghost predicate Quiet(u: Upf, step: Step) {
    step == Process && u.events != [] && u.events[0] == Message(Reset) ==> u.open == {} && SetupSuccess !in u.events
  }

  lemma ArriveOrderly(u: Upf, input: Input)
    requires Orderly(u) && CanArrive(u, input)
    ensures Orderly(u.(events := u.events + [Message(input)]))
  {
    var u' := u.(events := u.events + [Message(input)]);
    forall i, j | 0 <= i < j < |u'.events| && Answers(u', u'.events[i]) ensures u'.events[j] != SetupFailure {
      assert j < |u.events| ==> Answers(u, u.events[i]);
    }
  }

  /** Taking the head off the queue. */
  lemma PoppedOrderly(u: Upf)
    requires Orderly(u) && u.events != []
    ensures Orderly(u.(events := u.events[1..]))
    ensures u.events[0] == SetupSuccess ==> SetupSuccess !in u.events[1..] && SetupFailure !in u.events[1..]
    ensures Answers(u, u.events[0]) ==> SetupFailure !in u.events[1..] && SetupSuccess !in u.events[1..]
  {
    var rest := u.events[1..];
    assert u.events == [u.events[0]] + rest;
    assert forall i :: 0 <= i < |rest| ==> rest[i] == u.events[i + 1];
    if SetupSuccess in rest {
      assert SetupSuccess in u.events;
      assert multiset(rest)[SetupSuccess] >= 1;
    }
  }

  lemma StartOrderly(u: Upf, resolved: bool)
    requires Orderly(u) && u.link == Down
    ensures Orderly(StartSetup(u, resolved))
  {
    var u' := StartSetup(u, resolved);
    assert SetupSuccess !in u.events && u.open == {};
  }

  lemma ReceiveOrderly(u: Upf, p: nat, accepted: bool)
    requires Orderly(u)
    requires p in u.open ==> SetupFailure !in u.events && SetupSuccess !in u.events
    ensures Orderly(Receive(u, p, accepted))
  {
    if p in u.open {
      var u' := Receive(u, p, accepted);
      assert u'.open == {};
      assert multiset(u.events)[SetupSuccess] == 0;
    }
  }

  lemma BufferOrderly(u: Upf, attach: nat)
    requires Orderly(u)
    ensures Orderly(Buffer(u.(nextAttach := u.nextAttach + 1), attach))
  {
    var u' := Buffer(u.(nextAttach := u.nextAttach + 1), attach);
    assert forall e :: Answers(u', e) <==> Answers(u, e);
  }

  lemma AttachOrderly(u: Upf, resolved: bool)
    requires Orderly(u)
    ensures Orderly(HandleInput(u, Attach(resolved)))
  {
    if u.link == Up {
      var u' := u.(nextAttach := u.nextAttach + 1);
      assert forall e :: Answers(u', e) <==> Answers(u, e);
    } else {
      BufferOrderly(u, u.nextAttach);
      if u.link == Down {
        StartOrderly(Buffer(u.(nextAttach := u.nextAttach + 1), u.nextAttach), resolved);
      }
    }
  }

  lemma LinkOrderly(u: Upf, link: Link)
    requires Orderly(u) && (link == Up || (link == Down && u.open == {} && SetupSuccess !in u.events))
    ensures Orderly(u.(link := link))
  {
    assert forall e :: Answers(u.(link := link), e) <==> Answers(u, e);
  }

  lemma InputOrderly(u: Upf, input: Input)
    requires Orderly(u)
    requires input == Reset ==> u.open == {} && SetupSuccess !in u.events
    requires input.Response? && input.proc in u.open ==> SetupFailure !in u.events && SetupSuccess !in u.events
    ensures Orderly(HandleInput(u, input))
  {
    match input
    case Attach(resolved) => AttachOrderly(u, resolved);
    case Response(p, accepted) => ReceiveOrderly(u, p, accepted);
    case RetryTimer(resolved) => if u.link == Down { StartOrderly(u, resolved); }
    case Reset => LinkOrderly(u, Down);
    case SetupRequest => LinkOrderly(u, Up);
  }

  /** Handling a failure, or a success whose association stands, ends the one request there may be. */
  lemma DrainOrderly(u: Upf, success: bool)
    requires Orderly(u) && (success ==> u.link == Up && u.proc.Some? && SetupSuccess !in u.events)
    requires !success ==> SetupSuccess !in u.events
    ensures Orderly(if success then SetupSucceeded(u) else SetupFailed(u))
  {
    DeliverAllEmpties(u, success);
    var u' := if success then SetupSucceeded(u) else SetupFailed(u);
    assert u'.events == u.events && u'.open == {};
  }

  /** Quiet steps keep this order, and in it success events are timely. */
  lemma QuietKeeps(u: Upf, step: Step)
    requires Orderly(u) && !u.hung && !u.crashed && Quiet(u, step)
    ensures Orderly(Next(u, step)) && Timely(u, step)
  {
    match step
    case Arrive(input) => if CanArrive(u, input) { ArriveOrderly(u, input); }
    case Process =>
      if u.events != [] {
        var u1 := u.(events := u.events[1..]);
        PoppedOrderly(u);
        assert u.events[0] in u.events;
        match u.events[0] {
          case Message(input) =>
            assert forall e :: e in u1.events ==> e in u.events;
            InputOrderly(u1, input);
          case SetupFailure =>
            assert SetupSuccess in u1.events ==> SetupSuccess in u.events;
            DrainOrderly(u1, false);
          case SetupSuccess => DrainOrderly(u1, true);
        }
      }
    case Timeout(p) =>
      if p in u.armed {
        var u1 := u.(armed := u.armed - {p});
        DeliverAllEmpties(u1, false);
        assert Next(u, step).open == {} && Next(u, step).events == u.events;
      }
  }

  ghost predicate QuietRun(u: Upf, steps: seq<Step>)
    decreases |steps|
  {
    steps != [] ==> Quiet(u, steps[0]) && QuietRun(Next(u, steps[0]), steps[1..])
  }

  lemma {:induction false} RunKeeps(u: Upf, steps: seq<Step>)
    requires Inv(u) && Orderly(u) && !u.hung && !u.crashed && QuietRun(u, steps)
    ensures var u' := RunSteps(u, steps); Inv(u') && !u'.hung && !u'.crashed
    decreases |steps|
  {
    if steps != [] {
      QuietKeeps(u, steps[0]);
      NextKeeps(u, steps[0]);
      RunKeeps(Next(u, steps[0]), steps[1..]);
    }
  }

  /**
   In every quiet run no attach is left waiting without a timer or a queued event that will wake it, the waiting
   attaches and the delivered verdicts are together exactly the attaches that ever waited, and neither a drain loop
   nor a completion goes wrong.
   */
  lemma NoLostWakeUp(steps: seq<Step>)
    requires QuietRun(Fresh, steps)
    ensures var u := RunSteps(Fresh, steps);
            && WillWake(u)
            && multiset(u.buffer) + multiset(Receivers(u.verdicts)) == multiset(u.waited)
            && !u.hung && !u.crashed
  {
    RunKeeps(Fresh, steps);
  }

  lemma {:induction false} NoResetIsQuiet(u: Upf, steps: seq<Step>)
    requires Message(Reset) !in u.events && Arrive(Reset) !in steps
    ensures QuietRun(u, steps)
    decreases |steps|
  {
    if steps != [] {
      assert steps[0] in steps && forall s :: s in steps[1..] ==> s in steps;
      DeliverAllEmpties(u, true);
      DeliverAllEmpties(u, false);
      NoResetStays(u, steps[0]);
      NoResetIsQuiet(Next(u, steps[0]), steps[1..]);
    }
  }

  lemma NoResetStays(u: Upf, step: Step)
    requires Message(Reset) !in u.events && step != Arrive(Reset)
    ensures Message(Reset) !in Next(u, step).events
  {
    if step.Timeout? {
      DeliverAllEmpties(u.(armed := u.armed - {step.proc}), false);
    } else if step.Process? && u.events != [] {
      var u1 := u.(events := u.events[1..]);
      assert forall e :: e in u1.events ==> e in u.events;
      DeliverAllEmpties(u1, true);
      DeliverAllEmpties(u1, false);
    }
  }

  /** In particular in every run in which the association is never reset, whatever else arrives and times out. */
  lemma NoResetNoLostWakeUp(steps: seq<Step>)
    requires Arrive(Reset) !in steps
    ensures var u := RunSteps(Fresh, steps);
            && WillWake(u)
            && multiset(u.buffer) + multiset(Receivers(u.verdicts)) == multiset(u.waited)
            && !u.hung && !u.crashed
  {
    NoResetIsQuiet(Fresh, steps);
    NoLostWakeUp(steps);
  }

  // ------------------------------------------------------------------ which verdict, and from what

  /** The same verdict for each of them, in the order of the buffer. */
  function ToAll(buffer: seq<nat>, success: bool): seq<Verdict> {
    seq(|buffer|, i requires 0 <= i < |buffer| => Verdict(buffer[i], success))
  }

  /** The verdicts a step delivers: failures on a time-out or a failure event, successes on a success event. */
  function Delivered(u: Upf, step: Step): seq<Verdict> {
    match step
    case Arrive(_) => []
    case Timeout(p) => if p in u.armed then ToAll(u.buffer, false) else []
    case Process =>
      if u.events == [] || u.events[0].Message? then []
      else if u.events[0] == SetupFailure then ToAll(u.buffer, false)
      else if u.link == Up then ToAll(u.buffer, true)
      else []
  }

  /** What a step puts into the queue: a success for an accepted response, a failure for a refused one or an unresolved name. */
  function Queued(u: Upf, step: Step): seq<Event> {
    match step
    case Arrive(input) => if CanArrive(u, input) then [Message(input)] else []
    case Timeout(_) => []
    case Process =>
      if u.events == [] || !u.events[0].Message? then []
      else match u.events[0].input
           case Response(p, accepted) => if p !in u.open then [] else if accepted then [SetupSuccess] else [SetupFailure]
           case Attach(resolved) => if u.link == Down && !resolved then [SetupFailure] else []
           case RetryTimer(resolved) => if u.link == Down && !resolved then [SetupFailure] else []
           case _ => []
  }

  lemma DrainedVerdicts(u: Upf, success: bool)
    ensures DeliverAll(u, success) == u.(buffer := [], verdicts := u.verdicts + ToAll(u.buffer, success))
  {
    DeliverAllEmpties(u, success);
    var d := DeliverAll(u, success);
    assert d.verdicts == u.verdicts + ToAll(u.buffer, success);
  }

  /** A step delivers exactly those verdicts and queues exactly those events. */
  lemma StepDelivers(u: Upf, step: Step)
    requires !u.hung && !u.crashed
    ensures Next(u, step).verdicts == u.verdicts + Delivered(u, step)
    ensures Next(u, step).events == (if step == Process && u.events != [] then u.events[1..] else u.events) + Queued(u, step)
  {
    match step
    case Arrive(_) =>
    case Timeout(p) => DrainedVerdicts(u.(armed := u.armed - {p}), false);
    case Process =>
      if u.events != [] && !u.events[0].Message? {
        DrainedVerdicts(u.(events := u.events[1..]), u.events[0] == SetupSuccess);
      }
  }

  /** The step takes an accepted response to an open request. */
  predicate Accepts(u: Upf, step: Step) {
    SetupSuccess in Queued(u, step)
  }

  ghost predicate NeverAccepts(u: Upf, steps: seq<Step>)
    decreases |steps|
  {
    steps != [] ==> !Accepts(u, steps[0]) && NeverAccepts(Next(u, steps[0]), steps[1..])
  }

  predicate AllFailed(verdicts: seq<Verdict>) {
    forall i :: 0 <= i < |verdicts| ==> !verdicts[i].success
  }

  /** Without one no attach ever gets a success verdict, reset or not, quiet or not. */
  lemma {:induction false} SuccessNeedsAcceptance(u: Upf, steps: seq<Step>)
    requires SetupSuccess !in u.events && AllFailed(u.verdicts) && NeverAccepts(u, steps)
    ensures AllFailed(RunSteps(u, steps).verdicts)
    decreases |steps|
  {
    if steps != [] {
      var v := Next(u, steps[0]);
      if !u.hung && !u.crashed {
        StepDelivers(u, steps[0]);
        assert u.events != [] ==> u.events[0] in u.events && forall e :: e in u.events[1..] ==> e in u.events;
      }
      SuccessNeedsAcceptance(v, steps[1..]);
    }
  }

  /** An input that makes an association: an accepted response or the UPF's own request. */
  predicate Associates(input: Input) {
    input == SetupRequest || (input.Response? && input.accepted)
  }

  /** Nothing of the kind has come. */
  ghost predicate Unassociated(u: Upf) {
    && u.link != Up && SetupSuccess !in u.events && AllFailed(u.verdicts)
    && forall i :: 0 <= i < |u.events| && u.events[i].Message? ==> !Associates(u.events[i].input)
  }

  lemma UnassociatedStep(u: Upf, step: Step)
    requires Unassociated(u) && (step.Arrive? ==> !Associates(step.input))
    ensures Unassociated(Next(u, step))
  {
    if !u.hung && !u.crashed {
      StepDelivers(u, step);
      assert u.events != [] ==> u.events[0] in u.events && forall e :: e in u.events[1..] ==> e in u.events;
      if step.Timeout? {
        DrainedVerdicts(u.(armed := u.armed - {step.proc}), false);
      } else if u.events != [] {
        DrainedVerdicts(u.(events := u.events[1..]), false);
      }
    }
  }

  /** Without such an input the UPF is never associated and every verdict is a failure. */
  lemma {:induction false} NeverAssociated(u: Upf, steps: seq<Step>)
    requires Unassociated(u) && forall i :: 0 <= i < |steps| && steps[i].Arrive? ==> !Associates(steps[i].input)
    ensures RunSteps(u, steps).link != Up && AllFailed(RunSteps(u, steps).verdicts)
    decreases |steps|
  {
    if steps != [] {
      UnassociatedStep(u, steps[0]);
      NeverAssociated(Next(u, steps[0]), steps[1..]);
    }
  }

  /** Once an association stands, by an accepted response or the UPF's own request, attaches are served without waiting. */
  lemma AssociatedServes(u: Upf, input: Input, resolved: bool)
    requires input == SetupRequest || (input.Response? && input.accepted && input.proc in u.open)
    ensures var v := HandleInput(u, input);
            v.link == Up && HandleInput(v, Attach(resolved)) == v.(nextAttach := v.nextAttach + 1)
  {}

  /** Otherwise an attach waits at the head of the buffer; if nothing is under way, a request of its own goes out or fails. */
  lemma UnassociatedWaits(u: Upf, resolved: bool)
    requires u.link != Up
    ensures var v := HandleInput(u, Attach(resolved));
            && v.buffer == [u.nextAttach] + u.buffer && u.nextAttach in v.waited && v.nextAttach == u.nextAttach + 1
            && v.link == (if u.link == Requested || resolved then Requested else Down)
            && (u.link == Down && resolved ==> v.proc == Some(u.nextProc) && u.nextProc in v.open && u.nextProc in v.armed)
            && (u.link == Down && !resolved ==> SetupFailure in v.events && v.open == u.open)
            && (u.link == Requested ==> v.proc == u.proc && v.open == u.open && v.events == u.events)
  {}

  // ------------------------------------------------------------------ what an untimely success does

  /** An event that could end the requested state. */
  predicate Rescues(e: Event) {
    e == SetupSuccess || e == SetupFailure || e == Message(Reset) || e == Message(SetupRequest)
  }

  /** A request is said to be out, but nothing is left that could end it. */
  ghost predicate Stranded(u: Upf) {
    u.link == Requested && u.open == {} && u.armed == {} && forall i :: 0 <= i < |u.events| ==> !Rescues(u.events[i])
  }

  /** A reset and a new request between an accepted response and its event: the event cancels the new request. */
  lemma UntimelySuccessStrands(u: Upf)
    requires u.link == Requested && u.proc.Some? && u.open == u.armed == {u.proc.value}
    requires u.events == [SetupSuccess] && u.buffer == [] && !u.hung && !u.crashed
    ensures Stranded(Next(u, Process))
  {}

  lemma StrandedStep(u: Upf, step: Step)
    requires Stranded(u) && !u.hung && !u.crashed && step != Arrive(Reset) && step != Arrive(SetupRequest)
    ensures var u' := Next(u, step);
            && Stranded(u') && !u'.hung && !u'.crashed && u'.verdicts == u.verdicts
            && u'.nextAttach >= u.nextAttach && |u'.buffer| == |u.buffer| + (u'.nextAttach - u.nextAttach)
  {
    if step.Process? && u.events != [] {
      assert !Rescues(u.events[0]);
    }
  }

  /** From there every attach handled stays waiting, until the gateway or the UPF resets the association from outside. */
  lemma {:induction false} StrandedForever(u: Upf, steps: seq<Step>)
    requires Stranded(u) && !u.hung && !u.crashed && Arrive(Reset) !in steps && Arrive(SetupRequest) !in steps
    ensures var u' := RunSteps(u, steps);
            && Stranded(u') && u'.verdicts == u.verdicts
            && u'.nextAttach >= u.nextAttach && |u'.buffer| == |u.buffer| + (u'.nextAttach - u.nextAttach)
    decreases |steps|
  {
    if steps != [] {
      assert steps[0] in steps && forall s :: s in steps[1..] ==> s in steps;
      StrandedStep(u, steps[0]);
      StrandedForever(Next(u, steps[0]), steps[1..]);
    }
  }

  lemma {:induction false} RunThen(u: Upf, first: seq<Step>, second: seq<Step>)
    ensures RunSteps(u, first + second) == RunSteps(RunSteps(u, first), second)
    decreases |first|
  {
    if first == [] {
      assert first + second == second;
    } else {
      assert (first + second)[1..] == first[1..] + second;
      RunThen(Next(u, first[0]), first[1..], second);
    }
  }

  lemma TwoSteps(u: Upf, a: Step, b: Step)
    ensures RunSteps(u, [a, b]) == Next(Next(u, a), b)
  {
    var v := Next(u, a);
    assert [a, b][1..] == [b] && [b][1..] == [];
    assert RunSteps(v, [b]) == RunSteps(Next(v, b), []);
  }

  const AskAndAccept := [Arrive(Attach(true)), Process, Arrive(Response(0, true)), Arrive(Reset)]

  /** An attach waits, the request is accepted, and a reset is queued before the response is handled. */
  const Accepted := Upf(Requested, [0], Some(0), {0}, {0}, [Message(Response(0, true)), Message(Reset)], 1, 1, {0}, [], false, false)

  lemma AcceptedReached()
    ensures RunSteps(Fresh, AskAndAccept) == Accepted
  {
    TwoSteps(Fresh, Arrive(Attach(true)), Process);
    var u := Next(Next(Fresh, Arrive(Attach(true))), Process);
    assert u == Upf(Requested, [0], Some(0), {0}, {0}, [], 1, 1, {0}, [], false, false);
    TwoSteps(u, Arrive(Response(0, true)), Arrive(Reset));
    assert AskAndAccept == [Arrive(Attach(true)), Process] + [Arrive(Response(0, true)), Arrive(Reset)];
    RunThen(Fresh, [Arrive(Attach(true)), Process], [Arrive(Response(0, true)), Arrive(Reset)]);
  }

  /** The drain then goes on for ever. */
  lemma HangReachable()
    ensures RunSteps(Fresh, AskAndAccept + [Process, Process] + [Process]).hung
  {
    AcceptedReached();
    RunThen(Fresh, AskAndAccept, [Process, Process]);
    TwoSteps(Accepted, Process, Process);
    var u1 := Next(Accepted, Process);
    assert u1.events == [Message(Reset), SetupSuccess];
    var u := Next(u1, Process);
    assert u.events == [SetupSuccess] && u.link == Down && u.buffer == [0];
    RunThen(Fresh, AskAndAccept + [Process, Process], [Process]);
    assert RunSteps(u, [Process]) == Next(u, Process);
  }

  /** With a new request in between, its answer lost, the association is left stranded. */
  lemma StrandedReachable()
    ensures exists steps :: Stranded(RunSteps(Fresh, steps))
  {
    var u0 := Upf(Requested, [], Some(0), {0}, {0}, [], 1, 0, {}, [], false, false);
    var s0 := [Arrive(RetryTimer(true)), Process];
    TwoSteps(Fresh, s0[0], s0[1]);
    assert RunSteps(Fresh, s0) == u0;
    var s1 := [Arrive(Response(0, true)), Arrive(Reset)];
    TwoSteps(u0, s1[0], s1[1]);
    var u1 := u0.(events := [Message(Response(0, true)), Message(Reset)]);
    assert RunSteps(u0, s1) == u1;
    var s2 := [Arrive(RetryTimer(true)), Process];
    TwoSteps(u1, s2[0], s2[1]);
    var u2 := u1.(link := Up, open := {}, armed := {}, events := [Message(Reset), Message(RetryTimer(true)), SetupSuccess]);
    assert RunSteps(u1, s2) == u2;
    var s3 := [Process, Process];
    TwoSteps(u2, Process, Process);
    var u3 := u2.(link := Requested, proc := Some(1), open := {1}, armed := {1}, events := [SetupSuccess], nextProc := 2);
    assert Next(u2, Process) == u2.(link := Down, events := [Message(RetryTimer(true)), SetupSuccess]);
    assert RunSteps(u2, s3) == u3;
    UntimelySuccessStrands(u3);
    assert RunSteps(u3, [Process]) == Next(u3, Process);
    RunThen(Fresh, s0, s1);
    RunThen(Fresh, s0 + s1, s2);
    RunThen(Fresh, s0 + s1 + s2, s3);
    RunThen(Fresh, s0 + s1 + s2 + s3, [Process]);
    assert Stranded(RunSteps(Fresh, s0 + s1 + s2 + s3 + [Process]));
  }

  /** A time-out of a request a reset had superseded ends the newer procedure, and the success event completes none. */
  lemma CrashReachable()
    ensures exists steps :: RunSteps(Fresh, steps).crashed
  {
    var u0 := Upf(Requested, [], Some(0), {0}, {0}, [], 1, 0, {}, [], false, false);
    var s0 := [Arrive(RetryTimer(true)), Process];
    TwoSteps(Fresh, s0[0], s0[1]);
    assert RunSteps(Fresh, s0) == u0;
    var s1 := [Arrive(Reset), Process];
    TwoSteps(u0, s1[0], s1[1]);
    var u1 := u0.(link := Down);
    assert RunSteps(u0, s1) == u1;
    TwoSteps(u1, s0[0], s0[1]);
    var u2 := Upf(Requested, [], Some(1), {0, 1}, {0, 1}, [], 2, 0, {}, [], false, false);
    assert RunSteps(u1, s0) == u2;
    var s2 := [Arrive(Response(1, true)), Process];
    TwoSteps(u2, s2[0], s2[1]);
    var u3 := u2.(link := Up, open := {0}, armed := {0}, events := [SetupSuccess]);
    assert RunSteps(u2, s2) == u3;
    var s3 := [Timeout(0), Process];
    TwoSteps(u3, s3[0], s3[1]);
    var u4 := Next(u3, Timeout(0));
    assert u4.proc == None && u4.buffer == [] && u4.events == [SetupSuccess];
    assert RunSteps(u3, s3).crashed;
    RunThen(Fresh, s0, s1);
    RunThen(Fresh, s0 + s1, s0);
    RunThen(Fresh, s0 + s1 + s0, s2);
    RunThen(Fresh, s0 + s1 + s0 + s2, s3);
    assert RunSteps(Fresh, s0 + s1 + s0 + s2 + s3).crashed;
  }

  // ------------------------------------------------------------------ in place

  class UpfContext {
    var link: Link
    var buffer: seq<nat>
    var proc: Option<nat>
    var open: set<nat>
    var armed: set<nat>
    var events: seq<Event>
    var nextProc: nat
    var nextAttach: nat
    var waited: set<nat>
    var verdicts: seq<Verdict>
    ghost var hung: bool
    ghost var crashed: bool

    constructor ()
      ensures State() == Fresh
    {
      link, buffer, proc, open, armed, events := Down, [], None, {}, {}, [];
      nextProc, nextAttach, waited, verdicts := 0, 0, {}, [];
      hung, crashed := false, false;
    }

    ghost function State(): Upf
      reads this
    {
      Upf(link, buffer, proc, open, armed, events, nextProc, nextAttach, waited, verdicts, hung, crashed)
    }

    method BufferRequest(attach: nat)
      modifies this
      ensures State() == Buffer(old(State()), attach)
    {
      buffer := [attach] + buffer;
      waited := waited + {attach};
    }

    method SetupAssociation(resolved: bool)
      modifies this
      ensures State() == StartSetup(old(State()), resolved)
      ensures proc == Some(old(nextProc)) && nextProc == old(nextProc) + 1
      ensures resolved ==> link == Requested && open == old(open) + {old(nextProc)} && armed == old(armed) + {old(nextProc)}
      ensures !resolved ==> link == Down && open == old(open) && events == old(events) + [SetupFailure]
    {
      var p := nextProc;
      nextProc := nextProc + 1;
      proc := Some(p);
      if !resolved {
        link := Down;
        events := events + [SetupFailure];
        return;
      }
      open, armed := open + {p}, armed + {p};
      link := Requested;
    }

    /** The handler of PFCP_SESS_EST_EVNT and of PFCP_ASSOC_SETUP_SUCCESS. */
    method InitiateUpfSession(attach: nat, resolved: bool)
      modifies this
      ensures State() == InitiateSession(old(State()), attach, resolved)
    {
      if link == Requested {
        BufferRequest(attach);
      } else if link == Down {
        BufferRequest(attach);
        SetupAssociation(resolved);
      }
    }

    method HandleSetupResponse(p: nat, accepted: bool)
      modifies this
      ensures State() == Receive(old(State()), p, accepted)
      ensures p !in old(open) ==> State() == old(State())
      ensures p in old(open) ==>
                && p !in open && p !in armed && link == (if accepted then Up else Down)
                && events == old(events) + [if accepted then SetupSuccess else SetupFailure]
    {
      if p !in open {
        return;
      }
      open, armed := open - {p}, armed - {p};
      if !accepted {
        link := Down;
        events := events + [SetupFailure];
        return;
      }
      link := Up;
      events := events + [SetupSuccess];
    }

    method DrainOnFailure()
      modifies this
      ensures State() == SetupFailed(old(State()))
    {
      while buffer != []
        invariant DeliverAll(State(), false) == DeliverAll(old(State()), false)
        decreases |buffer|
      {
        var attach := buffer[0];
        buffer := buffer[1..];
        verdicts := verdicts + [Verdict(attach, false)];
      }
      if proc.Some? {
        link := Down;
        EndCurrent();
      }
    }

    /** Where `DrainNeverEnds` applies the loop of the source does not return; here that is recorded instead. */
    method DrainOnSuccess(resolved: bool)
      modifies this
      ensures State() == SetupSucceeded(old(State()))
    {
      if buffer != [] && link != Up {
        hung := true;
        return;
      }
      while buffer != []
        invariant link == old(link) && proc == old(proc)
        invariant DeliverAll(State(), true) == DeliverAll(old(State()), true)
        invariant link == Up || buffer == []
        decreases |buffer|
      {
        var attach := buffer[0];
        buffer := buffer[1..];
        InitiateUpfSession(attach, resolved);
        verdicts := verdicts + [Verdict(attach, true)];
      }
      if proc == None {
        crashed := true;
        return;
      }
      EndCurrent();
    }

    /** An association request of the UPF. */
    method HandleSetupRequest()
      modifies this
      ensures State() == HandleInput(old(State()), SetupRequest)
      ensures State() == old(State()).(link := Up)
    {
      link := Up;
    }

    method UpfDownEvent()
      modifies this
      ensures State() == HandleInput(old(State()), Reset)
      ensures State() == old(State()).(link := Down)
    {
      link := Down;
    }

    method InitiateAssociation(resolved: bool)
      modifies this
      ensures State() == HandleInput(old(State()), RetryTimer(resolved))
      ensures old(link) != Down ==> State() == old(State())
      ensures old(link) == Down ==> proc == Some(old(nextProc)) && (if resolved then link == Requested else link == Down)
    {
      if link == Down {
        SetupAssociation(resolved);
      }
    }

    /** One round of the event loop. */
    method ProcessEvent()
      requires !hung && !crashed && events != []
      modifies this
      ensures State() == Next(old(State()), Process)
    {
      var e := events[0];
      events := events[1..];
      match e
      case SetupSuccess => DrainOnSuccess(true);
      case SetupFailure => DrainOnFailure();
      case Message(Attach(resolved)) =>
        nextAttach := nextAttach + 1;
        InitiateUpfSession(nextAttach - 1, resolved);
      case Message(Response(p, accepted)) => HandleSetupResponse(p, accepted);
      case Message(RetryTimer(resolved)) => InitiateAssociation(resolved);
      case Message(Reset) => UpfDownEvent();
      case Message(SetupRequest) => HandleSetupRequest();
    }

    method EndCurrent()
      requires proc.Some?
      modifies this
      ensures State() == EndProc(old(State()))
    {
      open, armed := open - {proc.value}, armed - {proc.value};
      proc := None;
    }
  }
}
