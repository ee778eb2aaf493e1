/**
 Peer supervision (cp/cp_peer.c): a periodic timer starts a round, a transmit timer repeats the request, and a peer that
 stays silent is removed. Timer expiries are queued and handled later, so an event may be stale when its turn comes.
 */
module Heartbeat {

  datatype Timer = Periodic | Transmit

  /** peerData_t; `generation` tells apart the records one address has had, whose timers are different objects. */
  datatype Peer = Peer(generation: nat, itr: nat, itrCnt: nat, pt: bool, tt: bool)

  /** A queued expiry names its peer by address and its timer by the record it belongs to. */
  datatype Event = Event(address: nat, generation: nat, timer: Timer)

  datatype State = State(peers: map<nat, Peer>, queue: seq<Event>, generations: nat)

  /** `started` is the result of the timer start the step may make. */
  datatype Step =
    /** add_node_conn_entry; `transmitCount` is the configured number of tries. */
    | AddPeer(address: nat, transmitCount: nat, started: bool)
    /** Anything received from the peer. */
    | Activity(address: nat, started: bool)
    /** A timer of a live peer expires; an expiry already under way may come after the timer was stopped. */
    | Fire(address: nat, timer: Timer)
    /** The event at the head of the queue is handled. */
    | Handle(started: bool)

  const EMPTY := State(map[], [], 0)

  function Add(s: State, a: nat, transmitCount: nat, started: bool): State {
    if a in s.peers then s.(peers := s.peers[a := s.peers[a].(pt := s.peers[a].pt || started)])
    else s.(peers := s.peers[a := Peer(s.generations, transmitCount, 0, started, false)], generations := s.generations + 1)
  }

  function Receive(s: State, a: nat, started: bool): State {
    if a in s.peers then s.(peers := s.peers[a := s.peers[a].(itrCnt := 0, tt := false, pt := started)]) else s
  }

  predicate IsTimer(p: Peer, e: Event, t: Timer) {
    e.generation == p.generation && e.timer == t
  }

  /** The record after an event that does not take the peer down; a request is sent in every case. */
  function Sent(p: Peer, e: Event, started: bool): Peer {
    var q := if IsTimer(p, e, Transmit) then p.(itrCnt := (p.itrCnt + 1) % 256) else p;
    if IsTimer(p, e, Periodic) then q.(tt := q.tt || started, pt := false) else q
  }

  /** handle_timeout_event. */
  function HandleEvent(s: State, e: Event, started: bool): State {
    if e.address !in s.peers then s
    else
      var p := s.peers[e.address];
      if p.itrCnt == p.itr then s.(peers := s.peers - {e.address})
      else s.(peers := s.peers[e.address := Sent(p, e, started)])
  }

  function Next(s: State, step: Step): State {
    match step
    case AddPeer(a, n, started) => Add(s, a, n, started)
    case Activity(a, started) => Receive(s, a, started)
    case Fire(a, t) => if a in s.peers then s.(queue := s.queue + [Event(a, s.peers[a].generation, t)]) else s
    case Handle(started) =>
      if s.queue == [] then s else HandleEvent(s.(queue := s.queue[1..]), s.queue[0], started)
  }

  function Run(steps: seq<Step>): State {
    if steps == [] then EMPTY else Next(Run(steps[..|steps| - 1]), steps[|steps| - 1])
  }

  // ------------------------------------------------------------------ what the run itself shows

  /** This step handles an event for the peer now at `a`. */
  predicate HandlesFor(s: State, step: Step, a: nat) {
    step.Handle? && s.queue != [] && s.queue[0].address == a && a in s.peers
  }

  /** ... an expiry of its transmit timer. */
  predicate HandlesTransmit(s: State, step: Step, a: nat) {
    HandlesFor(s, step, a) && IsTimer(s.peers[a], s.queue[0], Transmit)
  }

  /** This step is a sign of life of the peer at `a`, or makes its record. */
  predicate Renews(s: State, step: Step, a: nat) {
    (step.Activity? && step.address == a) || (step.AddPeer? && step.address == a && a !in s.peers)
  }

  /** Transmit expiries handled since the peer was added or last heard of. */
  function Silent(steps: seq<Step>, a: nat): nat {
    if steps == [] then 0 else
    var n := |steps| - 1;
    SilentAfter(Run(steps[..n]), steps[n], a, Silent(steps[..n], a))
  }

  function SilentAfter(s: State, step: Step, a: nat, before: nat): nat {
    if Renews(s, step, a) then 0 else before + if HandlesTransmit(s, step, a) then 1 else 0
  }

  /** The number of tries configured when the record now at `a` was made. */
  function Limit(steps: seq<Step>, a: nat): nat {
    if steps == [] then 0 else
    var n := |steps| - 1;
    if steps[n].AddPeer? && steps[n].address == a && a !in Run(steps[..n]).peers then steps[n].transmitCount
    else Limit(steps[..n], a)
  }

  predicate ValidSteps(steps: seq<Step>) {
    forall i :: 0 <= i < |steps| && steps[i].AddPeer? ==> steps[i].transmitCount < 256
  }

  ghost predicate Inv(s: State) {
    forall a :: a in s.peers ==> s.peers[a].itrCnt <= s.peers[a].itr < 256
  }

  /** The step takes the peer at `a` down. */
  predicate TakesDown(s: State, step: Step, a: nat) {
    a in s.peers && a !in Next(s, step).peers
  }

  lemma StepCounts(s: State, step: Step, a: nat, silent: nat)
    requires Inv(s) && (step.AddPeer? ==> step.transmitCount < 256)
    requires a in s.peers ==> s.peers[a].itrCnt == silent
    ensures Inv(Next(s, step))
    ensures a in Next(s, step).peers ==> Next(s, step).peers[a].itrCnt == SilentAfter(s, step, a, silent)
    ensures TakesDown(s, step, a) <==> HandlesFor(s, step, a) && silent == s.peers[a].itr
  {}

  /** In every run the counter is the number of silent rounds and never passes the limit. */
  lemma {:induction false} CounterIsSilence(steps: seq<Step>, a: nat)
    requires ValidSteps(steps)
    ensures Inv(Run(steps))
    ensures a in Run(steps).peers ==>
              Run(steps).peers[a].itrCnt == Silent(steps, a) <= Limit(steps, a) == Run(steps).peers[a].itr
  {
    if steps != [] {
      var n := |steps| - 1;
      CounterIsSilence(steps[..n], a);
      StepCounts(Run(steps[..n]), steps[n], a, Silent(steps[..n], a));
      StepLimit(Run(steps[..n]), steps[n], a);
    }
  }

  lemma StepLimit(s: State, step: Step, a: nat)
    ensures a in Next(s, step).peers ==>
              Next(s, step).peers[a].itr == if a in s.peers then s.peers[a].itr
                                            else if step.AddPeer? && step.address == a then step.transmitCount else 0
    ensures a in Next(s, step).peers && a !in s.peers ==> step.AddPeer? && step.address == a
  {}

  /** A peer is taken down exactly by an event handled for it after as many silent rounds as it was added with. */
  lemma DownExactly(steps: seq<Step>, step: Step, a: nat)
    requires ValidSteps(steps + [step])
    ensures var s := Run(steps);
            TakesDown(s, step, a) <==> HandlesFor(s, step, a) && Silent(steps, a) == Limit(steps, a)
  {
    assert forall i :: 0 <= i < |steps| ==> (steps + [step])[i] == steps[i];
    assert (steps + [step])[|steps|] == step;
    CounterIsSilence(steps, a);
    StepCounts(Run(steps), step, a, Silent(steps, a));
  }

  // ------------------------------------------------------------------ stale events

  /** No record and no queued event is of a generation still to come, and live records are of different ones. */
  ghost predicate Dated(s: State) {
    && (forall a :: a in s.peers ==> s.peers[a].generation < s.generations)
    && (forall i :: 0 <= i < |s.queue| ==> s.queue[i].generation < s.generations)
    && (forall a, b :: a in s.peers && b in s.peers && a != b ==> s.peers[a].generation != s.peers[b].generation)
  }

  lemma DatedStep(s: State, step: Step)
    requires Dated(s)
    ensures Dated(Next(s, step))
  {
    var t := Next(s, step);
    assert forall a :: a in t.peers && a in s.peers ==> t.peers[a].generation == s.peers[a].generation;
    assert step.Handle? && s.queue != [] ==> forall i :: 0 <= i < |t.queue| ==> t.queue[i] == s.queue[i + 1];
  }

  lemma {:induction false} AlwaysDated(steps: seq<Step>)
    ensures Dated(Run(steps))
  {
    if steps != [] {
      AlwaysDated(steps[..|steps| - 1]);
      DatedStep(Run(steps[..|steps| - 1]), steps[|steps| - 1]);
    }
  }

  /** An event queued before a peer's record was made is not an expiry of its timers; one queued since, by its timer, is. */
  lemma StaleExactly(steps: seq<Step>, a: nat, transmitCount: nat, started: bool, timer: Timer)
    requires a !in Run(steps).peers
    ensures var s := Run(steps);
            var t := Add(s, a, transmitCount, started);
            && t.queue == s.queue
            && (forall i, timer :: 0 <= i < |s.queue| ==> !IsTimer(t.peers[a], s.queue[i], timer))
            && var u := Next(t, Fire(a, timer));
               u.queue == s.queue + [u.queue[|s.queue|]] && forall other :: IsTimer(u.peers[a], u.queue[|s.queue|], other) <==> other == timer
  {
    AlwaysDated(steps);
  }

  /** A stale event that does not take the peer down changes no record, and no event changes another peer's. */
  lemma StaleChangesNothing(s: State, started: bool, a: nat)
    requires s.queue != [] && a in s.peers && a in Next(s, Handle(started)).peers
    requires s.queue[0].address != a || s.queue[0].generation != s.peers[a].generation
    ensures Next(s, Handle(started)).peers[a] == s.peers[a] && Next(s, Handle(started)).queue == s.queue[1..]
  {}

  /** A sign of life, or the peer being added again, has the periodic timer running if it starts. */
  lemma LifeRestarts(s: State, a: nat, transmitCount: nat)
    ensures a in Next(s, AddPeer(a, transmitCount, true)).peers && Next(s, AddPeer(a, transmitCount, true)).peers[a].pt
    ensures a in s.peers ==>
              var p := Next(s, Activity(a, true)).peers[a];
              p.pt && !p.tt && p.itrCnt == 0 && p.itr == s.peers[a].itr && p.generation == s.peers[a].generation
    ensures a in s.peers ==>
              var p := Next(s, AddPeer(a, transmitCount, true)).peers[a];
              p.tt == s.peers[a].tt && p.itrCnt == s.peers[a].itrCnt && p.itr == s.peers[a].itr && p.generation == s.peers[a].generation
  {}

  // ------------------------------------------------------------------ is a timer running?

  predicate Watched(s: State, a: nat) {
    a in s.peers ==> s.peers[a].pt || s.peers[a].tt
  }

  /** The start fails on which the peer's last timer depended. */
  predicate StartLost(s: State, step: Step, a: nat) {
    || (Renews(s, step, a) && !step.Fire? && !step.started && (step.Activity? ==> a in s.peers))
    || (HandlesFor(s, step, a) && !step.started && IsTimer(s.peers[a], s.queue[0], Periodic) && !s.peers[a].tt
        && s.peers[a].itrCnt != s.peers[a].itr)
  }

  /** A step leaves a live peer without a timer exactly then. */
  lemma WatchedExactly(s: State, step: Step, a: nat)
    requires Watched(s, a)
    ensures Watched(Next(s, step), a) <==> !StartLost(s, step, a)
  {}

  /** So if timers start, a live peer has one running at every point of every run. */
  lemma {:induction false} AlwaysWatched(steps: seq<Step>, a: nat)
    requires forall i :: 0 <= i < |steps| && !steps[i].Fire? ==> steps[i].started
    ensures Watched(Run(steps), a)
  {
    if steps != [] {
      var n := |steps| - 1;
      AlwaysWatched(steps[..n], a);
      WatchedExactly(Run(steps[..n]), steps[n], a);
    }
  }

  /** Live, with no timer running and no event queued. */
  predicate Forgotten(s: State, a: nat) {
    a in s.peers && !Watched(s, a) && forall i :: 0 <= i < |s.queue| ==> s.queue[i].address != a
  }

  function RunFrom(s: State, steps: seq<Step>): State
    decreases |steps|
  {
    if steps == [] then s else RunFrom(Next(s, steps[0]), steps[1..])
  }

  /** Otherwise it is never taken down, however long it stays silent, until it is heard of or added again. */
  lemma {:induction false} ForgottenStays(s: State, steps: seq<Step>, a: nat)
    requires Forgotten(s, a) && forall i :: 0 <= i < |steps| && !steps[i].Handle? ==> steps[i].address != a
    ensures Forgotten(RunFrom(s, steps), a)
    decreases |steps|
  {
    if steps != [] {
      assert Forgotten(Next(s, steps[0]), a);
      ForgottenStays(Next(s, steps[0]), steps[1..], a);
    }
  }

  lemma ForgottenReachable(a: nat)
    ensures Forgotten(Run([AddPeer(a, 3, true), Fire(a, Periodic), Handle(false)]), a)
  {
    var steps := [AddPeer(a, 3, true), Fire(a, Periodic), Handle(false)];
    assert steps[..2][..1] == steps[..1] && steps[..1][..0] == [];
    assert Run(steps[..1]) == Next(EMPTY, steps[0]);
    assert Run(steps[..2]) == Next(Run(steps[..1]), steps[1]);
  }

  // ------------------------------------------------------------------ in place

  class PeerTable {
    var peers: map<nat, Peer>
    var queue: seq<Event>
    var generations: nat

    constructor ()
      ensures Value() == EMPTY
    {
      peers, queue, generations := map[], [], 0;
    }

    ghost function Value(): State
      reads this
    {
      State(peers, queue, generations)
    }

    method AddNodeConnEntry(a: nat, transmitCount: nat, started: bool)
      modifies this
      ensures Value() == Next(old(Value()), AddPeer(a, transmitCount, started))
    {
      if a in peers {
        peers := peers[a := peers[a].(pt := peers[a].pt || started)];
      } else {
        peers := peers[a := Peer(generations, transmitCount, 0, started, false)];
        generations := generations + 1;
      }
    }

    method ProcessResponse(a: nat, started: bool)
      modifies this
      ensures Value() == Next(old(Value()), Activity(a, started))
    {
      if a in peers {
        peers := peers[a := peers[a].(itrCnt := 0)];
        peers := peers[a := peers[a].(tt := false, pt := false)];
        if started {
          peers := peers[a := peers[a].(pt := true)];
        }
      }
    }

    method TimerCallback(a: nat, timer: Timer)
      requires a in peers
      modifies this
      ensures Value() == Next(old(Value()), Fire(a, timer))
    {
      queue := queue + [Event(a, peers[a].generation, timer)];
    }

    method HandleTimeoutEvent(started: bool) returns (down: bool)
      modifies this
      ensures Value() == Next(old(Value()), Handle(started))
      ensures down <==> exists a :: a in old(peers) && a !in peers
    {
      if queue == [] {
        return false;
      }
      var e := queue[0];
      queue := queue[1..];
      if e.address !in peers {
        return false;
      }
      var p := peers[e.address];
      if p.itrCnt == p.itr {
        peers := peers - {e.address};
        assert e.address in old(peers);
        return true;
      }
      var q := p;
      if e.generation == p.generation && e.timer == Transmit {
        q := q.(itrCnt := (q.itrCnt + 1) % 256);
      }
      if e.generation == p.generation && e.timer == Periodic {
        q := q.(tt := q.tt || started);
        q := q.(pt := false);
      }
      peers := peers[e.address := q];
      return false;
    }
  }
}
