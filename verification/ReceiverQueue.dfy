/**
  The queue between the receiver's socket thread and its audio callback (`receiver/src/main.rs`).
  Pushes and pops of the bounded queue are atomic; everything between them may interleave, so a
  push that has to make room is several steps of one producer among the consumer's pops.
 */
module ReceiverQueue {
  import opened Wrappers
  import opened Numbers
  import opened Packet
  import opened Subsequences

  datatype ReceiverEvent =
    | PacketEvent(packet: AudioPacket, arrival: real)
    | InvalidPacket

  /** What the socket thread makes of a datagram. */
  function Received(bytes: seq<byte>, arrival: real): ReceiverEvent {
    var r := Parse(bytes);
    if r.Ok? then PacketEvent(r.value, arrival) else InvalidPacket
  }

  /** Where the producer stands inside a push that drops the oldest event. */
  datatype Stage =
    | Idle
    | Pushing(event: ReceiverEvent, round: nat, dropped: bool)
    | Popping(event: ReceiverEvent, round: nat)

  /** The queue, what became of every event it accepted, and what each finished push reported. */
  datatype Queue = Queue(
    events: seq<ReceiverEvent>,
    stage: Stage,
    accepted: seq<ReceiverEvent>,
    drained: seq<ReceiverEvent>,
    discarded: seq<ReceiverEvent>,
    reports: seq<bool>)

  const EMPTY: Queue := Queue([], Idle, [], [], [], [])

  function Begin(q: Queue, event: ReceiverEvent): Queue {
    if q.stage.Idle? then q.(stage := Pushing(event, 0, false)) else q
  }

  /** One queue operation of the producer. */
  function Produce(capacity: nat, q: Queue): Queue {
    match q.stage
    case Idle => q
    case Pushing(event, round, dropped) =>
      if |q.events| < capacity then
        q.(events := q.events + [event], stage := Idle, accepted := q.accepted + [event],
           reports := q.reports + [dropped])
      else q.(stage := Popping(event, round))
    case Popping(event, round) =>
      var q' := q.(stage := Pushing(event, round + 1, true));
      if q.events == [] then q'
      else q'.(events := q.events[1..], discarded := q.discarded + [q.events[0]])
  }

  /** One pop of the consumer. */
  function Pop(q: Queue): Queue {
    if q.events == [] then q
    else q.(events := q.events[1..], drained := q.drained + [q.events[0]])
  }

  datatype QueueStep = BeginStep(event: ReceiverEvent) | ProduceStep | PopStep

  function Step(capacity: nat, q: Queue, step: QueueStep): Queue {
    match step
    case BeginStep(event) => Begin(q, event)
    case ProduceStep => Produce(capacity, q)
    case PopStep => Pop(q)
  }

  function Run(capacity: nat, q: Queue, steps: seq<QueueStep>): Queue {
    if steps == [] then q
    else Step(capacity, Run(capacity, q, steps[..|steps| - 1]), steps[|steps| - 1])
  }

  // ----- invariants

  /**
    The queue holds the newest accepted events; each of the older ones was drained or discarded,
    once, and both in order.
   */
  predicate Newest(events: seq<ReceiverEvent>, accepted: seq<ReceiverEvent>, drained: seq<ReceiverEvent>,
                   discarded: seq<ReceiverEvent>) {
    && |accepted| == |drained| + |discarded| + |events|
    && multiset(accepted[..|accepted| - |events|]) == multiset(drained) + multiset(discarded)
    && events == accepted[|accepted| - |events|..]
    && Subsequence(drained, accepted[..|accepted| - |events|])
    && Subsequence(discarded, accepted[..|accepted| - |events|])
  }

  /** After making room once the push succeeds: with one producer nobody else fills the gap. */
  predicate StageInv(capacity: nat, q: Queue) {
    match q.stage
    case Idle => true
    case Pushing(_, round, dropped) => round <= 1 && (dropped <==> round == 1) && (dropped ==> |q.events| < capacity)
    case Popping(_, round) => round == 0
  }

  predicate QueueInv(capacity: nat, q: Queue) {
    && |q.events| <= capacity
    && StageInv(capacity, q)
    && Newest(q.events, q.accepted, q.drained, q.discarded)
  }

  lemma OldestLeaves(events: seq<ReceiverEvent>, accepted: seq<ReceiverEvent>, left: seq<ReceiverEvent>,
                     other: seq<ReceiverEvent>)
    requires events != [] && |events| <= |accepted| && events == accepted[|accepted| - |events|..]
    requires Subsequence(left, accepted[..|accepted| - |events|])
    requires Subsequence(other, accepted[..|accepted| - |events|])
    requires multiset(accepted[..|accepted| - |events|]) == multiset(left) + multiset(other)
    ensures var before := accepted[..|accepted| - |events| + 1];
      && Subsequence(left + [events[0]], before) && Subsequence(other, before)
      && multiset(before) == multiset(left + [events[0]]) + multiset(other)
      && events[1..] == accepted[|accepted| - |events| + 1..]
  {
    hide Subsequence;
    var at := |accepted| - |events|;
    assert accepted[..at + 1] == accepted[..at] + [events[0]];
    Take(left, accepted[..at], events[0]);
    Skip(other, accepted[..at], events[0]);
  }

  lemma DrainKeeps(events: seq<ReceiverEvent>, accepted: seq<ReceiverEvent>, drained: seq<ReceiverEvent>,
                   discarded: seq<ReceiverEvent>)
    requires Newest(events, accepted, drained, discarded) && events != []
    ensures Newest(events[1..], accepted, drained + [events[0]], discarded)
  {
    hide Subsequence;
    OldestLeaves(events, accepted, drained, discarded);
  }

  lemma DiscardKeeps(events: seq<ReceiverEvent>, accepted: seq<ReceiverEvent>, drained: seq<ReceiverEvent>,
                     discarded: seq<ReceiverEvent>)
    requires Newest(events, accepted, drained, discarded) && events != []
    ensures Newest(events[1..], accepted, drained, discarded + [events[0]])
  {
    hide Subsequence;
    OldestLeaves(events, accepted, discarded, drained);
  }

  lemma AcceptKeeps(events: seq<ReceiverEvent>, accepted: seq<ReceiverEvent>, drained: seq<ReceiverEvent>,
                    discarded: seq<ReceiverEvent>, event: ReceiverEvent)
    requires Newest(events, accepted, drained, discarded)
    ensures Newest(events + [event], accepted + [event], drained, discarded)
  {
    hide Subsequence;
    var at := |accepted| - |events|;
    assert (accepted + [event])[..at] == accepted[..at];
    assert (accepted + [event])[at..] == accepted[at..] + [event];
  }

  lemma StepKeeps(capacity: nat, q: Queue, step: QueueStep)
    requires 0 < capacity && QueueInv(capacity, q)
    ensures QueueInv(capacity, Step(capacity, q, step))
  {
    hide Newest;
    match step
    case BeginStep(event) =>
    case PopStep =>
      if q.events != [] {
        DrainKeeps(q.events, q.accepted, q.drained, q.discarded);
      }
    case ProduceStep =>
      if q.stage.Pushing? && |q.events| < capacity {
        AcceptKeeps(q.events, q.accepted, q.drained, q.discarded, q.stage.event);
      } else if q.stage.Popping? && q.events != [] {
        DiscardKeeps(q.events, q.accepted, q.drained, q.discarded);
      }
  }

  lemma {:induction false} RunInv(capacity: nat, steps: seq<QueueStep>)
    requires 0 < capacity
    ensures QueueInv(capacity, Run(capacity, EMPTY, steps))
  {
    hide Step, QueueInv;
    if steps == [] {
      EmptyInv(capacity);
    } else {
      RunInv(capacity, steps[..|steps| - 1]);
      StepKeeps(capacity, Run(capacity, EMPTY, steps[..|steps| - 1]), steps[|steps| - 1]);
    }
  }

  /**
    Under every interleaving the queue stays within its capacity, holds the newest events in
    order, and loses or repeats nothing: the accepted events are, each as often as it was
    accepted, those drained, discarded and queued.
   */
  lemma RunKeeps(capacity: nat, steps: seq<QueueStep>)
    requires 0 < capacity
    ensures var q := Run(capacity, EMPTY, steps);
      && |q.events| <= capacity
      && |q.events| <= |q.accepted| && q.events == q.accepted[|q.accepted| - |q.events|..]
      && multiset(q.accepted) == multiset(q.drained) + multiset(q.discarded) + multiset(q.events)
      && Subsequence(q.drained, q.accepted) && Subsequence(q.discarded, q.accepted)
  {
    hide Run, StageInv;
    RunInv(capacity, steps);
    var q := Run(capacity, EMPTY, steps);
    OlderAndQueued(q.accepted, q.events);
    Extend(q.drained, q.accepted[..|q.accepted| - |q.events|], q.events);
    Extend(q.discarded, q.accepted[..|q.accepted| - |q.events|], q.events);
  }

  lemma OlderAndQueued(accepted: seq<ReceiverEvent>, events: seq<ReceiverEvent>)
    requires |events| <= |accepted| && events == accepted[|accepted| - |events|..]
    ensures var older := accepted[..|accepted| - |events|];
      accepted == older + events && multiset(accepted) == multiset(older) + multiset(events)
  {
    var older := accepted[..|accepted| - |events|];
    assert accepted == older + events;
  }

  lemma EmptyInv(capacity: nat)
    ensures QueueInv(capacity, EMPTY)
  {
  }

  /** What the consumer got and will get is an in-order part of what was accepted. */
  lemma DrainedInOrder(capacity: nat, steps: seq<QueueStep>)
    requires 0 < capacity
    ensures var q := Run(capacity, EMPTY, steps); Subsequence(q.drained + q.events, q.accepted)
  {
    hide Run;
    RunInv(capacity, steps);
    var q := Run(capacity, EMPTY, steps);
    var older := q.accepted[..|q.accepted| - |q.events|];
    CommonSuffix(q.drained, older, q.events);
    assert older + q.events == q.accepted;
  }

  // ----- two rounds

  /** Producer operations a push still needs at most. */
  function Remaining(stage: Stage): nat {
    match stage
    case Idle => 0
    case Pushing(_, round, _) => if round == 0 then 3 else 1
    case Popping(_, _) => 2
  }

  function Produces(steps: seq<QueueStep>): nat {
    if steps == [] then 0
    else Produces(steps[..|steps| - 1]) + (if steps[|steps| - 1].ProduceStep? then 1 else 0)
  }

  lemma ProduceProgresses(capacity: nat, q: Queue)
    requires 0 < capacity && QueueInv(capacity, q) && !q.stage.Idle?
    ensures var q' := Produce(capacity, q);
      && Remaining(q'.stage) < Remaining(q.stage)
      && (q'.stage.Idle? ==> q'.accepted == q.accepted + [q.stage.event])
      && (!q'.stage.Idle? ==> q'.stage.event == q.stage.event && q'.accepted == q.accepted)
  {
  }

  /** Steps that belong to the push under way: no other push begins. */
  predicate OnePush(steps: seq<QueueStep>) {
    forall i :: 0 <= i < |steps| ==> !steps[i].BeginStep?
  }

  /** While a push is under way nothing else is accepted; when it ends, its event is. */
  predicate Underway(before: Queue, q: Queue, event: ReceiverEvent) {
    if q.stage.Idle? then q.accepted == before.accepted + [event] && |q.reports| == |before.reports| + 1
    else q.stage.event == event && q.accepted == before.accepted && q.reports == before.reports
  }

  /**
    A push finishes within two rounds: three of the producer's own operations, however many pops
    the consumer makes in between.
   */
  lemma {:induction false} PushFinishes(capacity: nat, before: Queue, event: ReceiverEvent, steps: seq<QueueStep>)
    requires 0 < capacity && QueueInv(capacity, before) && before.stage.Idle? && OnePush(steps)
    ensures var q := Run(capacity, Begin(before, event), steps);
      && QueueInv(capacity, q) && Underway(before, q, event)
      && (q.stage.Idle? || Remaining(q.stage) + Produces(steps) <= 3)
      && (Produces(steps) >= 3 ==> q.stage.Idle?)
  {
    hide QueueInv, Newest;
    StepKeeps(capacity, before, BeginStep(event));
    if steps != [] {
      var init, last := steps[..|steps| - 1], steps[|steps| - 1];
      PushFinishes(capacity, before, event, init);
      var q := Run(capacity, Begin(before, event), init);
      StepKeeps(capacity, q, last);
      if last.ProduceStep? && !q.stage.Idle? {
        ProduceProgresses(capacity, q);
      }
    }
  }

  // ----- what a push reports

  function Reported(reports: seq<bool>): nat {
    if reports == [] then 0
    else Reported(reports[..|reports| - 1]) + (if reports[|reports| - 1] then 1 else 0)
  }

  /** The push under way will report a drop. */
  predicate WillReport(stage: Stage) {
    stage.Pushing? && stage.dropped
  }

  /** How often a run's producer found nothing to discard when it came to make room. */
  function Emptied(capacity: nat, steps: seq<QueueStep>): nat {
    if steps == [] then 0
    else
      var q := Run(capacity, EMPTY, steps[..|steps| - 1]);
      Emptied(capacity, steps[..|steps| - 1])
      + (if steps[|steps| - 1].ProduceStep? && q.stage.Popping? && q.events == [] then 1 else 0)
  }

  /** Every reported drop discarded one event, except where the consumer had emptied the queue in between. */
  lemma {:induction false} ReportsAccounted(capacity: nat, steps: seq<QueueStep>)
    requires 0 < capacity
    ensures var q := Run(capacity, EMPTY, steps);
      Reported(q.reports) + (if WillReport(q.stage) then 1 else 0) == |q.discarded| + Emptied(capacity, steps)
  {
    if steps != [] {
      var init, last := steps[..|steps| - 1], steps[|steps| - 1];
      ReportsAccounted(capacity, init);
      RunInv(capacity, init);
      var q := Run(capacity, EMPTY, init);
      if last.ProduceStep? && q.stage.Pushing? {
        assert (q.reports + [q.stage.dropped])[..|q.reports|] == q.reports;
      }
    }
  }

  /** Such a run: the second push into a queue of one reports a drop, and both events reach the consumer. */
  lemma ReportWithoutLoss(a: ReceiverEvent, b: ReceiverEvent)
    ensures exists steps :: var q := Run(1, EMPTY, steps);
      q.reports == [false, true] && q.discarded == [] && q.drained == [a] && q.events == [b]
  {
    var s1 := [BeginStep(a)];
    var s2 := s1 + [ProduceStep];
    var s3 := s2 + [BeginStep(b)];
    var s4 := s3 + [ProduceStep];
    var s5 := s4 + [PopStep];
    var s6 := s5 + [ProduceStep];
    var s7 := s6 + [ProduceStep];
    RunNext(1, [], BeginStep(a));
    RunNext(1, s1, ProduceStep);
    RunNext(1, s2, BeginStep(b));
    RunNext(1, s3, ProduceStep);
    RunNext(1, s4, PopStep);
    RunNext(1, s5, ProduceStep);
    RunNext(1, s6, ProduceStep);
    assert [] + [BeginStep(a)] == s1;
    var q := Run(1, EMPTY, s7);
    assert q.reports == [false, true] && q.discarded == [] && q.drained == [a] && q.events == [b];
  }

  lemma RunNext(capacity: nat, steps: seq<QueueStep>, step: QueueStep)
    ensures Run(capacity, EMPTY, steps + [step]) == Step(capacity, Run(capacity, EMPTY, steps), step)
  {
    assert (steps + [step])[..|steps|] == steps;
  }

  // ----- the queue itself

  function PopMany(q: Queue, n: nat): Queue {
    if n == 0 then q else Pop(PopMany(q, n - 1))
  }

  lemma {:induction false} PopManyTakes(q: Queue, n: nat)
    ensures var k := Min(n, |q.events|);
      PopMany(q, n) == q.(events := q.events[k..], drained := q.drained + q.events[..k])
  {
    if n == 0 {
      assert q.events[0..] == q.events && q.drained + q.events[..0] == q.drained;
    } else {
      PopManyTakes(q, n - 1);
      var k := Min(n - 1, |q.events|);
      if k < |q.events| {
        assert q.events[k..][1..] == q.events[k + 1..];
        assert q.drained + q.events[..k] + [q.events[k]] == q.drained + q.events[..k + 1];
      }
    }
  }

  /** A whole push, the consumer popping `taken(i)` times before the producer's `i`-th operation. */
  function PushWith(capacity: nat, q: Queue, event: ReceiverEvent, taken: nat -> nat): Queue {
    var first := Produce(capacity, PopMany(Begin(q, event), taken(0)));
    if first.stage.Idle? then first
    else Produce(capacity, PopMany(Produce(capacity, PopMany(first, taken(1))), taken(2)))
  }

  /** A push that finds room, after the consumer took some events. */
  lemma PushFindsRoom(capacity: nat, q: Queue, n: nat)
    requires q.stage.Pushing? && |q.events| - Min(n, |q.events|) < capacity
    ensures var k := Min(n, |q.events|);
      Produce(capacity, PopMany(q, n)) ==
        q.(events := q.events[k..] + [q.stage.event], stage := Idle, accepted := q.accepted + [q.stage.event],
           drained := q.drained + q.events[..k], reports := q.reports + [q.stage.dropped])
  {
    hide PopMany;
    PopManyTakes(q, n);
  }

  /** Making room, after the consumer took some events. */
  lemma RoomIsMade(capacity: nat, q: Queue, n: nat)
    requires q.stage.Popping?
    ensures var k := Min(n, |q.events|);
      var gone := Min(k + 1, |q.events|);
      Produce(capacity, PopMany(q, n)) ==
        q.(events := q.events[gone..], stage := Pushing(q.stage.event, q.stage.round + 1, true),
           drained := q.drained + q.events[..k], discarded := q.discarded + q.events[k..gone])
  {
    hide PopMany;
    PopManyTakes(q, n);
    var k := Min(n, |q.events|);
    if k < |q.events| {
      assert q.events[k..][1..] == q.events[k + 1..];
      assert q.events[k..k + 1] == [q.events[k]];
    } else {
      assert q.discarded + q.events[k..k] == q.discarded;
    }
  }

  /** A push that finds the queue full. */
  predicate MetFull(capacity: nat, q: Queue, taken: nat -> nat) {
    |q.events| == capacity && taken(0) == 0
  }

  /** A push appends its event and reports a drop exactly when it met a full queue. */
  lemma PushWithRoom(capacity: nat, q: Queue, event: ReceiverEvent, taken: nat -> nat)
    requires 0 < capacity && |q.events| <= capacity && q.stage.Idle? && !MetFull(capacity, q, taken)
    ensures var k := Min(taken(0), |q.events|);
      PushWith(capacity, q, event, taken) ==
        q.(events := q.events[k..] + [event], accepted := q.accepted + [event], drained := q.drained + q.events[..k],
           reports := q.reports + [false])
  {
    hide PopMany, Produce;
    PushFindsRoom(capacity, Begin(q, event), taken(0));
  }

  /** A push that met a full queue discards the oldest event the consumer has left, if it has left one. */
  lemma PushWithoutRoom(capacity: nat, q: Queue, event: ReceiverEvent, taken: nat -> nat)
    requires 0 < capacity && |q.events| <= capacity && q.stage.Idle? && MetFull(capacity, q, taken)
    ensures var k := Min(taken(1), capacity);
      var gone := Min(k + 1, capacity);
      var later := Min(taken(2), capacity - gone);
      PushWith(capacity, q, event, taken) ==
        q.(events := q.events[gone..][later..] + [event], accepted := q.accepted + [event],
           drained := q.drained + q.events[..k] + q.events[gone..][..later],
           discarded := q.discarded + q.events[k..gone], reports := q.reports + [true])
  {
    var first := q.(stage := Popping(event, 0));
    assert PopMany(Begin(q, event), 0) == Begin(q, event);
    assert Produce(capacity, Begin(q, event)) == first;
    hide PopMany, Produce;
    RoomIsMade(capacity, first, taken(1));
    PushFindsRoom(capacity, Produce(capacity, PopMany(first, taken(1))), taken(2));
  }

  class ReceiverEventQueue {
    const capacity: nat
    var events: seq<ReceiverEvent>
    ghost var stage: Stage
    ghost var accepted: seq<ReceiverEvent>
    ghost var drained: seq<ReceiverEvent>
    ghost var discarded: seq<ReceiverEvent>
    ghost var reports: seq<bool>

    ghost function View(): Queue
      reads this
    {
      Queue(events, stage, accepted, drained, discarded, reports)
    }

    ghost predicate Valid()
      reads this
    {
      0 < capacity && QueueInv(capacity, View())
    }

    /** The source asserts a capacity above zero. */
    constructor (capacity: nat)
      requires 0 < capacity
      ensures Valid() && this.capacity == capacity && View() == EMPTY
    {
      this.capacity := capacity;
      events, stage, accepted, drained, discarded, reports := [], Idle, [], [], [], [];
    }

    /** `ArrayQueue::push`: refuses when full. */
    method TryPush(event: ReceiverEvent) returns (ok: bool)
      requires Valid() && stage.Pushing? && stage.event == event
      modifies this
      ensures Valid() && View() == Produce(capacity, old(View()))
      ensures ok ==> stage.Idle? && reports == old(reports) + [old(stage.dropped)]
      ensures !ok ==> old(stage.round) == 0 && stage == Popping(event, 0) && reports == old(reports)
    {
      StepKeeps(capacity, View(), ProduceStep);
      ok := |events| < capacity;
      if ok {
        events := events + [event];
        accepted, reports, stage := accepted + [event], reports + [stage.dropped], Idle;
      } else {
        stage := Popping(event, stage.round);
      }
    }

    /** `ArrayQueue::pop` by the producer, to make room. */
    method MakeRoom()
      requires Valid() && stage.Popping?
      modifies this
      ensures Valid() && View() == Produce(capacity, old(View()))
      ensures stage == Pushing(old(stage.event), old(stage.round) + 1, true) && reports == old(reports)
    {
      StepKeeps(capacity, View(), ProduceStep);
      stage := Pushing(stage.event, stage.round + 1, true);
      if events != [] {
        discarded := discarded + [events[0]];
        events := events[1..];
      }
    }

    /** `ArrayQueue::pop` by the consumer. */
    method PopOldest() returns (r: Option<ReceiverEvent>)
      requires Valid()
      modifies this
      ensures Valid() && View() == Pop(old(View()))
      ensures r == if old(events) == [] then None else Some(old(events)[0])
      ensures stage == old(stage) && reports == old(reports)
    {
      StepKeeps(capacity, View(), PopStep);
      if events == [] {
        return None;
      }
      r := Some(events[0]);
      drained := drained + [events[0]];
      events := events[1..];
    }

    /** The consumer at work while the producer is between two operations. */
    method Meanwhile(n: nat)
      requires Valid()
      modifies this
      ensures Valid() && View() == PopMany(old(View()), n)
      ensures stage == old(stage) && reports == old(reports)
    {
      hide QueueInv, Pop;
      for i := 0 to n
        invariant Valid() && View() == PopMany(old(View()), i) && stage == old(stage) && reports == old(reports)
      {
        var _ := PopOldest();
      }
    }

    /** Pushes, discarding the oldest event when the queue is full, however often it has to try. */
    method PushDropOldest(event: ReceiverEvent, taken: nat -> nat) returns (dropped: bool)
      requires Valid() && stage.Idle?
      modifies this
      ensures Valid() && View() == PushWith(capacity, old(View()), event, taken)
      ensures stage.Idle? && reports == old(reports) + [dropped]
    {
      hide QueueInv, PopMany, Pop, Produce;
      StepKeeps(capacity, View(), BeginStep(event));
      dropped := false;
      stage := Pushing(event, 0, false);
      var i := 0;
      while true
        invariant Valid() && stage == Pushing(event, i / 2, dropped) && reports == old(reports) && (i == 0 || i == 2)
        invariant i == 0 ==> View() == Begin(old(View()), event)
        invariant i == 2 ==>
          var first := Produce(capacity, PopMany(Begin(old(View()), event), taken(0)));
          !first.stage.Idle? && View() == Produce(capacity, PopMany(first, taken(1)))
        decreases Remaining(stage)
      {
        Meanwhile(taken(i));
        var ok := TryPush(event);
        if ok {
          break;
        }
        Meanwhile(taken(i + 1));
        MakeRoom();
        dropped := true;
        i := i + 2;
      }
    }

    /** Takes everything there is, in order. */
    method DrainInto(output: seq<ReceiverEvent>) returns (all: seq<ReceiverEvent>)
      requires Valid()
      modifies this
      ensures Valid() && events == [] && all == output + old(events)
      ensures View() == old(View()).(events := [], drained := old(drained) + old(events))
    {
      hide QueueInv;
      all := output;
      ghost var n := 0;
      while true
        invariant Valid() && n <= |old(events)| && all == output + old(events)[..n]
        invariant View() == old(View()).(events := old(events)[n..], drained := old(drained) + old(events)[..n])
        decreases |events|
      {
        var next := PopOldest();
        if next.None? {
          break;
        }
        NextOf(old(events), n, output, old(drained));
        all := all + [next.value];
        n := n + 1;
      }
    }
  }

  lemma NextOf(events: seq<ReceiverEvent>, n: nat, output: seq<ReceiverEvent>, drained: seq<ReceiverEvent>)
    ensures events == events[..|events|]
    ensures n < |events| ==>
      && events[n..][0] == events[n] && events[n..][1..] == events[n + 1..]
      && output + events[..n] + [events[n]] == output + events[..n + 1]
      && drained + events[..n] + [events[n]] == drained + events[..n + 1]
  {
  }
}
