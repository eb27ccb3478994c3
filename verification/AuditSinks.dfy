/** The sink that writes published events into a trail: what the bus drops becomes a recorded gap, what
    the store refuses is counted, and stopping drains what is already buffered. */
module AuditSinks {
  import opened Wrappers
  import opened AuditEntries
  import opened Words

  /** Counters wrap at this. */
  const U64_MODULUS: nat := U64_MAX + 1

  // ---- The bus ----

  /** One event type's broadcast as its one subscriber sees it: what was published, where the subscriber
      will read next, and, for the account, the positions it read and how many it lost. */
  datatype Topic = Topic(published: seq<AuditEntry>, closed: bool, next: nat, read: seq<nat>, lost: nat)

  const QUIET: Topic := Topic([], false, 0, [], 0)

  datatype Received = Got(entry: AuditEntry) | Lagged(count: u64) | Closed

  predicate Sound(topic: Topic) {
    topic.next <= |topic.published| <= U64_MAX
  }

  /** Whether a receive would return something at once. */
  predicate Ready(topic: Topic) {
    topic.next < |topic.published| || topic.closed
  }

  /** The broadcast keeps the newest `capacity` events; a subscriber further behind is told how many it
      missed and moved to the oldest kept. */
  function Receive(topic: Topic, capacity: nat): (Topic, Received)
    requires Sound(topic) && Ready(topic)
  {
    var behind := |topic.published| - topic.next;
    if behind > capacity then
      (topic.(next := |topic.published| - capacity, lost := topic.lost + (behind - capacity)),
       Lagged(behind - capacity))
    else if behind > 0 then
      (topic.(next := topic.next + 1, read := topic.read + [topic.next]), Got(topic.published[topic.next]))
    else (topic, Closed)
  }

  // ---- The sink ----

  /** What the sink meets: which appends the store refuses, and the clock at each. */
  datatype World = World(refuses: nat -> bool, clock: nat -> Timestamp)

  /** The sink, and every entry handed to the store so far, refused ones included. */
  datatype Sink = Sink(handed: seq<AuditEntry>, failures: nat, missed: nat)

  const IDLE: Sink := Sink([], 0, 0)

  function Recorded(world: World, s: Sink, entry: AuditEntry): Sink {
    Sink(s.handed + [entry],
         if world.refuses(|s.handed|) then (s.failures + 1) % U64_MODULUS else s.failures,
         s.missed)
  }

  function GapRecorded(world: World, s: Sink, count: u64): Sink {
    Recorded(world, s.(missed := (s.missed + count) % U64_MODULUS), Gap(world.clock(|s.handed|), count))
  }

  function Accepted(world: World, s: Sink, received: Received): Sink {
    match received
    case Got(entry) => Recorded(world, s, entry)
    case Lagged(count) => GapRecorded(world, s, count)
    case Closed => s
  }

  /** Everything already buffered, taken without waiting for more. */
  function DrainTopic(world: World, capacity: nat, s: Sink, topic: Topic): (Sink, Topic)
    requires Sound(topic) && capacity > 0
    decreases |topic.published| - topic.next
  {
    if topic.next == |topic.published| then (s, topic)
    else
      var (topic', received) := Receive(topic, capacity);
      DrainTopic(world, capacity, Accepted(world, s, received), topic')
  }

  /** The receiving half of a broadcast. */
  class EventStream {
    const capacity: nat
    var topic: Topic

    constructor (capacity: nat)
      ensures topic == QUIET && this.capacity == capacity
    {
      this.capacity := capacity;
      topic := QUIET;
    }

    method TryRecv() returns (result: Option<Received>)
      requires Sound(topic)
      modifies this
      ensures !Ready(old(topic)) ==> result == None && topic == old(topic)
      ensures Ready(old(topic)) ==> result.Some? && (topic, result.value) == Receive(old(topic), capacity)
    {
      var behind := |topic.published| - topic.next;
      if behind > capacity {
        topic := topic.(next := |topic.published| - capacity, lost := topic.lost + (behind - capacity));
        return Some(Lagged(behind - capacity));
      }
      if behind > 0 {
        var position := topic.next;
        topic := topic.(next := position + 1, read := topic.read + [position]);
        return Some(Got(topic.published[position]));
      }
      return if topic.closed then Some(Closed) else None;
    }
  }

  class AuditSink {
    const world: World
    var handed: seq<AuditEntry>
    var failures: nat
    var missed: nat

    ghost function State(): Sink
      reads this
    {
      Sink(handed, failures, missed)
    }

    constructor (world: World)
      ensures State() == IDLE && this.world == world
    {
      this.world := world;
      handed, failures, missed := [], 0, 0;
    }

    method Record(entry: AuditEntry)
      modifies this
      ensures State() == Recorded(world, old(State()), entry)
    {
      var refused := world.refuses(|handed|);
      handed := handed + [entry];
      if refused {
        failures := (failures + 1) % U64_MODULUS;
      }
    }

    method RecordGap(count: u64)
      modifies this
      ensures State() == GapRecorded(world, old(State()), count)
    {
      missed := (missed + count) % U64_MODULUS;
      Record(Gap(world.clock(|handed|), count));
    }

    /** Handles one result; false when the bus has closed. */
    method Accept(received: Received) returns (more: bool)
      modifies this
      ensures State() == Accepted(world, old(State()), received)
      ensures more == !received.Closed?
    {
      match received {
        case Got(entry) =>
          Record(entry);
          more := true;
        case Lagged(count) =>
          RecordGap(count);
          more := true;
        case Closed =>
          more := false;
      }
    }

    /** One subscription's part of a drain: it ends on an empty stream and on a closed one. */
    method DrainStream(stream: EventStream)
      requires Sound(stream.topic) && stream.capacity > 0
      modifies this, stream
      ensures (State(), stream.topic) == DrainTopic(world, stream.capacity, old(State()), old(stream.topic))
    {
      ghost var all := DrainTopic(world, stream.capacity, State(), stream.topic);
      while true
        invariant Sound(stream.topic)
        invariant DrainTopic(world, stream.capacity, State(), stream.topic) == all
        decreases |stream.topic.published| - stream.topic.next
      {
        ghost var topic := stream.topic;
        var result := stream.TryRecv();
        if result.None? {
          return;
        }
        var more := Accept(result.value);
        if !more {
          return;
        }
      }
    }

    method Drain(decisions: EventStream, invocations: EventStream)
      requires Sound(decisions.topic) && decisions.capacity > 0 && decisions != invocations
      requires Sound(invocations.topic) && invocations.capacity > 0
      modifies this, decisions, invocations
      ensures var first := DrainTopic(world, decisions.capacity, old(State()), old(decisions.topic));
              && decisions.topic == first.1
              && (State(), invocations.topic)
                 == DrainTopic(world, invocations.capacity, first.0, old(invocations.topic))
    {
      DrainStream(decisions);
      DrainStream(invocations);
    }
  }

  // ---- The account ----

  function OfKind(entries: seq<AuditEntry>, kind: AuditEntryKind): seq<AuditEntry> {
    if entries == [] then []
    else
      var last := entries[|entries| - 1];
      OfKind(entries[..|entries| - 1], kind) + (if last.Kind() == kind then [last] else [])
  }

  function GapTotal(entries: seq<AuditEntry>): nat {
    if entries == [] then 0
    else
      var last := entries[|entries| - 1];
      GapTotal(entries[..|entries| - 1]) + (if last.Gap? then last.missed else 0)
  }

  /** How many of the first `count` appends are refused. */
  function Refusals(world: World, count: nat): nat {
    if count == 0 then 0 else Refusals(world, count - 1) + (if world.refuses(count - 1) then 1 else 0)
  }

  function Pick(published: seq<AuditEntry>, read: seq<nat>): seq<AuditEntry>
    requires forall i | 0 <= i < |read| :: read[i] < |published|
  {
    seq(|read|, i requires 0 <= i < |read| => published[read[i]])
  }

  /** Every position passed was read or counted lost, in order, and none of the newest `capacity` was lost. */
  ghost predicate TopicAccounted(topic: Topic, capacity: nat, kind: AuditEntryKind) {
    && Sound(topic)
    && (forall i | 0 <= i < |topic.published| :: topic.published[i].Kind() == kind)
    && (forall i | 0 <= i < |topic.read| :: topic.read[i] < topic.next)
    && (forall i, j | 0 <= i < j < |topic.read| :: topic.read[i] < topic.read[j])
    && |topic.read| + topic.lost == topic.next
    && (forall p | 0 <= p < topic.next && |topic.published| <= p + capacity :: p in topic.read)
  }

  /** Each gap says when it was noticed. */
  ghost predicate GapsStamped(world: World, handed: seq<AuditEntry>) {
    forall i | 0 <= i < |handed| && handed[i].Gap? :: handed[i].at == world.clock(i)
  }

  /** The sink's counters are those of what it handed over. */
  ghost predicate SinkCounts(world: World, s: Sink) {
    && GapsStamped(world, s.handed)
    && s.missed == GapTotal(s.handed) % U64_MODULUS
    && s.failures == Refusals(world, |s.handed|) % U64_MODULUS
  }

  ghost predicate HandedFrom(s: Sink, topic: Topic, kind: AuditEntryKind)
    requires forall i | 0 <= i < |topic.read| :: topic.read[i] < |topic.published|
  {
    OfKind(s.handed, kind) == Pick(topic.published, topic.read)
  }

  lemma ReceiveAccounts(topic: Topic, capacity: nat, kind: AuditEntryKind)
    requires TopicAccounted(topic, capacity, kind) && Ready(topic) && capacity > 0
    ensures TopicAccounted(Receive(topic, capacity).0, capacity, kind)
  {
    var topic' := Receive(topic, capacity).0;
    forall p | 0 <= p < topic'.next && |topic'.published| <= p + capacity ensures p in topic'.read {
      if p < topic.next {
        assert p in topic.read;
      } else if topic'.read != topic.read {
        assert topic'.read[|topic.read|] == p;
      }
    }
  }

  lemma AddWraps(a: nat, b: nat)
    ensures (a % U64_MODULUS + b) % U64_MODULUS == (a + b) % U64_MODULUS
  {
    var q := a / U64_MODULUS;
    assert a + b == U64_MODULUS * q + (a % U64_MODULUS + b);
    WrapShift(a % U64_MODULUS + b, q);
  }

  lemma {:induction false} WrapShift(n: nat, q: nat)
    ensures (U64_MODULUS * q + n) % U64_MODULUS == n % U64_MODULUS
  {
    if q > 0 {
      WrapShift(n, q - 1);
      assert U64_MODULUS * q + n == (U64_MODULUS * (q - 1) + n) + U64_MODULUS;
    }
  }

  lemma Snoc(entries: seq<AuditEntry>, entry: AuditEntry, kind: AuditEntryKind)
    ensures OfKind(entries + [entry], kind) == OfKind(entries, kind) + (if entry.Kind() == kind then [entry] else [])
    ensures GapTotal(entries + [entry]) == GapTotal(entries) + (if entry.Gap? then entry.missed else 0)
  {
    assert (entries + [entry])[..|entries|] == entries;
  }

  /** What one result adds to the entries of a kind, and to the events recorded as missed. */
  lemma AcceptedHands(world: World, s: Sink, received: Received, kind: AuditEntryKind)
    requires !kind.IsAboutTheTrail() && (received.Got? ==> !received.entry.IsAboutTheTrail())
    ensures OfKind(Accepted(world, s, received).handed, kind)
         == if received.Got? && received.entry.Kind() == kind then OfKind(s.handed, kind) + [received.entry]
            else OfKind(s.handed, kind)
    ensures GapTotal(Accepted(world, s, received).handed)
         == GapTotal(s.handed) + (if received.Lagged? then received.count else 0)
  {
    match received
    case Got(entry) => Snoc(s.handed, entry, kind);
    case Lagged(count) => Snoc(s.handed, Gap(world.clock(|s.handed|), count), kind);
    case Closed =>
  }

  lemma AcceptedStamps(world: World, s: Sink, received: Received)
    requires GapsStamped(world, s.handed) && (received.Got? ==> !received.entry.IsAboutTheTrail())
    ensures GapsStamped(world, Accepted(world, s, received).handed)
  {
  }

  lemma AcceptedMisses(s: Sink, total: nat, count: nat)
    requires s.missed == total % U64_MODULUS
    ensures (s.missed + count) % U64_MODULUS == (total + count) % U64_MODULUS
  {
    AddWraps(total, count);
  }

  lemma AcceptedFails(s: Sink, refusals: nat, refused: bool)
    requires s.failures == refusals % U64_MODULUS
    ensures (if refused then (s.failures + 1) % U64_MODULUS else s.failures)
         == (refusals + if refused then 1 else 0) % U64_MODULUS
  {
    AddWraps(refusals, 1);
  }

  lemma AcceptedCounts(world: World, s: Sink, received: Received)
    requires SinkCounts(world, s) && (received.Got? ==> !received.entry.IsAboutTheTrail())
    ensures SinkCounts(world, Accepted(world, s, received))
  {
    AcceptedStamps(world, s, received);
    AcceptedHands(world, s, received, AuthorizationKind);
    if received.Lagged? {
      AcceptedMisses(s, GapTotal(s.handed), received.count);
    }
    AcceptedFails(s, Refusals(world, |s.handed|), world.refuses(|s.handed|));
  }

  // ---- Every interleaving ----

  datatype Phase = Selecting | DrainingDecisions | DrainingInvocations | Finished

  /** The two subscriptions and the task that reads them; `settled` is how much each had published when
      its part of the drain ended. */
  datatype Task = Task(decisions: Topic, invocations: Topic, sink: Sink, phase: Phase,
                       settledDecisions: nat, settledInvocations: nat)

  const BEGUN: Task := Task(QUIET, QUIET, IDLE, Selecting, 0, 0)

  datatype Action =
    | PublishDecision(entry: AuditEntry)
    | PublishInvocation(entry: AuditEntry)
    | CloseBus
    | Cancel
    | TakeDecision
    | TakeInvocation
    | DrainNext

  function Published(topic: Topic, entry: AuditEntry, kind: AuditEntryKind): Topic {
    if topic.closed || |topic.published| == U64_MAX || entry.Kind() != kind then topic
    else topic.(published := topic.published + [entry])
  }

  /** One receive: what the subscription becomes, what the sink becomes, and whether the stream is over. */
  function Taken(world: World, capacity: nat, s: Sink, topic: Topic): (Topic, Sink, bool)
    requires Sound(topic) && Ready(topic)
  {
    var (topic', received) := Receive(topic, capacity);
    (topic', Accepted(world, s, received), received.Closed?)
  }

  /** What one action does; an action that cannot happen yet changes nothing. */
  function Next(world: World, capacity: nat, t: Task, action: Action): Task
    requires Sound(t.decisions) && Sound(t.invocations)
  {
    match action
    case PublishDecision(entry) => t.(decisions := Published(t.decisions, entry, AuthorizationKind))
    case PublishInvocation(entry) => t.(invocations := Published(t.invocations, entry, InvocationKind))
    case CloseBus => t.(decisions := t.decisions.(closed := true), invocations := t.invocations.(closed := true))
    case Cancel => if t.phase == Selecting then t.(phase := DrainingDecisions) else t
    case TakeDecision =>
      if t.phase != Selecting || !Ready(t.decisions) then t
      else
        var (topic, sink, over) := Taken(world, capacity, t.sink, t.decisions);
        t.(decisions := topic, sink := sink, phase := if over then DrainingDecisions else Selecting)
    case TakeInvocation =>
      if t.phase != Selecting || !Ready(t.invocations) then t
      else
        var (topic, sink, over) := Taken(world, capacity, t.sink, t.invocations);
        t.(invocations := topic, sink := sink, phase := if over then DrainingDecisions else Selecting)
    case DrainNext => Drained(world, capacity, t)
  }

  /** One step of the drain: a stream that is empty or closed is done with. */
  function Drained(world: World, capacity: nat, t: Task): Task
    requires Sound(t.decisions) && Sound(t.invocations)
  {
    match t.phase
    case DrainingDecisions =>
      if t.decisions.next == |t.decisions.published| then
        t.(phase := DrainingInvocations, settledDecisions := |t.decisions.published|)
      else
        var (topic, sink, _) := Taken(world, capacity, t.sink, t.decisions);
        t.(decisions := topic, sink := sink)
    case DrainingInvocations =>
      if t.invocations.next == |t.invocations.published| then
        t.(phase := Finished, settledInvocations := |t.invocations.published|)
      else
        var (topic, sink, _) := Taken(world, capacity, t.sink, t.invocations);
        t.(invocations := topic, sink := sink)
    case _ => t
  }

  ghost predicate Accounted(world: World, capacity: nat, t: Task) {
    && TopicAccounted(t.decisions, capacity, AuthorizationKind)
    && TopicAccounted(t.invocations, capacity, InvocationKind)
    && SinkCounts(world, t.sink)
    && HandedFrom(t.sink, t.decisions, AuthorizationKind)
    && HandedFrom(t.sink, t.invocations, InvocationKind)
    && GapTotal(t.sink.handed) == t.decisions.lost + t.invocations.lost
    && (t.phase.DrainingInvocations? || t.phase.Finished? ==> t.settledDecisions == t.decisions.next)
    && (t.phase.Finished? ==> t.settledInvocations == t.invocations.next)
  }

  lemma PublishedAccounts(topic: Topic, entry: AuditEntry, capacity: nat, kind: AuditEntryKind)
    requires TopicAccounted(topic, capacity, kind)
    ensures TopicAccounted(Published(topic, entry, kind), capacity, kind)
    ensures Pick(Published(topic, entry, kind).published, topic.read) == Pick(topic.published, topic.read)
  {
  }

  /** A receive from one subscription keeps its account, and leaves the other kind's entries alone. */
  lemma TakenAccounts(world: World, capacity: nat, s: Sink, topic: Topic, kind: AuditEntryKind, other: AuditEntryKind)
    requires capacity > 0 && TopicAccounted(topic, capacity, kind) && Ready(topic)
    requires SinkCounts(world, s) && HandedFrom(s, topic, kind)
    requires kind != other && !kind.IsAboutTheTrail() && !other.IsAboutTheTrail()
    ensures var (topic', s', over) := Taken(world, capacity, s, topic);
            && TopicAccounted(topic', capacity, kind) && SinkCounts(world, s') && HandedFrom(s', topic', kind)
            && OfKind(s'.handed, other) == OfKind(s.handed, other)
            && GapTotal(s'.handed) == GapTotal(s.handed) + topic'.lost - topic.lost
  {
    var (topic', received) := Receive(topic, capacity);
    ReceiveAccounts(topic, capacity, kind);
    AcceptedCounts(world, s, received);
    AcceptedHands(world, s, received, kind);
    AcceptedHands(world, s, received, other);
    if received.Got? {
      assert Pick(topic'.published, topic'.read) == Pick(topic.published, topic.read) + [received.entry];
    }
  }

  /** A decision received, before the invocations are drained. */
  lemma DecisionAccounts(world: World, capacity: nat, t: Task, phase: Phase)
    requires capacity > 0 && Accounted(world, capacity, t) && Ready(t.decisions)
    requires phase.Selecting? || phase.DrainingDecisions?
    ensures var (topic, sink, _) := Taken(world, capacity, t.sink, t.decisions);
            Accounted(world, capacity, t.(decisions := topic, sink := sink, phase := phase))
  {
    TakenAccounts(world, capacity, t.sink, t.decisions, AuthorizationKind, InvocationKind);
  }

  /** An invocation received, at any time before the drain has finished. */
  lemma InvocationAccounts(world: World, capacity: nat, t: Task, phase: Phase)
    requires capacity > 0 && Accounted(world, capacity, t) && Ready(t.invocations)
    requires phase.Selecting? || phase.DrainingDecisions? || (phase.DrainingInvocations? && phase == t.phase)
    ensures var (topic, sink, _) := Taken(world, capacity, t.sink, t.invocations);
            Accounted(world, capacity, t.(invocations := topic, sink := sink, phase := phase))
  {
    TakenAccounts(world, capacity, t.sink, t.invocations, InvocationKind, AuthorizationKind);
  }

  /** A stream found empty is settled. */
  lemma SettledAccounts(world: World, capacity: nat, t: Task)
    requires Accounted(world, capacity, t)
    ensures t.phase == DrainingDecisions && t.decisions.next == |t.decisions.published| ==>
              Accounted(world, capacity, t.(phase := DrainingInvocations, settledDecisions := |t.decisions.published|))
    ensures t.phase == DrainingInvocations && t.invocations.next == |t.invocations.published| ==>
              Accounted(world, capacity, t.(phase := Finished, settledInvocations := |t.invocations.published|))
  {
  }

  lemma DrainedAccounts(world: World, capacity: nat, t: Task)
    requires capacity > 0 && Accounted(world, capacity, t)
    ensures Accounted(world, capacity, Drained(world, capacity, t))
  {
    match t.phase
    case DrainingDecisions =>
      if t.decisions.next == |t.decisions.published| {
        SettledAccounts(world, capacity, t);
      } else {
        DecisionAccounts(world, capacity, t, t.phase);
      }
    case DrainingInvocations =>
      if t.invocations.next == |t.invocations.published| {
        SettledAccounts(world, capacity, t);
      } else {
        InvocationAccounts(world, capacity, t, t.phase);
      }
    case _ =>
  }

  lemma NextAccounts(world: World, capacity: nat, t: Task, action: Action)
    requires capacity > 0 && Accounted(world, capacity, t)
    ensures Accounted(world, capacity, Next(world, capacity, t, action))
  {
    match action
    case PublishDecision(entry) => PublishedAccounts(t.decisions, entry, capacity, AuthorizationKind);
    case PublishInvocation(entry) => PublishedAccounts(t.invocations, entry, capacity, InvocationKind);
    case CloseBus =>
    case Cancel =>
    case TakeDecision =>
      if t.phase == Selecting && Ready(t.decisions) {
        var over := Taken(world, capacity, t.sink, t.decisions).2;
        DecisionAccounts(world, capacity, t, if over then DrainingDecisions else Selecting);
      }
    case TakeInvocation =>
      if t.phase == Selecting && Ready(t.invocations) {
        var over := Taken(world, capacity, t.sink, t.invocations).2;
        InvocationAccounts(world, capacity, t, if over then DrainingDecisions else Selecting);
      }
    case DrainNext => DrainedAccounts(world, capacity, t);
  }

  ghost predicate IsRun(world: World, capacity: nat, tasks: seq<Task>, actions: seq<Action>) {
    && |tasks| == |actions| + 1 && tasks[0] == BEGUN
    && forall i {:trigger actions[i]} :: 0 <= i < |actions| ==>
         && Sound(tasks[i].decisions) && Sound(tasks[i].invocations)
         && tasks[i + 1] == Next(world, capacity, tasks[i], actions[i])
  }

  lemma {:induction false} RunAccounts(world: World, capacity: nat, tasks: seq<Task>, actions: seq<Action>, i: nat)
    requires capacity > 0 && IsRun(world, capacity, tasks, actions) && i < |tasks|
    ensures Accounted(world, capacity, tasks[i])
  {
    if i > 0 {
      RunAccounts(world, capacity, tasks, actions, i - 1);
      NextAccounts(world, capacity, tasks[i - 1], actions[i - 1]);
      assert actions[i - 1] == actions[i - 1];
    }
  }

  /** Whatever was published, dropped, refused and cancelled: when the task finishes, each type's entries
      reached the store in publication order, and with the events reported missed they are all that was
      published before that type's drain ended; the counters are exact, and gaps count as appends. */
  lemma NothingIsQuietlyLost(world: World, capacity: nat, tasks: seq<Task>, actions: seq<Action>)
    requires capacity > 0 && IsRun(world, capacity, tasks, actions) && tasks[|tasks| - 1].phase == Finished
    ensures var t := tasks[|tasks| - 1];
            && TopicAccounted(t.decisions, capacity, AuthorizationKind)
            && TopicAccounted(t.invocations, capacity, InvocationKind)
            && OfKind(t.sink.handed, AuthorizationKind) == Pick(t.decisions.published, t.decisions.read)
            && OfKind(t.sink.handed, InvocationKind) == Pick(t.invocations.published, t.invocations.read)
            && |OfKind(t.sink.handed, AuthorizationKind)| + t.decisions.lost == t.settledDecisions
            && |OfKind(t.sink.handed, InvocationKind)| + t.invocations.lost == t.settledInvocations
            && GapTotal(t.sink.handed) == t.decisions.lost + t.invocations.lost
            && (forall i | 0 <= i < |t.sink.handed| && t.sink.handed[i].Gap? ::
                  t.sink.handed[i].at == world.clock(i))
            && t.sink.missed == GapTotal(t.sink.handed) % U64_MODULUS
            && t.sink.failures == Refusals(world, |t.sink.handed|) % U64_MODULUS
  {
    RunAccounts(world, capacity, tasks, actions, |tasks| - 1);
  }

  /** What is published while the bus is open waits for the subscriber, behind what was published before. */
  lemma WhatIsPublishedWaits(world: World, capacity: nat, t: Task, entry: AuditEntry)
    requires Sound(t.decisions) && Sound(t.invocations)
    requires !t.decisions.closed && |t.decisions.published| < U64_MAX
    requires !t.invocations.closed && |t.invocations.published| < U64_MAX
    ensures entry.Authorization? ==>
              Next(world, capacity, t, PublishDecision(entry))
              == t.(decisions := t.decisions.(published := t.decisions.published + [entry]))
    ensures entry.Invocation? ==>
              Next(world, capacity, t, PublishInvocation(entry))
              == t.(invocations := t.invocations.(published := t.invocations.published + [entry]))
  {
  }

  /** The reading ends: a select that finds the bus closed, or a cancellation, goes over to the drain. */
  lemma ReadingEnds(world: World, capacity: nat, t: Task)
    requires Sound(t.decisions) && Sound(t.invocations) && t.phase == Selecting
    ensures Next(world, capacity, t, Cancel) == t.(phase := DrainingDecisions)
    ensures t.decisions.closed && t.decisions.next == |t.decisions.published| ==>
              Next(world, capacity, t, TakeDecision) == t.(phase := DrainingDecisions)
    ensures t.invocations.closed && t.invocations.next == |t.invocations.published| ==>
              Next(world, capacity, t, TakeInvocation) == t.(phase := DrainingDecisions)
  {
  }

  /** How many drain steps a task can still take. */
  function StepsLeft(t: Task): nat
    requires Sound(t.decisions) && Sound(t.invocations)
  {
    match t.phase
    case Selecting => 0
    case DrainingDecisions =>
      |t.decisions.published| - t.decisions.next + |t.invocations.published| - t.invocations.next + 2
    case DrainingInvocations => |t.invocations.published| - t.invocations.next + 1
    case Finished => 0
  }

  /** The drain ends: each of its steps leaves fewer, whatever is buffered, and with none left it has
      finished. */
  lemma DrainEnds(world: World, capacity: nat, t: Task)
    requires capacity > 0 && Sound(t.decisions) && Sound(t.invocations) && t.phase != Selecting
    ensures var t' := Next(world, capacity, t, DrainNext);
            && Sound(t'.decisions) && Sound(t'.invocations) && t'.phase != Selecting
            && (t.phase != Finished ==> StepsLeft(t') < StepsLeft(t))
    ensures StepsLeft(t) == 0 <==> t.phase == Finished
  {
  }

  /** A drain with nothing else going on is the same drain taken step by step. */
  lemma {:induction false} DrainTopicReadsAll(world: World, capacity: nat, s: Sink, topic: Topic, kind: AuditEntryKind,
                                             other: AuditEntryKind)
    requires capacity > 0 && TopicAccounted(topic, capacity, kind)
    requires SinkCounts(world, s) && HandedFrom(s, topic, kind)
    requires kind != other && !kind.IsAboutTheTrail() && !other.IsAboutTheTrail()
    ensures var (s', topic') := DrainTopic(world, capacity, s, topic);
            && topic'.published == topic.published && topic'.next == |topic.published|
            && TopicAccounted(topic', capacity, kind) && SinkCounts(world, s') && HandedFrom(s', topic', kind)
            && OfKind(s'.handed, other) == OfKind(s.handed, other)
            && GapTotal(s'.handed) == GapTotal(s.handed) + topic'.lost - topic.lost
    decreases |topic.published| - topic.next
  {
    if topic.next < |topic.published| {
      TakenAccounts(world, capacity, s, topic, kind, other);
      var (topic', received) := Receive(topic, capacity);
      DrainTopicReadsAll(world, capacity, Accepted(world, s, received), topic', kind, other);
    }
  }
}
