/** What holds over every run of appends and sweeps: of the durable store, whose batches are atomic,
    and of the in-memory store, whose sweep lets go of its lock between removing and marking. */
module TrailRuns {
  import opened AuditEntries
  import opened Trails
  import opened Words

  // ---- Durable runs ----

  datatype Op =
    | Append(entry: AuditEntry)
    | SweepBatch(cutoff: Timestamp, batch: nat, now: Timestamp)

  /** A batch with its marker; nothing at all when nothing is due or no number is left to issue. */
  function SweptBatch(t: Trail, cutoff: Timestamp, batch: nat, now: Timestamp): Trail
    requires batch <= USIZE_MAX
  {
    OldestDueSplits(t.held, cutoff, batch);
    var gone := OldestDue(t.held, cutoff, batch);
    if gone == {} || t.issued == U64_MAX then t
    else Appended(Without(t, gone), Retention(now, cutoff, |gone|))
  }

  /** Only the stores themselves write retention markers. */
  predicate Admissible(op: Op) {
    match op
    case Append(entry) => !entry.Retention?
    case SweepBatch(_, batch, _) => 0 < batch <= USIZE_MAX
  }

  function Apply(t: Trail, op: Op): Trail
    requires Admissible(op)
  {
    match op
    case Append(entry) => if t.issued < U64_MAX then Appended(t, entry) else t
    case SweepBatch(cutoff, batch, now) => SweptBatch(t, cutoff, batch, now)
  }

  ghost predicate Run(states: seq<Trail>, ops: seq<Op>) {
    && |states| == |ops| + 1
    && forall i {:trigger ops[i]} | 0 <= i < |ops| :: Admissible(ops[i]) && states[i + 1] == Apply(states[i], ops[i])
  }

  /** What a later trail owes an earlier one: numbers are only ever added, an entry never changes,
      a number once gone never returns, and nothing about the trail itself is ever removed. */
  ghost predicate Extends(t: Trail, t': Trail) {
    && t.issued <= t'.issued
    && (forall s | s in t.held && s in t'.held :: t'.held[s] == t.held[s])
    && (forall s | s in t.held && t.held[s].IsAboutTheTrail() :: s in t'.held)
    && (forall s | s in t'.held && s <= t.issued :: s in t.held)
  }

  lemma ApplyExtends(t: Trail, op: Op)
    requires WellNumbered(t) && Balanced(t) && Admissible(op)
    ensures WellNumbered(Apply(t, op)) && Balanced(Apply(t, op)) && Extends(t, Apply(t, op))
  {
    match op
    case Append(entry) =>
      if t.issued < U64_MAX {
        PlainAppendAccounts(t, Appended(t, entry), entry);
        AppendExtends(t, entry);
      }
    case SweepBatch(cutoff, batch, now) =>
      BatchExtends(t, cutoff, batch, now);
  }

  lemma AppendExtends(t: Trail, entry: AuditEntry)
    requires WellNumbered(t) && t.issued < U64_MAX
    ensures Extends(t, Appended(t, entry))
  {
  }

  /** An entry that is no marker adds itself and accounts for nothing else. */
  lemma PlainAppendAccounts(t: Trail, t': Trail, entry: AuditEntry)
    requires WellNumbered(t) && t.issued < U64_MAX && !entry.Retention? && t' == Appended(t, entry)
    ensures WellNumbered(t') && t'.issued == t.issued + 1 && |t'.held| == |t.held| + 1
    ensures Accounted(t'.held, t'.issued) == Accounted(t.held, t.issued)
  {
    AppendedAccounts(t, entry);
    assert RemovedBy(entry) == 0;
  }

  lemma WithoutExtends(t: Trail, gone: set<u64>, cutoff: Timestamp)
    requires gone <= Due(t.held, cutoff)
    ensures Extends(t, Without(t, gone))
  {
  }

  lemma ExtendsTransitive(a: Trail, b: Trail, c: Trail)
    requires Extends(a, b) && Extends(b, c) && WellNumbered(a)
    ensures Extends(a, c)
  {
    forall s | s in a.held && s in c.held ensures c.held[s] == a.held[s] {
      assert s in b.held;
    }
    forall s | s in a.held && a.held[s].IsAboutTheTrail() ensures s in c.held {
      assert s in b.held && b.held[s] == a.held[s];
    }
  }

  lemma BatchExtends(t: Trail, cutoff: Timestamp, batch: nat, now: Timestamp)
    requires WellNumbered(t) && batch <= USIZE_MAX
    ensures var t' := SweptBatch(t, cutoff, batch, now);
            && WellNumbered(t') && Extends(t, t') && (Balanced(t) ==> Balanced(t'))
            && (forall s | s in t.held && s !in Due(t.held, cutoff) :: s in t'.held)
            && (OldestDue(t.held, cutoff, batch) != {} && t.issued < U64_MAX ==>
                  && t'.issued == t.issued + 1 && t'.issued in t'.held
                  && t'.held[t'.issued] == Retention(now, cutoff, |OldestDue(t.held, cutoff, batch)|))
            && (t.issued < U64_MAX ==>
                  Accounted(t'.held, t'.issued)
                  == Accounted(t.held, t.issued) + |OldestDue(t.held, cutoff, batch)|)
  {
    OldestDueSplits(t.held, cutoff, batch);
    if OldestDue(t.held, cutoff, batch) != {} && t.issued < U64_MAX {
      MarkedRemovalExtends(t, OldestDue(t.held, cutoff, batch), cutoff, now);
    }
  }

  lemma MarkedRemovalExtends(t: Trail, gone: set<u64>, cutoff: Timestamp, now: Timestamp)
    requires WellNumbered(t) && t.issued < U64_MAX && |gone| <= U64_MAX && gone <= Due(t.held, cutoff)
    ensures var t' := Appended(Without(t, gone), Retention(now, cutoff, |gone|));
            && WellNumbered(t') && Extends(t, t') && (Balanced(t) ==> Balanced(t'))
            && (forall s | s in t.held && s !in Due(t.held, cutoff) :: s in t'.held)
            && Accounted(t'.held, t'.issued) == Accounted(t.held, t.issued) + |gone|
  {
    var left, marker := Without(t, gone), Retention(now, cutoff, |gone|);
    WithoutAccounts(t, gone, cutoff);
    WithoutExtends(t, gone, cutoff);
    MarkerExtends(t, left, marker);
  }

  lemma MarkerExtends(t: Trail, left: Trail, marker: AuditEntry)
    requires WellNumbered(t) && WellNumbered(left) && Extends(t, left) && t.issued == left.issued < U64_MAX
    ensures var t' := Appended(left, marker);
            && WellNumbered(t') && Extends(t, t')
            && Accounted(t'.held, t'.issued) == Accounted(left.held, left.issued) + RemovedBy(marker)
            && |t'.held| == |left.held| + 1
            && forall s | s in left.held :: s in t'.held
  {
    AppendedAccounts(left, marker);
    AppendExtends(left, marker);
    ExtendsTransitive(t, left, Appended(left, marker));
  }

  ghost predicate Sound(t: Trail) {
    WellNumbered(t) && Balanced(t)
  }

  /** Conservation, over every run from the empty trail: the highest number issued is the records
      held plus what the markers held say was removed, and no state ever takes back what an earlier
      one issued. */
  lemma RunConserves(states: seq<Trail>, ops: seq<Op>)
    requires Run(states, ops) && states[0] == Trail(map[], 0)
    ensures forall i | 0 <= i < |states| :: Sound(states[i])
    ensures forall i, j | 0 <= i <= j < |states| :: Extends(states[i], states[j])
  {
    forall i | 0 <= i < |states| ensures Sound(states[i]) {
      StateSound(states, ops, i);
    }
    forall i, j | 0 <= i <= j < |states| ensures Extends(states[i], states[j]) {
      RunExtends(states, ops, i, j);
    }
  }

  lemma {:induction false} StateSound(states: seq<Trail>, ops: seq<Op>, i: nat)
    requires Run(states, ops) && states[0] == Trail(map[], 0) && i < |states|
    ensures Sound(states[i])
  {
    if i > 0 {
      StateSound(states, ops, i - 1);
      StepExtends(states, ops, i - 1);
    }
  }

  lemma StepExtends(states: seq<Trail>, ops: seq<Op>, i: nat)
    requires Run(states, ops) && i < |ops| && Sound(states[i])
    ensures Sound(states[i + 1]) && Extends(states[i], states[i + 1])
  {
    assert ops[i] in ops;
    ApplyExtends(states[i], ops[i]);
  }

  lemma {:induction false} RunExtends(states: seq<Trail>, ops: seq<Op>, i: nat, j: nat)
    requires Run(states, ops) && states[0] == Trail(map[], 0) && i <= j < |states|
    ensures Extends(states[i], states[j])
    decreases j
  {
    if i < j {
      RunExtends(states, ops, i, j - 1);
      StateSound(states, ops, i);
      StateSound(states, ops, j - 1);
      StepExtends(states, ops, j - 1);
      ExtendsTransitive(states[i], states[j - 1], states[j]);
    }
  }

  /** The instant a batch comes back short, nothing sweepable is left, whatever was appended between
      the batches before it. */
  lemma ShortBatchLeavesNothing(t: Trail, cutoff: Timestamp, batch: nat, now: Timestamp)
    requires WellNumbered(t) && batch <= USIZE_MAX && t.issued < U64_MAX
    requires |OldestDue(t.held, cutoff, batch)| < batch
    ensures Due(SweptBatch(t, cutoff, batch, now).held, cutoff) == {}
  {
    OldestDueSplits(t.held, cutoff, batch);
    SubsetSameSize(OldestDue(t.held, cutoff, batch), Due(t.held, cutoff));
  }

  // ---- In-memory runs ----

  /** The in-memory store mid-flight. `inFlight` lists sweeps that have removed their records and
      not yet written their marker; `lost` is what was removed by sweeps whose marker was refused. */
  datatype Memory = Memory(trail: Trail, inFlight: seq<Removal>, lost: nat)

  datatype Removal = Removal(cutoff: Timestamp, removed: nat)

  datatype MemoryStep =
    | AppendStep(entry: AuditEntry)
    | RetainStep(cutoff: Timestamp)
    | MarkStep(which: nat, now: Timestamp)

  predicate Enabled(m: Memory, step: MemoryStep) {
    match step
    case AppendStep(entry) => !entry.Retention?
    case RetainStep(_) => true
    case MarkStep(which, _) => which < |m.inFlight| && m.inFlight[which].removed <= U64_MAX
  }

  function AppendedTo(m: Memory, entry: AuditEntry): Memory {
    if m.trail.issued < U64_MAX then m.(trail := Appended(m.trail, entry)) else m
  }

  /** The first lock section of a sweep: what is due goes, and is counted. */
  function Retained(m: Memory, cutoff: Timestamp): Memory {
    var due := Due(m.trail.held, cutoff);
    if due == {} then m
    else m.(trail := Without(m.trail, due), inFlight := m.inFlight + [Removal(cutoff, |due|)])
  }

  /** The second: its marker, or nothing where no number is left. */
  function Marked(m: Memory, which: nat, now: Timestamp): Memory
    requires which < |m.inFlight| && m.inFlight[which].removed <= U64_MAX
  {
    var done := m.inFlight[which];
    var rest := m.inFlight[..which] + m.inFlight[which + 1..];
    if m.trail.issued < U64_MAX then
      m.(trail := Appended(m.trail, Retention(now, done.cutoff, done.removed)), inFlight := rest)
    else
      m.(inFlight := rest, lost := m.lost + done.removed)
  }

  function MemoryNext(m: Memory, step: MemoryStep): Memory
    requires Enabled(m, step)
  {
    match step
    case AppendStep(entry) => AppendedTo(m, entry)
    case RetainStep(cutoff) => Retained(m, cutoff)
    case MarkStep(which, now) => Marked(m, which, now)
  }

  function Unmarked(inFlight: seq<Removal>): nat {
    if inFlight == [] then 0 else inFlight[0].removed + Unmarked(inFlight[1..])
  }

  lemma {:induction false} UnmarkedJoin(a: seq<Removal>, b: seq<Removal>)
    ensures Unmarked(a + b) == Unmarked(a) + Unmarked(b)
  {
    if a == [] {
      assert a + b == b;
    } else {
      assert (a + b)[1..] == a[1..] + b;
      UnmarkedJoin(a[1..], b);
    }
  }

  /** Conservation while sweeps are in flight: what they removed and have not marked is missing from
      the trail's own account, and so for ever is what a refused marker would have said. */
  ghost predicate MemoryBalanced(m: Memory) {
    && WellNumbered(m.trail)
    && m.trail.issued
       == |m.trail.held| + Accounted(m.trail.held, m.trail.issued) + Unmarked(m.inFlight) + m.lost
    && (m.lost > 0 ==> m.trail.issued == U64_MAX)
  }

  lemma AppendConserves(m: Memory, entry: AuditEntry)
    requires MemoryBalanced(m) && !entry.Retention?
    ensures MemoryBalanced(AppendedTo(m, entry)) && Extends(m.trail, AppendedTo(m, entry).trail)
  {
    if m.trail.issued < U64_MAX {
      PlainAppendAccounts(m.trail, Appended(m.trail, entry), entry);
      AppendExtends(m.trail, entry);
    }
  }

  lemma RetainConserves(m: Memory, cutoff: Timestamp)
    requires MemoryBalanced(m)
    ensures MemoryBalanced(Retained(m, cutoff)) && Extends(m.trail, Retained(m, cutoff).trail)
  {
    var due := Due(m.trail.held, cutoff);
    WithoutAccounts(m.trail, due, cutoff);
    WithoutExtends(m.trail, due, cutoff);
    UnmarkedJoin(m.inFlight, [Removal(cutoff, |due|)]);
    assert Unmarked([Removal(cutoff, |due|)]) == |due|;
  }

  lemma MarkConserves(m: Memory, which: nat, now: Timestamp)
    requires MemoryBalanced(m) && which < |m.inFlight| && m.inFlight[which].removed <= U64_MAX
    ensures MemoryBalanced(Marked(m, which, now)) && Extends(m.trail, Marked(m, which, now).trail)
  {
    TakeOne(m.inFlight, which);
    if m.trail.issued < U64_MAX {
      var marker := Retention(now, m.inFlight[which].cutoff, m.inFlight[which].removed);
      AppendedAccounts(m.trail, marker);
      AppendExtends(m.trail, marker);
    }
  }

  lemma MemoryStepConserves(m: Memory, step: MemoryStep)
    requires MemoryBalanced(m) && Enabled(m, step)
    ensures MemoryBalanced(MemoryNext(m, step)) && Extends(m.trail, MemoryNext(m, step).trail)
  {
    match step
    case AppendStep(entry) => AppendConserves(m, entry);
    case RetainStep(cutoff) => RetainConserves(m, cutoff);
    case MarkStep(which, now) => MarkConserves(m, which, now);
  }

  lemma TakeOne(inFlight: seq<Removal>, which: nat)
    requires which < |inFlight|
    ensures Unmarked(inFlight)
         == Unmarked(inFlight[..which] + inFlight[which + 1..]) + inFlight[which].removed
  {
    var before, after := inFlight[..which], inFlight[which + 1..];
    assert inFlight == before + ([inFlight[which]] + after);
    UnmarkedJoin(before, [inFlight[which]] + after);
    UnmarkedJoin(before, after);
    assert ([inFlight[which]] + after)[1..] == after;
  }

  /** A run of the in-memory store: each step enabled where it is taken. */
  ghost predicate MemoryRun(states: seq<Memory>, steps: seq<MemoryStep>) {
    && |states| == |steps| + 1
    && forall i {:trigger steps[i]} | 0 <= i < |steps| ::
         Enabled(states[i], steps[i]) && states[i + 1] == MemoryNext(states[i], steps[i])
  }

  /** Over every interleaving of appends and sweeps from the empty store: the equation holds with the
      in-flight removals added, what was ever issued stays issued, and the account is exact once no
      sweep is in flight unless the numbers themselves have run out. */
  lemma MemoryRunConserves(states: seq<Memory>, steps: seq<MemoryStep>)
    requires MemoryRun(states, steps) && states[0] == Memory(Trail(map[], 0), [], 0)
    ensures forall i | 0 <= i < |states| :: MemoryBalanced(states[i])
    ensures forall i, j | 0 <= i <= j < |states| :: Extends(states[i].trail, states[j].trail)
    ensures forall i | 0 <= i < |states| ::
              states[i].inFlight == [] && states[i].trail.issued < U64_MAX ==> Balanced(states[i].trail)
  {
    forall i | 0 <= i < |states| ensures MemoryBalanced(states[i]) {
      MemoryStateBalanced(states, steps, i);
    }
    forall i, j | 0 <= i <= j < |states| ensures Extends(states[i].trail, states[j].trail) {
      MemoryExtends(states, steps, i, j);
    }
  }

  lemma {:induction false} MemoryStateBalanced(states: seq<Memory>, steps: seq<MemoryStep>, i: nat)
    requires MemoryRun(states, steps) && states[0] == Memory(Trail(map[], 0), [], 0) && i < |states|
    ensures MemoryBalanced(states[i])
  {
    if i > 0 {
      MemoryStateBalanced(states, steps, i - 1);
      MemoryStateConserves(states, steps, i - 1);
    }
  }

  lemma MemoryStateConserves(states: seq<Memory>, steps: seq<MemoryStep>, i: nat)
    requires MemoryRun(states, steps) && i < |steps| && MemoryBalanced(states[i])
    ensures MemoryBalanced(states[i + 1]) && Extends(states[i].trail, states[i + 1].trail)
  {
    MemoryStepConserves(states[i], steps[i]);
  }

  lemma {:induction false} MemoryExtends(states: seq<Memory>, steps: seq<MemoryStep>, i: nat, j: nat)
    requires MemoryRun(states, steps) && states[0] == Memory(Trail(map[], 0), [], 0) && i <= j < |states|
    ensures Extends(states[i].trail, states[j].trail)
    decreases j
  {
    if i < j {
      MemoryExtends(states, steps, i, j - 1);
      MemoryStateBalanced(states, steps, i);
      MemoryStateBalanced(states, steps, j - 1);
      MemoryStateConserves(states, steps, j - 1);
      ExtendsTransitive(states[i].trail, states[j - 1].trail, states[j].trail);
    }
  }

  // ---- When the account goes wrong ----

  /** A marker is refused at this step: no number is left to issue to it. */
  predicate Refuses(m: Memory, step: MemoryStep) {
    step.MarkStep? && m.trail.issued == U64_MAX
  }

  predicate NoneEmpty(inFlight: seq<Removal>) {
    forall i | 0 <= i < |inFlight| :: inFlight[i].removed > 0
  }

  /** A refused marker, and nothing else, is a loss. */
  lemma StepLosesExactlyWhen(m: Memory, step: MemoryStep)
    requires Enabled(m, step) && NoneEmpty(m.inFlight)
    ensures NoneEmpty(MemoryNext(m, step).inFlight)
    ensures MemoryNext(m, step).lost >= m.lost
    ensures MemoryNext(m, step).lost > m.lost <==> Refuses(m, step)
  {
  }

  /** A marker was refused before the `i`th state. */
  ghost predicate RefusedBy(states: seq<Memory>, steps: seq<MemoryStep>, i: nat)
    requires i <= |steps| <= |states|
  {
    exists k {:trigger steps[k]} :: 0 <= k < i && Refuses(states[k], steps[k])
  }

  lemma RefusedByNext(states: seq<Memory>, steps: seq<MemoryStep>, i: nat)
    requires i < |steps| <= |states|
    ensures RefusedBy(states, steps, i + 1) <==> RefusedBy(states, steps, i) || Refuses(states[i], steps[i])
  {
    if RefusedBy(states, steps, i + 1) {
      var k {:trigger steps[k]} :| 0 <= k < i + 1 && Refuses(states[k], steps[k]);
    }
  }

  lemma {:induction false} RunLosesExactlyWhen(states: seq<Memory>, steps: seq<MemoryStep>, i: nat)
    requires MemoryRun(states, steps) && states[0] == Memory(Trail(map[], 0), [], 0) && i < |states|
    ensures NoneEmpty(states[i].inFlight)
    ensures states[i].lost > 0 <==> RefusedBy(states, steps, i)
  {
    if i > 0 {
      RunLosesExactlyWhen(states, steps, i - 1);
      StateLosesExactlyWhen(states, steps, i - 1);
      RefusedByNext(states, steps, i - 1);
    }
  }

  lemma StateLosesExactlyWhen(states: seq<Memory>, steps: seq<MemoryStep>, i: nat)
    requires MemoryRun(states, steps) && i < |steps| && NoneEmpty(states[i].inFlight)
    ensures NoneEmpty(states[i + 1].inFlight) && states[i + 1].lost >= states[i].lost
    ensures states[i + 1].lost > states[i].lost <==> Refuses(states[i], steps[i])
  {
    StepLosesExactlyWhen(states[i], steps[i]);
  }

  /** In every run of the in-memory store, whenever no sweep is in flight, the trail accounts for every
      number issued exactly when no marker has been refused for want of one. */
  lemma AccountIsExactExactlyWhen(states: seq<Memory>, steps: seq<MemoryStep>, i: nat)
    requires MemoryRun(states, steps) && states[0] == Memory(Trail(map[], 0), [], 0) && i < |states|
    requires states[i].inFlight == []
    ensures Balanced(states[i].trail) <==> !RefusedBy(states, steps, i)
  {
    MemoryStateBalanced(states, steps, i);
    RunLosesExactlyWhen(states, steps, i);
  }

  lemma MemoryRunOnward(states: seq<Memory>, steps: seq<MemoryStep>, step: MemoryStep)
    requires MemoryRun(states, steps) && Enabled(states[|steps|], step)
    ensures MemoryRun(states + [MemoryNext(states[|steps|], step)], steps + [step])
  {
    var states', steps' := states + [MemoryNext(states[|steps|], step)], steps + [step];
    forall i | 0 <= i < |steps'|
      ensures Enabled(states'[i], steps'[i]) && states'[i + 1] == MemoryNext(states'[i], steps'[i])
    {
      if i < |steps| { assert steps'[i] == steps[i]; }
    }
  }

  /** What `n` appends of one entry leave. */
  ghost predicate Repeats(m: Memory, entry: AuditEntry, n: u64) {
    && m.inFlight == [] && m.lost == 0
    && m.trail.issued == |m.trail.held| == n
    && forall s | s in m.trail.held :: 1 <= s <= n && m.trail.held[s] == entry
  }

  lemma {:induction false} AppendsReach(entry: AuditEntry, n: u64) returns (states: seq<Memory>, steps: seq<MemoryStep>)
    requires !entry.Retention?
    ensures MemoryRun(states, steps) && states[0] == Memory(Trail(map[], 0), [], 0)
    ensures Repeats(states[|steps|], entry, n)
    decreases n
  {
    if n == 0 {
      states, steps := [Memory(Trail(map[], 0), [], 0)], [];
    } else {
      states, steps := AppendsReach(entry, n - 1);
      MemoryRunOnward(states, steps, AppendStep(entry));
      states, steps := states + [MemoryNext(states[|steps|], AppendStep(entry))], steps + [AppendStep(entry)];
    }
  }

  /** And there is a run that refuses one: with every number issued the trail accounts for them all,
      and a sweep then removes every record and has nothing to say so with. */
  lemma RefusedMarkerLosesTheAccount(cutoff: Timestamp, entry: AuditEntry, now: Timestamp)
    returns (states: seq<Memory>, steps: seq<MemoryStep>)
    requires !SurvivesRetention(entry, cutoff)
    ensures MemoryRun(states, steps) && states[0] == Memory(Trail(map[], 0), [], 0) && |steps| >= 2
    ensures states[|steps| - 2].inFlight == [] && Balanced(states[|steps| - 2].trail)
    ensures states[|steps|] == Memory(Trail(map[], U64_MAX), [], U64_MAX) && !Balanced(states[|steps|].trail)
  {
    states, steps := AppendsReach(entry, U64_MAX);
    var full := states[|steps|].trail;
    MemoryStateBalanced(states, steps, |steps|);
    assert Due(full.held, cutoff) == full.held.Keys;
    assert Without(full, full.held.Keys).held == map[];
    var removed := Memory(Trail(map[], U64_MAX), [Removal(cutoff, U64_MAX)], 0);
    assert |full.held.Keys| == U64_MAX;
    assert full.held.Keys != {};
    assert MemoryNext(states[|steps|], RetainStep(cutoff)) == removed;
    MemoryRunOnward(states, steps, RetainStep(cutoff));
    states, steps := states + [removed], steps + [RetainStep(cutoff)];
    MemoryRunOnward(states, steps, MarkStep(0, now));
    var lost := Memory(Trail(map[], U64_MAX), [], U64_MAX);
    assert MemoryNext(removed, MarkStep(0, now)) == lost;
    states, steps := states + [lost], steps + [MarkStep(0, now)];
    MemoryStateBalanced(states, steps, |steps|);
  }
}
