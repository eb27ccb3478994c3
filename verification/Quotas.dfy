/** Cumulative ceilings over runs that interleave: checked before each model turn, charged after it. */
module Quotas {
  import opened Wrappers
  import opened Conversation
  import AgentDrivers
  import AgentRounds
  import AgentRun
  import opened Words

  datatype Dimension = Turns | InputTokens | OutputTokens | TotalTokens | CostMicros

  /** What one completed turn cost; the price is the ledger's own. */
  datatype Charge = Charge(inputTokens: u64, outputTokens: u64, costMicros: u64)

  /** A row of the ledger. */
  datatype Counters = Counters(turns: u64, inputTokens: u64, outputTokens: u64, costMicros: u64)

  const NOTHING: Counters := Counters(0, 0, 0, 0)

  function Get(c: Counters, d: Dimension): u64 {
    match d
    case Turns => c.turns
    case InputTokens => c.inputTokens
    case OutputTokens => c.outputTokens
    case TotalTokens => SaturatingAdd(c.inputTokens, c.outputTokens)
    case CostMicros => c.costMicros
  }

  function Charged(c: Counters, charge: Charge): Counters {
    Counters(SaturatingAdd(c.turns, 1), SaturatingAdd(c.inputTokens, charge.inputTokens),
             SaturatingAdd(c.outputTokens, charge.outputTokens), SaturatingAdd(c.costMicros, charge.costMicros))
  }

  /** Whether a ceiling is reached. */
  predicate Exhausted(c: Counters, d: Dimension, limit: u64) {
    Get(c, d) >= limit
  }

  /** Refused when any ceiling is reached. */
  predicate Refused(c: Counters, ceilings: map<Dimension, u64>) {
    exists d :: d in ceilings && Exhausted(c, d, ceilings[d])
  }

  // ---- Runs that interleave ----

  /** A run between turns, one whose model call is under way, or one that is over. */
  datatype RunPhase = Between | Taking | Over

  /** The runs of one subject in one window, the ledger's row, and the charges behind it: those recorded,
      and those of turns that were taken and could not be. */
  datatype Ledger = Ledger(runs: seq<RunPhase>, counters: Counters, recorded: seq<Charge>, unrecorded: seq<Charge>)

  datatype Action =
    | Check(run: nat, broken: bool)
    | Answered(run: nat, charge: Charge, kept: bool)
    | ModelFails(run: nat)
    | Finishes(run: nat)

  function Moved(l: Ledger, run: nat, to: RunPhase): Ledger
    requires run < |l.runs|
  {
    l.(runs := l.runs[run := to])
  }

  function Recorded(l: Ledger, charge: Charge): Ledger {
    l.(counters := Charged(l.counters, charge), recorded := l.recorded + [charge])
  }

  function Unrecorded(l: Ledger, charge: Charge): Ledger {
    l.(unrecorded := l.unrecorded + [charge])
  }

  /** What one action does; one that does not fit the run's phase changes nothing. A guard that cannot
      decide refuses, and a charge that cannot be recorded ends the run. */
  function Next(ceilings: map<Dimension, u64>, l: Ledger, action: Action): Ledger {
    if action.run >= |l.runs| then l
    else
      var phase := l.runs[action.run];
      match action
      case Check(i, broken) =>
        if phase != Between then l
        else Moved(l, i, if broken || Refused(l.counters, ceilings) then Over else Taking)
      case Answered(i, charge, kept) =>
        if phase != Taking then l
        else if kept then Recorded(Moved(l, i, Between), charge)
        else Unrecorded(Moved(l, i, Over), charge)
      case ModelFails(i) => if phase != Taking then l else Moved(l, i, Over)
      case Finishes(i) => if phase != Between then l else Moved(l, i, Over)
  }

  // ---- What was spent ----

  function Amount(charge: Charge, d: Dimension): nat {
    match d
    case Turns => 1
    case InputTokens => charge.inputTokens
    case OutputTokens => charge.outputTokens
    case TotalTokens => charge.inputTokens + charge.outputTokens
    case CostMicros => charge.costMicros
  }

  function Spent(charges: seq<Charge>, d: Dimension): nat {
    if charges == [] then 0 else Spent(charges[..|charges| - 1], d) + Amount(charges[|charges| - 1], d)
  }

  lemma SpentSnoc(charges: seq<Charge>, charge: Charge, d: Dimension)
    ensures Spent(charges + [charge], d) == Spent(charges, d) + Amount(charge, d)
  {
    assert (charges + [charge])[..|charges|] == charges;
  }

  lemma {:induction false} SpentSplits(charges: seq<Charge>)
    ensures Spent(charges, TotalTokens) == Spent(charges, InputTokens) + Spent(charges, OutputTokens)
    ensures Spent(charges, Turns) == |charges|
  {
    if charges != [] {
      SpentSplits(charges[..|charges| - 1]);
    }
  }

  function Capped(n: nat): u64 {
    if n <= U64_MAX then n else U64_MAX
  }

  /** The row is what was recorded, saturated. */
  ghost predicate RowIsRecorded(c: Counters, recorded: seq<Charge>) {
    && c.turns == Capped(Spent(recorded, Turns))
    && c.inputTokens == Capped(Spent(recorded, InputTokens))
    && c.outputTokens == Capped(Spent(recorded, OutputTokens))
    && c.costMicros == Capped(Spent(recorded, CostMicros))
  }

  lemma RowReads(c: Counters, recorded: seq<Charge>, d: Dimension)
    requires RowIsRecorded(c, recorded)
    ensures Get(c, d) == Capped(Spent(recorded, d))
  {
    SpentSplits(recorded);
  }

  lemma CappedAdds(n: nat, m: u64)
    ensures SaturatingAdd(Capped(n), m) == Capped(n + m)
  {
  }

  lemma ChargedRecords(c: Counters, recorded: seq<Charge>, charge: Charge)
    requires RowIsRecorded(c, recorded)
    ensures RowIsRecorded(Charged(c, charge), recorded + [charge])
  {
    RecordsOne(recorded, charge, Turns, 1);
    RecordsOne(recorded, charge, InputTokens, charge.inputTokens);
    RecordsOne(recorded, charge, OutputTokens, charge.outputTokens);
    RecordsOne(recorded, charge, CostMicros, charge.costMicros);
  }

  lemma RecordsOne(recorded: seq<Charge>, charge: Charge, d: Dimension, amount: u64)
    requires amount == Amount(charge, d)
    ensures SaturatingAdd(Capped(Spent(recorded, d)), amount) == Capped(Spent(recorded + [charge], d))
  {
    SpentSnoc(recorded, charge, d);
    CappedAdds(Spent(recorded, d), amount);
  }

  // ---- Overshoot ----

  function Count(runs: seq<RunPhase>, phase: RunPhase): nat {
    if runs == [] then 0 else Count(runs[..|runs| - 1], phase) + (if runs[|runs| - 1] == phase then 1 else 0)
  }

  lemma {:induction false} CountUpdate(runs: seq<RunPhase>, i: nat, to: RunPhase, phase: RunPhase)
    requires i < |runs|
    ensures Count(runs[i := to], phase)
         == Count(runs, phase) - (if runs[i] == phase then 1 else 0) + (if to == phase then 1 else 0)
  {
    var front := runs[..|runs| - 1];
    if i == |runs| - 1 {
      assert runs[i := to][..|runs| - 1] == front;
    } else {
      assert runs[i := to][..|runs| - 1] == front[i := to];
      CountUpdate(front, i, to, phase);
    }
  }

  lemma {:induction false} CountsWithin(runs: seq<RunPhase>)
    ensures Count(runs, Between) + Count(runs, Taking) + Count(runs, Over) == |runs|
  {
    if runs != [] {
      CountsWithin(runs[..|runs| - 1]);
    }
  }

  /** Every turn under way could still cost `most`, every turn that went unrecorded cost at most that and
      ended its run, and together they stay within one charge a run of the ceiling. */
  ghost predicate WithinOvershoot(l: Ledger, d: Dimension, limit: u64, most: nat) {
    Within(Spent(l.recorded, d), Spent(l.unrecorded, d), Count(l.runs, Taking), |l.unrecorded|, Count(l.runs, Over),
           limit + Times(|l.runs|, most), most)
  }

  predicate Within(spent: nat, unspent: nat, taking: nat, lost: nat, over: nat, bound: nat, most: nat) {
    && lost <= over
    && unspent <= Times(lost, most)
    && ((spent == 0 && taking == 0 && lost == 0) || spent + Times(taking + lost, most) < bound)
  }

  lemma Taken(spent: nat, unspent: nat, taking: nat, lost: nat, over: nat, limit: nat, k: nat, most: nat)
    requires Within(spent, unspent, taking, lost, over, limit + Times(k, most), most)
    requires spent < limit && taking + 1 + over <= k
    ensures Within(spent, unspent, taking + 1, lost, over, limit + Times(k, most), most)
  {
    TimesGrows(taking + 1 + lost, k, most);
  }

  lemma Kept(spent: nat, unspent: nat, taking: nat, lost: nat, over: nat, bound: nat, most: nat, amount: nat)
    requires Within(spent, unspent, taking, lost, over, bound, most) && taking >= 1 && amount <= most
    ensures Within(spent + amount, unspent, taking - 1, lost, over, bound, most)
  {
    assert Times(taking + lost, most) == Times(taking - 1 + lost, most) + most;
  }

  lemma Lost(spent: nat, unspent: nat, taking: nat, lost: nat, over: nat, bound: nat, most: nat, amount: nat)
    requires Within(spent, unspent, taking, lost, over, bound, most) && taking >= 1 && amount <= most
    ensures Within(spent, unspent + amount, taking - 1, lost + 1, over + 1, bound, most)
  {
    assert Times(lost + 1, most) == Times(lost, most) + most;
  }

  lemma Left(spent: nat, unspent: nat, taking: nat, taking': nat, lost: nat, over: nat, bound: nat, most: nat)
    requires Within(spent, unspent, taking, lost, over, bound, most) && taking' <= taking
    ensures Within(spent, unspent, taking', lost, over + 1, bound, most)
  {
    TimesGrows(taking' + lost, taking + lost, most);
  }

  /** `count` charges of `most` each. */
  function Times(count: nat, most: nat): nat {
    if count == 0 then 0 else Times(count - 1, most) + most
  }

  lemma {:induction false} TimesIs(count: nat, most: nat)
    ensures Times(count, most) == most * count
  {
    if count > 0 {
      TimesIs(count - 1, most);
    }
  }

  lemma {:induction false} TimesGrows(a: nat, b: nat, most: nat)
    requires a <= b
    ensures Times(a, most) <= Times(b, most)
    decreases b
  {
    if a < b {
      TimesGrows(a, b - 1, most);
    }
  }

  lemma AdmittedStaysWithin(l: Ledger, i: nat, d: Dimension, limit: u64, most: nat)
    requires i < |l.runs| && l.runs[i] == Between && Spent(l.recorded, d) < limit
    requires WithinOvershoot(l, d, limit, most)
    ensures WithinOvershoot(Moved(l, i, Taking), d, limit, most)
  {
    CountsWithin(l.runs);
    CountUpdate(l.runs, i, Taking, Between);
    CountUpdate(l.runs, i, Taking, Taking);
    CountUpdate(l.runs, i, Taking, Over);
    CountUpdate(l.runs, i, Over, Between);
    Taken(Spent(l.recorded, d), Spent(l.unrecorded, d), Count(l.runs, Taking), |l.unrecorded|, Count(l.runs, Over),
          limit, |l.runs|, most);
  }

  lemma EndedStaysWithin(l: Ledger, i: nat, d: Dimension, limit: u64, most: nat)
    requires i < |l.runs| && l.runs[i] != Over && WithinOvershoot(l, d, limit, most)
    ensures WithinOvershoot(Moved(l, i, Over), d, limit, most)
  {
    CountUpdate(l.runs, i, Over, Taking);
    CountUpdate(l.runs, i, Over, Over);
    Left(Spent(l.recorded, d), Spent(l.unrecorded, d), Count(l.runs, Taking), Count(l.runs[i := Over], Taking),
         |l.unrecorded|, Count(l.runs, Over), limit + Times(|l.runs|, most), most);
  }

  lemma RecordedStaysWithin(l: Ledger, i: nat, charge: Charge, d: Dimension, limit: u64, most: nat)
    requires i < |l.runs| && l.runs[i] == Taking && Amount(charge, d) <= most && WithinOvershoot(l, d, limit, most)
    ensures WithinOvershoot(Recorded(Moved(l, i, Between), charge), d, limit, most)
  {
    CountUpdate(l.runs, i, Between, Taking);
    CountUpdate(l.runs, i, Between, Over);
    SpentSnoc(l.recorded, charge, d);
    Kept(Spent(l.recorded, d), Spent(l.unrecorded, d), Count(l.runs, Taking), |l.unrecorded|, Count(l.runs, Over),
         limit + Times(|l.runs|, most), most, Amount(charge, d));
  }

  lemma UnrecordedStaysWithin(l: Ledger, i: nat, charge: Charge, d: Dimension, limit: u64, most: nat)
    requires i < |l.runs| && l.runs[i] == Taking && Amount(charge, d) <= most && WithinOvershoot(l, d, limit, most)
    ensures WithinOvershoot(Unrecorded(Moved(l, i, Over), charge), d, limit, most)
  {
    CountUpdate(l.runs, i, Over, Taking);
    CountUpdate(l.runs, i, Over, Over);
    SpentSnoc(l.unrecorded, charge, d);
    Lost(Spent(l.recorded, d), Spent(l.unrecorded, d), Count(l.runs, Taking), |l.unrecorded|, Count(l.runs, Over),
         limit + Times(|l.runs|, most), most, Amount(charge, d));
  }

  lemma AdmittedHasRoom(c: Counters, recorded: seq<Charge>, ceilings: map<Dimension, u64>, d: Dimension)
    requires RowIsRecorded(c, recorded) && d in ceilings && !Refused(c, ceilings)
    ensures Spent(recorded, d) < ceilings[d]
  {
    assert !Exhausted(c, d, ceilings[d]);
    RowReads(c, recorded, d);
  }

  lemma NextStaysWithin(ceilings: map<Dimension, u64>, l: Ledger, action: Action, d: Dimension, most: nat)
    requires d in ceilings && RowIsRecorded(l.counters, l.recorded)
    requires action.Answered? ==> Amount(action.charge, d) <= most
    requires WithinOvershoot(l, d, ceilings[d], most)
    ensures WithinOvershoot(Next(ceilings, l, action), d, ceilings[d], most)
  {
    var i := action.run;
    if i < |l.runs| && l.runs[i] == Between {
      EndedStaysWithin(l, i, d, ceilings[d], most);
      if action.Check? && !Refused(l.counters, ceilings) {
        AdmittedHasRoom(l.counters, l.recorded, ceilings, d);
        AdmittedStaysWithin(l, i, d, ceilings[d], most);
      }
    } else if i < |l.runs| && l.runs[i] == Taking {
      EndedStaysWithin(l, i, d, ceilings[d], most);
      if action.Answered? {
        RecordedStaysWithin(l, i, action.charge, d, ceilings[d], most);
        UnrecordedStaysWithin(l, i, action.charge, d, ceilings[d], most);
      }
    }
  }

  ghost predicate IsHistory(ceilings: map<Dimension, u64>, k: nat, ledgers: seq<Ledger>, actions: seq<Action>) {
    && |ledgers| == |actions| + 1
    && ledgers[0] == Ledger(seq(k, _ => Between), NOTHING, [], [])
    && forall i {:trigger actions[i]} :: 0 <= i < |actions| ==>
         ledgers[i + 1] == Next(ceilings, ledgers[i], actions[i])
  }

  /** No turn of these cost more than `most`. */
  ghost predicate ChargesWithin(actions: seq<Action>, d: Dimension, most: nat) {
    forall j | 0 <= j < |actions| && actions[j].Answered? :: Amount(actions[j].charge, d) <= most
  }

  lemma HistorySteps(ceilings: map<Dimension, u64>, k: nat, ledgers: seq<Ledger>, actions: seq<Action>, i: nat)
    requires IsHistory(ceilings, k, ledgers, actions) && i < |actions|
    ensures ledgers[i + 1] == Next(ceilings, ledgers[i], actions[i])
  {
  }

  lemma NextKeepsRow(ceilings: map<Dimension, u64>, l: Ledger, action: Action)
    requires RowIsRecorded(l.counters, l.recorded)
    ensures RowIsRecorded(Next(ceilings, l, action).counters, Next(ceilings, l, action).recorded)
    ensures |Next(ceilings, l, action).runs| == |l.runs|
  {
    if action.Answered? {
      ChargedRecords(l.counters, l.recorded, action.charge);
    }
  }

  lemma {:induction false} AllBetween(k: nat)
    ensures Count(seq(k, _ => Between), Taking) == 0 && Count(seq(k, _ => Between), Over) == 0
  {
    if k > 0 {
      var runs: seq<RunPhase> := seq(k, _ => Between);
      assert runs[..k - 1] == seq(k - 1, _ => Between);
      AllBetween(k - 1);
    }
  }

  lemma {:induction false} HistoryStaysWithin(ceilings: map<Dimension, u64>, k: nat, ledgers: seq<Ledger>,
                                              actions: seq<Action>, i: nat, d: Dimension, most: nat)
    requires IsHistory(ceilings, k, ledgers, actions) && i < |ledgers| && d in ceilings
    requires ChargesWithin(actions, d, most)
    ensures |ledgers[i].runs| == k && RowIsRecorded(ledgers[i].counters, ledgers[i].recorded)
    ensures WithinOvershoot(ledgers[i], d, ceilings[d], most)
  {
    if i == 0 {
      AllBetween(k);
    } else {
      HistoryStaysWithin(ceilings, k, ledgers, actions, i - 1, d, most);
      var l, action := ledgers[i - 1], actions[i - 1];
      NextKeepsRow(ceilings, l, action);
      NextStaysWithin(ceilings, l, action, d, most);
      HistorySteps(ceilings, k, ledgers, actions, i - 1);
    }
  }

  lemma {:induction false} HistoryRecords(ceilings: map<Dimension, u64>, k: nat, ledgers: seq<Ledger>,
                                          actions: seq<Action>, i: nat)
    requires IsHistory(ceilings, k, ledgers, actions) && i < |ledgers|
    ensures |ledgers[i].runs| == k && RowIsRecorded(ledgers[i].counters, ledgers[i].recorded)
  {
    if i > 0 {
      HistoryRecords(ceilings, k, ledgers, actions, i - 1);
      NextKeepsRow(ceilings, ledgers[i - 1], actions[i - 1]);
      HistorySteps(ceilings, k, ledgers, actions, i - 1);
    }
  }

  lemma RefusedExactlyWhen(c: Counters, recorded: seq<Charge>, ceilings: map<Dimension, u64>)
    requires RowIsRecorded(c, recorded)
    ensures Refused(c, ceilings) <==> exists d :: d in ceilings && Capped(Spent(recorded, d)) >= ceilings[d]
  {
    forall d | d in ceilings ensures Exhausted(c, d, ceilings[d]) <==> Capped(Spent(recorded, d)) >= ceilings[d] {
      RowReads(c, recorded, d);
    }
  }

  /** A run that asks is let take a turn exactly when its guard could decide and no ceiling has been reached by
      what is recorded; otherwise it is over. */
  lemma AdmittedExactlyWhen(ceilings: map<Dimension, u64>, k: nat, ledgers: seq<Ledger>, actions: seq<Action>, i: nat,
                            run: nat, broken: bool)
    requires IsHistory(ceilings, k, ledgers, actions) && i < |actions| && actions[i] == Check(run, broken)
    requires run < |ledgers[i].runs| && ledgers[i].runs[run] == Between
    ensures var l, l' := ledgers[i], ledgers[i + 1];
            && l'.recorded == l.recorded && l'.unrecorded == l.unrecorded
            && l'.runs == l.runs[run :=
                 if !broken && forall d | d in ceilings :: Capped(Spent(l.recorded, d)) < ceilings[d] then Taking
                 else Over]
  {
    HistoryRecords(ceilings, k, ledgers, actions, i);
    HistorySteps(ceilings, k, ledgers, actions, i);
    RefusedExactlyWhen(ledgers[i].counters, ledgers[i].recorded, ceilings);
  }

  /** What a turn comes to: recorded, and the run goes on; charged for nowhere, and the run is over; or never
      taken, and the run is over. A run may also end between turns. */
  lemma TurnsComeTo(ceilings: map<Dimension, u64>, l: Ledger, run: nat, charge: Charge)
    requires run < |l.runs| && l.runs[run] == Taking
    ensures var kept := Next(ceilings, l, Answered(run, charge, true));
            kept.runs == l.runs[run := Between] && kept.recorded == l.recorded + [charge]
            && kept.unrecorded == l.unrecorded
    ensures var lost := Next(ceilings, l, Answered(run, charge, false));
            lost.runs == l.runs[run := Over] && lost.recorded == l.recorded && lost.counters == l.counters
            && lost.unrecorded == l.unrecorded + [charge]
    ensures Next(ceilings, l, ModelFails(run)) == l.(runs := l.runs[run := Over])
    ensures var kept := Next(ceilings, l, Answered(run, charge, true));
            Next(ceilings, kept, Finishes(run)) == kept.(runs := l.runs[run := Over])
  {
    assert l.runs[run := Between][run := Over] == l.runs[run := Over];
  }

  /** With `k` runs interleaving however they may, nothing a ceiling counts passes it by as much as `k`
      of the largest charges, counting even the turns whose charge could not be recorded. */
  lemma OvershootIsBounded(ceilings: map<Dimension, u64>, k: nat, ledgers: seq<Ledger>, actions: seq<Action>,
                           d: Dimension, most: nat)
    requires IsHistory(ceilings, k, ledgers, actions) && d in ceilings
    requires ChargesWithin(actions, d, most)
    ensures var l := ledgers[|ledgers| - 1];
            && Get(l.counters, d) == Capped(Spent(l.recorded, d))
            && (Spent(l.recorded, d) + Spent(l.unrecorded, d) == 0
                || Spent(l.recorded, d) + Spent(l.unrecorded, d) < ceilings[d] + most * k)
            && |l.unrecorded| <= k
  {
    HistoryStaysWithin(ceilings, k, ledgers, actions, |actions|, d, most);
    var l := ledgers[|ledgers| - 1];
    RowReads(l.counters, l.recorded, d);
    CountsWithin(l.runs);
    TimesGrows(|l.unrecorded|, Count(l.runs, Taking) + |l.unrecorded|, most);
    TimesIs(k, most);
  }

  /** A ceiling on turns is passed by at most one turn a run, less one. */
  lemma TurnsNeverPassByMoreThanTheRuns(ceilings: map<Dimension, u64>, k: nat, ledgers: seq<Ledger>,
                                        actions: seq<Action>)
    requires IsHistory(ceilings, k, ledgers, actions) && Turns in ceilings && k > 0
    ensures var l := ledgers[|ledgers| - 1];
            |l.recorded| + |l.unrecorded| <= ceilings[Turns] + k - 1
  {
    OvershootIsBounded(ceilings, k, ledgers, actions, Turns, 1);
    var l := ledgers[|ledgers| - 1];
    SpentSplits(l.recorded);
    SpentSplits(l.unrecorded);
  }

  // ---- How far past ----

  const FREE: Charge := Charge(0, 0, 0)

  /** `k` runs, the first `taking` of them with a turn under way. */
  function Runs(k: nat, taking: nat): (runs: seq<RunPhase>)
    ensures |runs| == k && forall i :: 0 <= i < k ==> runs[i] == if i < taking then Taking else Between
  {
    seq(k, i requires 0 <= i < k => if i < taking then Taking else Between)
  }

  lemma HistoryOnward(ceilings: map<Dimension, u64>, k: nat, ledgers: seq<Ledger>, actions: seq<Action>,
                      action: Action)
    returns (ledgers': seq<Ledger>, actions': seq<Action>)
    requires IsHistory(ceilings, k, ledgers, actions)
    ensures IsHistory(ceilings, k, ledgers', actions')
    ensures actions' == actions + [action] && ledgers'[|actions'|] == Next(ceilings, ledgers[|actions|], action)
  {
    ledgers', actions' := ledgers + [Next(ceilings, ledgers[|actions|], action)], actions + [action];
    forall i | 0 <= i < |actions'| ensures ledgers'[i + 1] == Next(ceilings, ledgers'[i], actions'[i]) {
      if i < |actions| { assert actions'[i] == actions[i]; }
    }
  }

  /** The least charge that counts towards a ceiling. */
  function UnitCharge(d: Dimension): (unit: Charge)
    ensures Amount(unit, d) == 1
  {
    match d
    case Turns => FREE
    case InputTokens | TotalTokens => FREE.(inputTokens := 1)
    case OutputTokens => FREE.(outputTokens := 1)
    case CostMicros => FREE.(costMicros := 1)
  }

  /** `j` of the runs have a turn under way, and `spent` is on record. */
  ghost predicate Reached(l: Ledger, k: nat, j: nat, d: Dimension, spent: nat) {
    && l.runs == Runs(k, j)
    && Spent(l.recorded, d) == spent && l.unrecorded == []
    && RowIsRecorded(l.counters, l.recorded)
  }

  /** Some history of `k` runs, with no turn dearer than `most`, ends with this ledger. */
  ghost predicate Attainable(d: Dimension, limit: u64, k: nat, most: nat, l: Ledger) {
    exists ledgers: seq<Ledger>, actions: seq<Action> ::
      IsHistory(map[d := limit], k, ledgers, actions) && ChargesWithin(actions, d, most) && ledgers[|actions|] == l
  }

  lemma AttainableOnward(d: Dimension, limit: u64, k: nat, most: nat, l: Ledger, action: Action)
    requires Attainable(d, limit, k, most, l) && (action.Answered? ==> Amount(action.charge, d) <= most)
    ensures Attainable(d, limit, k, most, Next(map[d := limit], l, action))
  {
    var ledgers: seq<Ledger>, actions: seq<Action> :| IsHistory(map[d := limit], k, ledgers, actions)
      && ChargesWithin(actions, d, most) && ledgers[|actions|] == l;
    ledgers, actions := HistoryOnward(map[d := limit], k, ledgers, actions, action);
  }

  lemma Begun(d: Dimension, limit: u64, k: nat, most: nat) returns (l: Ledger)
    ensures Attainable(d, limit, k, most, l) && Reached(l, k, 0, d, 0)
  {
    l := Ledger(seq(k, _ => Between), NOTHING, [], []);
    assert IsHistory(map[d := limit], k, [l], []) && ChargesWithin([], d, most);
    assert l.runs == Runs(k, 0);
  }

  lemma RunsMove(k: nat, j: nat)
    requires j < k
    ensures Runs(k, j)[j] == Between && Runs(k, j)[j := Taking] == Runs(k, j + 1)
    ensures Runs(k, j + 1)[j] == Taking && Runs(k, j + 1)[j := Between] == Runs(k, j)
  {
  }

  lemma RoomAdmits(c: Counters, recorded: seq<Charge>, d: Dimension, limit: u64)
    requires RowIsRecorded(c, recorded) && Spent(recorded, d) < limit
    ensures !Refused(c, map[d := limit])
  {
    RowReads(c, recorded, d);
  }

  lemma OneAdmitted(d: Dimension, limit: u64, k: nat, most: nat, j: nat, spent: nat, l: Ledger) returns (l': Ledger)
    requires Attainable(d, limit, k, most, l) && Reached(l, k, j, d, spent) && j < k && spent < limit
    ensures Attainable(d, limit, k, most, l') && Reached(l', k, j + 1, d, spent)
  {
    RunsMove(k, j);
    RoomAdmits(l.counters, l.recorded, d, limit);
    AttainableOnward(d, limit, k, most, l, Check(j, false));
    l' := Moved(l, j, Taking);
  }

  lemma RecordedReaches(l: Ledger, k: nat, j: nat, d: Dimension, spent: nat, charge: Charge)
    requires Reached(l, k, j, d, spent)
    ensures Reached(Recorded(l, charge), k, j, d, spent + Amount(charge, d))
  {
    ChargedRecords(l.counters, l.recorded, charge);
    SpentSnoc(l.recorded, charge, d);
  }

  lemma OneAnswered(d: Dimension, limit: u64, k: nat, most: nat, j: nat, spent: nat, l: Ledger, charge: Charge)
    returns (l': Ledger)
    requires Attainable(d, limit, k, most, l) && Reached(l, k, j + 1, d, spent) && j < k && Amount(charge, d) <= most
    ensures Attainable(d, limit, k, most, l') && Reached(l', k, j, d, spent + Amount(charge, d))
  {
    RunsMove(k, j);
    AttainableOnward(d, limit, k, most, l, Answered(j, charge, true));
    RecordedReaches(Moved(l, j, Between), k, j, d, spent, charge);
    l' := Recorded(Moved(l, j, Between), charge);
  }

  /** One run has spent `n`, a unit at a time. */
  lemma {:induction false} SpentByUnits(d: Dimension, limit: u64, k: nat, most: nat, n: nat) returns (l: Ledger)
    requires k > 0 && n < limit && most > 0
    ensures Attainable(d, limit, k, most, l) && Reached(l, k, 0, d, n)
    decreases n
  {
    if n == 0 {
      l := Begun(d, limit, k, most);
    } else {
      l := SpentByUnits(d, limit, k, most, n - 1);
      l := OneAdmitted(d, limit, k, most, 0, n - 1, l);
      l := OneAnswered(d, limit, k, most, 0, n - 1, l, UnitCharge(d));
    }
  }

  /** Then `j` runs have been admitted at once, one unit short of the ceiling. */
  lemma {:induction false} AdmittedAtOnce(d: Dimension, limit: u64, k: nat, most: nat, j: nat) returns (l: Ledger)
    requires k > 0 && limit > 0 && most > 0 && j <= k
    ensures Attainable(d, limit, k, most, l) && Reached(l, k, j, d, limit - 1)
    decreases j
  {
    if j == 0 {
      l := SpentByUnits(d, limit, k, most, limit - 1);
    } else {
      l := AdmittedAtOnce(d, limit, k, most, j - 1);
      l := OneAdmitted(d, limit, k, most, j - 1, limit - 1, l);
    }
  }

  /** And all but `j` of them have been answered, at the largest charge. */
  lemma {:induction false} AnsweredAtLast(d: Dimension, limit: u64, k: nat, largest: Charge, j: nat)
    returns (l: Ledger)
    requires k > 0 && limit > 0 && Amount(largest, d) > 0 && j <= k
    ensures Attainable(d, limit, k, Amount(largest, d), l)
    ensures Reached(l, k, j, d, limit - 1 + Times(k - j, Amount(largest, d)))
    decreases k - j
  {
    var most := Amount(largest, d);
    if j == k {
      l := AdmittedAtOnce(d, limit, k, most, k);
    } else {
      l := AnsweredAtLast(d, limit, k, largest, j + 1);
      l := OneAnswered(d, limit, k, most, j, limit - 1 + Times(k - (j + 1), most), l, largest);
    }
  }

  /** The overshoot of `OvershootIsBounded` is reached: `k` runs, admitted one unit short of a ceiling,
      each spend the largest charge past it. */
  lemma OvershootIsReached(d: Dimension, limit: u64, k: nat, largest: Charge)
    returns (ledgers: seq<Ledger>, actions: seq<Action>)
    requires k > 0 && limit > 0 && Amount(largest, d) > 0
    ensures IsHistory(map[d := limit], k, ledgers, actions) && ChargesWithin(actions, d, Amount(largest, d))
    ensures Spent(ledgers[|actions|].recorded, d) == limit - 1 + Amount(largest, d) * k
    ensures ledgers[|actions|].unrecorded == []
  {
    var l := AnsweredAtLast(d, limit, k, largest, 0);
    TimesIs(k, Amount(largest, d));
    ledgers, actions :| IsHistory(map[d := limit], k, ledgers, actions)
      && ChargesWithin(actions, d, Amount(largest, d)) && ledgers[|actions|] == l;
  }

  /** A ceiling of ten tokens, two runs, and no charge above ten: twenty-nine are spent, nineteen over. */
  lemma TwoRunsPassByMoreThanOneTurn() returns (ledgers: seq<Ledger>, actions: seq<Action>)
    ensures IsHistory(map[InputTokens := 10], 2, ledgers, actions) && ChargesWithin(actions, InputTokens, 10)
    ensures Spent(ledgers[|actions|].recorded, InputTokens) == 29
  {
    ledgers, actions := OvershootIsReached(InputTokens, 10, 2, FREE.(inputTokens := 10));
  }

  /** Everything the dimension counts, whether or not it could be recorded. */
  function Total(l: Ledger, d: Dimension): nat {
    Spent(l.recorded, d) + Spent(l.unrecorded, d)
  }

  /** With `k` runs and no turn dearer than `most`, a ceiling is never passed by more than `most`. */
  ghost predicate NeverOverByMoreThan(d: Dimension, limit: u64, k: nat, most: nat) {
    forall ledgers: seq<Ledger>, actions: seq<Action>
      | IsHistory(map[d := limit], k, ledgers, actions) && ChargesWithin(actions, d, most) ::
      Total(ledgers[|actions|], d) <= limit + most
  }

  /** Under a ceiling of zero no turn is ever taken. */
  lemma {:induction false} ZeroAdmitsNothing(d: Dimension, k: nat, ledgers: seq<Ledger>, actions: seq<Action>, i: nat)
    requires IsHistory(map[d := 0], k, ledgers, actions) && i < |ledgers|
    ensures ledgers[i].recorded == [] && ledgers[i].unrecorded == [] && Taking !in ledgers[i].runs
  {
    if i > 0 {
      ZeroAdmitsNothing(d, k, ledgers, actions, i - 1);
      var l, action := ledgers[i - 1], actions[i - 1];
      assert d in map[d := 0] && Exhausted(l.counters, d, 0);
      assert ledgers[i] == Next(map[d := 0], l, action);
    }
  }

  lemma TotalIsBounded(d: Dimension, limit: u64, k: nat, most: nat, ledgers: seq<Ledger>, actions: seq<Action>)
    requires IsHistory(map[d := limit], k, ledgers, actions) && ChargesWithin(actions, d, most)
    requires limit == 0 || k <= 1 || most == 0 || (most == 1 && k <= 2)
    ensures Total(ledgers[|actions|], d) <= limit + most
  {
    if limit == 0 {
      ZeroAdmitsNothing(d, k, ledgers, actions, |actions|);
    } else {
      OvershootIsBounded(map[d := limit], k, ledgers, actions, d, most);
      assert most == 0 || k <= 1 ==> most * k <= most;
    }
  }

  lemma PastOneTurn(most: nat, k: nat)
    requires k >= 2 && most >= 1 && (most >= 2 || k >= 3)
    ensures most * k >= most + 2
  {
    TimesIs(k, most);
    TimesIs(2, most);
    assert Times(2, most) == most + most;
    if k >= 3 {
      TimesIs(3, most);
      assert Times(3, most) == Times(2, most) + most;
      TimesGrows(3, k, most);
    } else {
      TimesGrows(2, k, most);
    }
  }

  /** The slack that is documented, one turn, whatever is counted: it holds with one run at a time, and
      with two only where no turn counts for more than one, as a ceiling on turns has it. */
  lemma OneTurnOfSlackExactlyWhen(d: Dimension, limit: u64, k: nat, largest: Charge)
    ensures var most := Amount(largest, d);
            NeverOverByMoreThan(d, limit, k, most)
            <==> limit == 0 || k <= 1 || most == 0 || (most == 1 && k <= 2)
  {
    var most := Amount(largest, d);
    if limit == 0 || k <= 1 || most == 0 || (most == 1 && k <= 2) {
      forall ledgers: seq<Ledger>, actions: seq<Action>
        | IsHistory(map[d := limit], k, ledgers, actions) && ChargesWithin(actions, d, most)
        ensures Total(ledgers[|actions|], d) <= limit + most
      {
        TotalIsBounded(d, limit, k, most, ledgers, actions);
      }
    } else {
      var ledgers, actions := OvershootIsReached(d, limit, k, largest);
      PastOneTurn(most, k);
    }
  }

  /** One run at a time: every charge but the last was recorded under the ceiling. */
  ghost predicate OneOver(l: Ledger, d: Dimension, limit: u64) {
    && RowIsRecorded(l.counters, l.recorded) && |l.runs| == 1
    && (l.runs[0] == Taking ==> Spent(l.recorded, d) < limit)
    && (l.recorded != [] ==> Spent(l.recorded[..|l.recorded| - 1], d) < limit)
  }

  lemma RecordedOneOver(l: Ledger, charge: Charge, d: Dimension, limit: u64)
    requires OneOver(l, d, limit) && l.runs[0] == Taking
    ensures OneOver(Recorded(Moved(l, 0, Between), charge), d, limit)
  {
    ChargedRecords(l.counters, l.recorded, charge);
    assert (l.recorded + [charge])[..|l.recorded|] == l.recorded;
  }

  lemma NextOneOver(ceilings: map<Dimension, u64>, l: Ledger, action: Action, d: Dimension)
    requires d in ceilings && OneOver(l, d, ceilings[d])
    ensures OneOver(Next(ceilings, l, action), d, ceilings[d])
  {
    if action.run == 0 && action.Check? && l.runs[0] == Between && !Refused(l.counters, ceilings) {
      AdmittedHasRoom(l.counters, l.recorded, ceilings, d);
    }
    if action.Answered? && l.runs[0] == Taking {
      RecordedOneOver(l, action.charge, d, ceilings[d]);
    }
  }

  lemma {:induction false} HistoryOneOver(ceilings: map<Dimension, u64>, ledgers: seq<Ledger>, actions: seq<Action>,
                                          i: nat, d: Dimension)
    requires IsHistory(ceilings, 1, ledgers, actions) && i < |ledgers| && d in ceilings
    ensures OneOver(ledgers[i], d, ceilings[d])
  {
    if i > 0 {
      HistoryOneOver(ceilings, ledgers, actions, i - 1, d);
      NextOneOver(ceilings, ledgers[i - 1], actions[i - 1], d);
      HistorySteps(ceilings, 1, ledgers, actions, i - 1);
    }
  }

  /** A single run passes a ceiling by less than the turn that crossed it cost. */
  lemma OneRunPassesByOneTurn(ceilings: map<Dimension, u64>, ledgers: seq<Ledger>, actions: seq<Action>, d: Dimension)
    requires IsHistory(ceilings, 1, ledgers, actions) && d in ceilings
    ensures var recorded := ledgers[|ledgers| - 1].recorded;
            recorded == [] || Spent(recorded, d) < ceilings[d] + Amount(recorded[|recorded| - 1], d)
  {
    HistoryOneOver(ceilings, ledgers, actions, |actions|, d);
  }

  // ---- What a refused run costs ----

  /** A refused run calls no model; once prepared, it compacts nothing either. */
  lemma RefusedRunCallsNoModel(settings: AgentRun.Settings, s: AgentRun.State, world: AgentRun.World)
    requires settings.metered && world.budget.Failure?
    ensures AgentRun.Advance(settings, s, world).0.modelCalls == s.modelCalls
    ensures s.prepared ==> AgentRun.Advance(settings, s, world).0.compactions == s.compactions
  {
    PreparingCallsNoModel(settings, s, world);
    var s1 := AgentRun.EnsurePrepared(settings, s, world).0;
    RefusedTurn(settings, s1, world);
    ActsWithoutModel(settings, s1, world);
  }

  lemma PreparingCallsNoModel(settings: AgentRun.Settings, s: AgentRun.State, world: AgentRun.World)
    ensures AgentRun.EnsurePrepared(settings, s, world).0.modelCalls == s.modelCalls
  {
  }

  lemma ActsWithoutModel(settings: AgentRun.Settings, s: AgentRun.State, world: AgentRun.World)
    requires AgentRun.Turn(settings, s, world).0 == s
    ensures var s' := AgentRun.Act(settings, s, world).0;
            s'.modelCalls == s.modelCalls && s'.compactions == s.compactions
  {
    if s.running.Some? {
      AgentDrivers.CallToolSpends(settings, s, world);
    } else if s.pending != [] {
      AgentDrivers.AnnounceSpends(settings, s);
    }
  }

  lemma RefusedTurn(settings: AgentRun.Settings, s: AgentRun.State, world: AgentRun.World)
    requires settings.metered && world.budget.Failure?
    ensures AgentRun.Turn(settings, s, world).0 == s && AgentRun.Turn(settings, s, world).1.Failure?
  {
  }

  /** Whether preparing a fresh run comes as far as asking for room, and finds it wanting. */
  predicate MakesRoomFirst(settings: AgentRun.Settings, world: AgentRun.World) {
    && AgentRun.Guard(settings, world.before).None?
    && world.listed.Success?
    && (settings.systemPrompt.None? || world.unwritten.Success?)
    && settings.compacts
    && world.droppedAtStart.Success? && world.droppedAtStart.value > 0
  }

  lemma RoomStageCompacts(settings: AgentRun.Settings, s: AgentRun.State, world: AgentRun.World)
    requires s.compacting
    ensures var room := settings.compacts && world.droppedAtStart.Success? && world.droppedAtStart.value > 0;
            AgentRun.RoomStage(settings, s, world).0.compactions == s.compactions + if room then 1 else 0
  {
  }

  lemma PreparingCompacts(settings: AgentRun.Settings, s: AgentRun.State, world: AgentRun.World)
    requires !s.prepared && s.compacting && AgentRun.Guard(settings, world.before).None?
    ensures var s' := AgentRun.EnsurePrepared(settings, s, world).0;
            s'.compactions == s.compactions + if MakesRoomFirst(settings, world) then 1 else 0
  {
    if world.listed.Success? {
      var s0 := s.(available := AgentRun.Allowed(settings, world.listed.value));
      RoomStageCompacts(settings, AgentRun.PromptStage(settings, s0, world).0, world);
    }
  }

  lemma ActsOnceBudgetIsRefused(settings: AgentRun.Settings, s: AgentRun.State, world: AgentRun.World)
    ensures var prepared := AgentRun.EnsurePrepared(settings, s, world).0;
            AgentRun.Turn(settings, prepared, world).0 == prepared && AgentRun.Guard(settings, world.before).None? ==>
              AgentRun.Advance(settings, s, world).0.compactions == prepared.compactions
  {
    var prepared := AgentRun.EnsurePrepared(settings, s, world).0;
    if AgentRun.Turn(settings, prepared, world).0 == prepared {
      ActsWithoutModel(settings, prepared, world);
    }
  }

  /** An exhausted budget is meant to cost nothing, not even a compaction. The first action of a run
      makes room before its budget is asked about, so it costs one exactly when there is room to make. */
  lemma RefusedRunCompactsExactlyWhen(settings: AgentRun.Settings, input: seq<ContentPart>, log: seq<Message>,
                                      world: AgentRun.World)
    requires settings.metered && world.budget.Failure?
    ensures var s' := AgentRun.Advance(settings, AgentRun.Fresh(input, log), world).0;
            && s'.modelCalls == 0
            && (s'.compactions == 0 <==> !MakesRoomFirst(settings, world))
  {
    var begun := AgentRun.Fresh(input, log);
    RefusedRunCallsNoModel(settings, begun, world);
    if AgentRun.Guard(settings, world.before).None? {
      PreparingCompacts(settings, begun, world);
      RefusedTurn(settings, AgentRun.EnsurePrepared(settings, begun, world).0, world);
      ActsOnceBudgetIsRefused(settings, begun, world);
    }
  }

  /** A run refused by its budget that has had a compaction made for it all the same. */
  lemma ARefusedRunCompacts(input: seq<ContentPart>, log: seq<Message>, error: AgentRun.Error)
    ensures var world := AgentRounds.Surroundings(1, Failure(error), Success(())).(budget := Failure(error));
            var s' := AgentRun.Advance(AgentRounds.PLAIN, AgentRun.Fresh(input, log), world).0;
            s'.modelCalls == 0 && s'.compactions > 0
  {
    var world := AgentRounds.Surroundings(1, Failure(error), Success(())).(budget := Failure(error));
    RefusedRunCompactsExactlyWhen(AgentRounds.PLAIN, input, log, world);
  }
}
