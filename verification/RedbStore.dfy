/** The durable store itself: transactions committed to its tables, and the batched sweep. */
module RedbStore {
  import opened Wrappers
  import opened Ordering
  import opened AuditEntries
  import AuditReading
  import opened Trails
  import opened DurableStore
  import Arithmetic
  import TrailRuns
  import opened Words

  // ---- One batch ----

  predicate Sweepable(records: map<u64, AuditEntry>, key: TimeKey, cutoff: Timestamp) {
    key.sequence in records && !SurvivesRetention(records[key.sequence], cutoff)
  }

  function SweepTest(records: map<u64, AuditEntry>, cutoff: Timestamp): TimeKey -> bool {
    (k: TimeKey) => Sweepable(records, k, cutoff)
  }

  /** The keys a sweep scans: everything stamped at or before the cutoff, oldest first. */
  function KeysUpTo(t: Tables, cutoff: Timestamp): seq<TimeKey> {
    KeyOrdersAreTotal();
    Enumerate((set k | k in t.byTime && k.at <= cutoff), EarlierKey)
  }

  lemma SweepScanFindsTheDue(t: Tables, cutoff: Timestamp)
    requires Consistent(t)
    ensures forall k | k in KeysUpTo(t, cutoff) :: k in t.byTime && k.sequence in t.records
    ensures StrictTotal(EarlierKey)
    ensures Filter(KeysUpTo(t, cutoff), SweepTest(t.records, cutoff))
         == Enumerate(KeysOf(t.records, Due(t.records, cutoff)), EarlierKey)
  {
    KeyOrdersAreTotal();
    var keys := KeysUpTo(t, cutoff);
    forall k ensures k in KeysOf(t.records, Due(t.records, cutoff)) <==> k in keys && SweepTest(t.records, cutoff)(k) {
      assert k in keys <==> k in Elements(keys);
      if k in t.byTime { assert k == KeyOf(t.records, k.sequence); }
    }
    assert forall k :: k in keys ==> k in Elements(keys);
    FilterEnumerates(keys, SweepTest(t.records, cutoff), EarlierKey, KeysOf(t.records, Due(t.records, cutoff)));
  }

  method ScanSweepable(keys: seq<TimeKey>, records: map<u64, AuditEntry>, cutoff: Timestamp, limit: nat)
    returns (r: Result<seq<TimeKey>, Error>)
    requires limit > 0
    ensures (forall k | k in keys :: k.sequence in records) ==>
              r == Success(Prefix(Filter(keys, SweepTest(records, cutoff)), limit))
  {
    ghost var test := SweepTest(records, cutoff);
    var due: seq<TimeKey> := [];
    for i := 0 to |keys|
      invariant due == Filter(keys[..i], test) && |due| < limit
    {
      if keys[i].sequence !in records {
        return Failure(Corruption("the audit time index", keys[i].sequence));
      }
      FilterStep(keys, i, test);
      if !SurvivesRetention(records[keys[i].sequence], cutoff) {
        due := due + [keys[i]];
        if |due| >= limit {
          assert due == Prefix(Filter(keys, test), |due|);
          return Success(due);
        }
      }
    }
    assert keys[..|keys|] == keys;
    return Success(due);
  }

  /** The scan half of a batch: at most `limit` sweepable keys, oldest first. */
  method CollectDue(t: Tables, cutoff: Timestamp, limit: nat) returns (r: Result<seq<TimeKey>, Error>)
    requires Consistent(t) && limit > 0
    ensures StrictTotal(EarlierKey)
    ensures r == Success(Prefix(Enumerate(KeysOf(t.records, Due(t.records, cutoff)), EarlierKey), limit))
  {
    SweepScanFindsTheDue(t, cutoff);
    r := ScanSweepable(KeysUpTo(t, cutoff), t.records, cutoff, limit);
  }

  /** The removal half: every due record goes, with every index entry naming it. */
  method RemoveDue(tx: Tables, due: seq<TimeKey>) returns (r: Result<Tables, Error>)
    requires Consistent(tx)
    requires forall k | k in due :: k in tx.byTime
    requires forall i, j :: 0 <= i < j < |due| ==> due[i] != due[j]
    ensures r.Success? && Consistent(r.value)
    ensures TrailOf(r.value) == Without(TrailOf(tx), Elements(Sequences(due)))
  {
    var tx' := tx;
    for i := 0 to |due|
      invariant Consistent(tx')
      invariant TrailOf(tx') == Without(TrailOf(tx), Elements(Sequences(due[..i])))
    {
      StillIndexed(tx, tx', due, i);
      var removed := RemoveRecord(tx', due[i]);
      if removed.Failure? {
        return removed;
      }
      SequencesStep(due, i);
      tx' := removed.value;
    }
    assert due[..|due|] == due;
    return Success(tx');
  }

  lemma SequencesStep(due: seq<TimeKey>, i: nat)
    requires i < |due|
    ensures Elements(Sequences(due[..i + 1])) == Elements(Sequences(due[..i])) + {due[i].sequence}
  {
    assert Sequences(due[..i + 1]) == Sequences(due[..i]) + [due[i].sequence];
  }

  lemma StillIndexed(tx: Tables, tx': Tables, due: seq<TimeKey>, i: nat)
    requires Consistent(tx) && Consistent(tx') && i < |due|
    requires forall k | k in due :: k in tx.byTime
    requires forall i, j :: 0 <= i < j < |due| ==> due[i] != due[j]
    requires TrailOf(tx') == Without(TrailOf(tx), Elements(Sequences(due[..i])))
    ensures due[i] in tx'.byTime
  {
    forall s | s in Sequences(due[..i]) ensures s != due[i].sequence {
      var j :| 0 <= j < i && due[j].sequence == s;
      assert due[j] in due && due[i] in due;
    }
    assert due[i] in due;
  }

  /** One batch as a transaction: all of it commits or none of it does. */
  method SweepBatchBlocking(t: Tables, cutoff: Timestamp, limit: nat, now: Timestamp)
    returns (r: Result<nat, Error>, t': Tables)
    requires Consistent(t) && 0 < limit <= USIZE_MAX
    ensures Consistent(t')
    ensures var gone := OldestDue(t.records, cutoff, limit);
            if gone == {} then r == Success(0) && t' == t
            else if IssuedSequence(t) < U64_MAX then
              && r == Success(|gone|) && |gone| <= U64_MAX
              && TrailOf(t') == Appended(Without(TrailOf(t), gone), Retention(now, cutoff, |gone|))
            else r == Failure(OutOfSequenceNumbers) && t' == t
  {
    t' := t;
    OldestDueSplits(t.records, cutoff, limit);
    var collected := CollectDue(t, cutoff, limit);
    match collected {
      case Failure(error) =>
        r := Failure(error);
      case Success(due) =>
        DueIsDistinct(t, cutoff, limit, due);
        if due == [] {
          return Success(0), t;
        }
        var removed: u64 := |due|;
        var emptied := RemoveDue(t, due);
        match emptied {
          case Failure(error) =>
            r := Failure(error);
          case Success(tx) =>
            var appended, tx' := AppendBlocking(tx, Retention(now, cutoff, removed));
            match appended {
              case Failure(error) =>
                r := Failure(error);
              case Success(_) =>
                r, t' := Success(removed), tx';
            }
        }
    }
  }

  lemma DueIsDistinct(t: Tables, cutoff: Timestamp, limit: nat, due: seq<TimeKey>)
    requires Consistent(t) && StrictTotal(EarlierKey)
    requires due == Prefix(Enumerate(KeysOf(t.records, Due(t.records, cutoff)), EarlierKey), limit)
    ensures forall k | k in due :: k in t.byTime
    ensures forall i, j :: 0 <= i < j < |due| ==> due[i] != due[j]
    ensures Elements(Sequences(due)) == OldestDue(t.records, cutoff, limit)
    ensures |due| == |OldestDue(t.records, cutoff, limit)| <= limit
    ensures due == [] <==> OldestDue(t.records, cutoff, limit) == {}
  {
    var keys := Enumerate(KeysOf(t.records, Due(t.records, cutoff)), EarlierKey);
    forall k | k in due ensures k in t.byTime {
      assert k in Elements(keys);
    }
    forall i, j | 0 <= i < j < |due| ensures due[i] != due[j] {
      assert EarlierKey(keys[i], keys[j]);
    }
    OldestDueSplits(t.records, cutoff, limit);
    SameSize(t.records, Due(t.records, cutoff), KeysOf(t.records, Due(t.records, cutoff)));
  }

  method CountSweepable(keys: seq<TimeKey>, records: map<u64, AuditEntry>, cutoff: Timestamp)
    returns (r: Result<nat, Error>)
    ensures (forall k | k in keys :: k.sequence in records) ==>
              r == Success(|Filter(keys, SweepTest(records, cutoff))|)
  {
    ghost var test := SweepTest(records, cutoff);
    var due := 0;
    for i := 0 to |keys|
      invariant due == |Filter(keys[..i], test)|
    {
      if keys[i].sequence !in records {
        return Failure(Corruption("the audit time index", keys[i].sequence));
      }
      FilterStep(keys, i, test);
      if !SurvivesRetention(records[keys[i].sequence], cutoff) {
        due := due + 1;
      }
    }
    assert keys[..|keys|] == keys;
    return Success(due);
  }

  /** The preview reads the whole due range, however many batches it would take. */
  method CountDueBlocking(t: Tables, cutoff: Timestamp) returns (r: Result<nat, Error>)
    requires Consistent(t)
    ensures r == Success(|Due(t.records, cutoff)|)
  {
    SweepScanFindsTheDue(t, cutoff);
    SameSize(t.records, Due(t.records, cutoff), KeysOf(t.records, Due(t.records, cutoff)));
    r := CountSweepable(KeysUpTo(t, cutoff), t.records, cutoff);
  }

  // ---- A whole sweep ----

  /** What the markers of a sweep of `n` records in batches say they removed, in order. */
  function MarkerSizes(n: nat, batch: nat): seq<nat>
    requires batch > 0
  {
    if n == 0 then [] else if n <= batch then [n] else [batch] + MarkerSizes(n - batch, batch)
  }

  function Sum(xs: seq<nat>): nat {
    if xs == [] then 0 else xs[0] + Sum(xs[1..])
  }

  /** There are ceil(n / batch) markers, none empty, none over a batch, and they add up to n. */
  lemma {:induction false} MarkerSizesAddUp(n: nat, batch: nat)
    requires batch > 0
    ensures Sum(MarkerSizes(n, batch)) == n
    ensures |MarkerSizes(n, batch)| == (n + batch - 1) / batch
    ensures forall k | 0 <= k < |MarkerSizes(n, batch)| :: 0 < MarkerSizes(n, batch)[k] <= batch
  {
    if n == 0 {
      Arithmetic.DivUnique(batch - 1, batch, 0, batch - 1);
    } else if n <= batch {
      assert Sum([n]) == n;
      Arithmetic.DivUnique(n + batch - 1, batch, 1, n - 1);
    } else {
      MarkerSizesAddUp(n - batch, batch);
      assert MarkerSizes(n, batch)[1..] == MarkerSizes(n - batch, batch);
      Arithmetic.DivStep(n - 1, batch);
    }
  }

  /** `t'` is `t` with everything due gone, followed by these markers and nothing else. */
  ghost predicate Swept(t: Trail, t': Trail, cutoff: Timestamp, gone: set<u64>, markers: seq<nat>) {
    && t'.issued == t.issued + |markers|
    && (forall s :: s in t'.held <==> (s in t.held && s !in gone) || t.issued < s <= t'.issued)
    && (forall s | s in t.held && s !in gone :: s in t'.held && t'.held[s] == t.held[s])
    && (forall k | t.issued < k <= t'.issued ::
          k in t'.held && t'.held[k].Retention?
          && t'.held[k].cutoff == cutoff && t'.held[k].removed == markers[k - t.issued - 1])
  }

  /** How far a sweep of `start` in batches has got when the trail is `t`. */
  ghost predicate SweepProgress(start: Trail, t: Trail, cutoff: Timestamp, batch: nat, gone: set<u64>,
                                markers: seq<nat>)
    requires batch > 0
  {
    var due := Due(start.held, cutoff);
    && WellNumbered(t)
    && Swept(start, t, cutoff, gone, markers)
    && gone <= due && Due(t.held, cutoff) == due - gone
    && Sum(markers) == |gone|
    && markers + MarkerSizes(|due - gone|, batch) == MarkerSizes(|due|, batch)
  }

  lemma SweepStarts(start: Trail, cutoff: Timestamp, batch: nat)
    requires batch > 0 && WellNumbered(start)
    ensures SweepProgress(start, start, cutoff, batch, {}, [])
  {
    assert Due(start.held, cutoff) - {} == Due(start.held, cutoff);
  }

  /** A batch of `taken` with its marker takes the sweep on. */
  lemma SweepAdvances(start: Trail, t: Trail, t': Trail, cutoff: Timestamp, batch: nat, gone: set<u64>,
                      markers: seq<nat>, taken: set<u64>, now: Timestamp)
    requires 0 < batch && SweepProgress(start, t, cutoff, batch, gone, markers)
    requires t.issued < U64_MAX && taken != {} && taken <= Due(t.held, cutoff) && |taken| <= U64_MAX
    requires |taken| == if batch < |Due(t.held, cutoff)| then batch else |Due(t.held, cutoff)|
    requires t' == Appended(Without(t, taken), Retention(now, cutoff, |taken|))
    ensures SweepProgress(start, t', cutoff, batch, gone + taken, markers + [|taken|])
    ensures |Due(t'.held, cutoff)| == |Due(t.held, cutoff)| - |taken|
    ensures |gone + taken| == |gone| + |taken|
  {
    SweptAgain(start, t, t', cutoff, gone, taken, markers, now);
    DueAfterBatch(t, t', cutoff, taken, now);
    MarkersAfterBatch(Due(start.held, cutoff), gone, taken, markers, batch);
  }

  /** What a batch that does not fail leaves. */
  lemma BatchLeaves(t: Trail, cutoff: Timestamp, batch: nat, now: Timestamp) returns (taken: set<u64>)
    requires batch <= USIZE_MAX && (OldestDue(t.held, cutoff, batch) == {} || t.issued < U64_MAX)
    ensures taken == OldestDue(t.held, cutoff, batch) && taken <= Due(t.held, cutoff) && |taken| <= U64_MAX
    ensures |taken| == if batch < |Due(t.held, cutoff)| then batch else |Due(t.held, cutoff)|
    ensures TrailRuns.SweptBatch(t, cutoff, batch, now)
         == if taken == {} then t else Appended(Without(t, taken), Retention(now, cutoff, |taken|))
  {
    taken := OldestDue(t.held, cutoff, batch);
    OldestDueSplits(t.held, cutoff, batch);
  }

  /** One committed batch of a sweep, marked or empty. */
  lemma BatchOfSweep(start: Trail, t: Trail, t': Trail, cutoff: Timestamp, batch: nat, gone: set<u64>,
                     markers: seq<nat>, now: Timestamp)
    returns (gone': set<u64>, markers': seq<nat>)
    requires 0 < batch <= USIZE_MAX && SweepProgress(start, t, cutoff, batch, gone, markers)
    requires OldestDue(t.held, cutoff, batch) == {} || t.issued < U64_MAX
    requires t' == TrailRuns.SweptBatch(t, cutoff, batch, now)
    ensures var removed := |OldestDue(t.held, cutoff, batch)|;
            && SweepProgress(start, t', cutoff, batch, gone', markers')
            && removed == (if batch < |Due(t.held, cutoff)| then batch else |Due(t.held, cutoff)|)
            && |gone'| == |gone| + removed
            && |Due(t'.held, cutoff)| == |Due(t.held, cutoff)| - removed
  {
    var taken := BatchLeaves(t, cutoff, batch, now);
    gone', markers' := gone, markers;
    if taken != {} {
      SweepAdvances(start, t, t', cutoff, batch, gone, markers, taken, now);
      gone', markers' := gone + taken, markers + [|taken|];
    }
  }

  lemma NextMarker(n: nat, batch: nat)
    requires 0 < n && 0 < batch
    ensures var taken := if batch < n then batch else n;
            MarkerSizes(n, batch) == [taken] + MarkerSizes(n - taken, batch)
  {
  }

  lemma MarkersAfterBatch(due: set<u64>, gone: set<u64>, taken: set<u64>, markers: seq<nat>, batch: nat)
    requires gone <= due && taken <= due - gone && 0 < batch && taken != {}
    requires |taken| == if batch < |due - gone| then batch else |due - gone|
    requires Sum(markers) == |gone|
    requires markers + MarkerSizes(|due - gone|, batch) == MarkerSizes(|due|, batch)
    ensures due - (gone + taken) == (due - gone) - taken
    ensures |due - (gone + taken)| == |due - gone| - |taken|
    ensures Sum(markers + [|taken|]) == |gone + taken| == |gone| + |taken|
    ensures markers + [|taken|] + MarkerSizes(|due - (gone + taken)|, batch) == MarkerSizes(|due|, batch)
  {
    var left := due - (gone + taken);
    assert left == (due - gone) - taken;
    assert due - gone == left + taken;
    assert |gone + taken| == |gone| + |taken|;
    SumAppend(markers, |taken|);
    NextMarker(|due - gone|, batch);
    assert markers + [|taken|] + MarkerSizes(|left|, batch) == markers + ([|taken|] + MarkerSizes(|left|, batch));
  }

  lemma DueAfterBatch(t: Trail, t': Trail, cutoff: Timestamp, taken: set<u64>, now: Timestamp)
    requires WellNumbered(t) && t.issued < U64_MAX && |taken| <= U64_MAX && taken <= Due(t.held, cutoff)
    requires t' == Appended(Without(t, taken), Retention(now, cutoff, |taken|))
    ensures WellNumbered(t') && Due(t'.held, cutoff) == Due(t.held, cutoff) - taken
  {
  }

  lemma SweptAgain(start: Trail, t: Trail, t': Trail, cutoff: Timestamp, gone: set<u64>, taken: set<u64>,
                   markers: seq<nat>, now: Timestamp)
    requires WellNumbered(t) && Swept(start, t, cutoff, gone, markers)
    requires t.issued < U64_MAX && |taken| <= U64_MAX && taken <= Due(t.held, cutoff)
    requires t' == Appended(Without(t, taken), Retention(now, cutoff, |taken|))
    requires taken <= Due(start.held, cutoff)
    ensures Swept(start, t', cutoff, gone + taken, markers + [|taken|])
  {
    assert t'.issued !in t.held;
    var markers' := markers + [|taken|];
    forall s ensures s in t'.held <==> (s in start.held && s !in gone + taken) || start.issued < s <= t'.issued {
      assert s in taken ==> s in t.held && !t.held[s].Retention?;
    }
    forall k | start.issued < k <= t'.issued
      ensures k in t'.held && t'.held[k].Retention?
      ensures t'.held[k].cutoff == cutoff && t'.held[k].removed == markers'[k - start.issued - 1]
    {
      if k <= t.issued { assert k !in taken; }
    }
  }

  /** How far a sweep has got when other writers append between its batches. */
  ghost predicate AmidAppends(start: Trail, t: Trail, cutoff: Timestamp, total: nat) {
    && WellNumbered(start) && TrailRuns.Extends(start, t)
    && (forall s | s in start.held && s !in Due(start.held, cutoff) :: s in t.held)
    && Accounted(t.held, t.issued) == Accounted(start.held, start.issued) + total
  }

  lemma BatchAmidAppends(start: Trail, t: Trail, t': Trail, cutoff: Timestamp, total: nat, batch: nat, now: Timestamp)
    requires WellNumbered(t) && AmidAppends(start, t, cutoff, total) && 0 < batch <= USIZE_MAX
    requires OldestDue(t.held, cutoff, batch) == {} || t.issued < U64_MAX
    requires t' == TrailRuns.SweptBatch(t, cutoff, batch, now)
    ensures AmidAppends(start, t', cutoff, total + |OldestDue(t.held, cutoff, batch)|)
    ensures |Due(t'.held, cutoff)| == |Due(t.held, cutoff)| - |OldestDue(t.held, cutoff, batch)|
  {
    var taken := OldestDue(t.held, cutoff, batch);
    OldestDueSplits(t.held, cutoff, batch);
    if taken != {} {
      TrailRuns.BatchExtends(t, cutoff, batch, now);
      TrailRuns.ExtendsTransitive(start, t, t');
      DueAfterBatch(t, t', cutoff, taken, now);
      forall s | s in start.held && s !in Due(start.held, cutoff) ensures s in t'.held {
        assert s in t.held && s !in Due(t.held, cutoff);
      }
    }
  }

  class RedbAuditStore {
    var tables: Tables
    const sweepBatch: nat

    ghost predicate Valid()
      reads this
    {
      Consistent(tables) && 0 < sweepBatch <= USIZE_MAX
    }

    ghost function Trail(): Trail
      reads this
    {
      TrailOf(tables)
    }

    constructor (sweepBatch: nat)
      requires 0 < sweepBatch <= USIZE_MAX
      ensures Valid() && Trail() == Trails.Trail.Trail(map[], 0) && this.sweepBatch == sweepBatch
    {
      tables := Tables(map[], {}, {}, {}, map[]);
      this.sweepBatch := sweepBatch;
    }

    method Append(entry: AuditEntry) returns (r: Result<u64, Error>)
      requires Valid()
      modifies this
      ensures Valid()
      ensures old(Trail()).issued < U64_MAX ==>
                r == Success(old(Trail()).issued + 1) && Trail() == Appended(old(Trail()), entry)
      ensures old(Trail()).issued == U64_MAX ==> r == Failure(OutOfSequenceNumbers) && tables == old(tables)
    {
      r, tables := AppendBlocking(tables, entry);
    }

    method Query(q: AuditQuery, reader: Principal) returns (r: Result<seq<AuditRecord>, Error>)
      requires Valid()
      ensures q.correlation.Some? || q.principal.Some? ==> r == Success(Answer(Trail().held, q, reader))
      ensures q.correlation.None? && q.principal.None? ==> r == Success(TimeAnswer(Trail().held, q, reader))
      ensures r.Success? && AuditReading.ReadsAsOwed(Trail().held, q, reader, r.value)
    {
      r := QueryBlocking(tables, q, reader);
    }

    method LastSequence() returns (r: u64)
      requires Valid()
      ensures r == Trail().issued
    {
      r := IssuedSequence(tables);
    }

    method CountOlderThan(cutoff: Timestamp) returns (r: Result<nat, Error>)
      requires Valid()
      ensures r == Success(|Due(Trail().held, cutoff)|)
    {
      r := CountDueBlocking(tables, cutoff);
    }

    /** One turn of the sweep loop: read the clock, take the write lock, commit one batch. */
    method SweepBatch(cutoff: Timestamp, ghost start: Trail, ghost gone: set<u64>, ghost markers: seq<nat>)
      returns (r: Result<nat, Error>, ghost gone': set<u64>, ghost markers': seq<nat>)
      requires Valid() && SweepProgress(start, Trail(), cutoff, sweepBatch, gone, markers)
      modifies this
      ensures Valid() && SweepProgress(start, Trail(), cutoff, sweepBatch, gone', markers')
      ensures r.Success? ==>
                && r.value == (if sweepBatch < |Due(old(Trail()).held, cutoff)| then sweepBatch
                               else |Due(old(Trail()).held, cutoff)|)
                && |gone'| == |gone| + r.value
                && |Due(Trail().held, cutoff)| == |Due(old(Trail()).held, cutoff)| - r.value
      ensures r.Failure? ==>
                && r.error == OutOfSequenceNumbers && Trail().issued == U64_MAX
                && Due(Trail().held, cutoff) != {}
    {
      gone', markers' := gone, markers;
      var now: Timestamp := *;
      ghost var before := Trail();
      OldestDueSplits(before.held, cutoff, sweepBatch);
      r, tables := SweepBatchBlocking(tables, cutoff, sweepBatch, now);
      if r.Success? {
        gone', markers' := BatchOfSweep(start, before, Trail(), cutoff, sweepBatch, gone, markers, now);
      }
    }

    /** A sweep nothing interrupts: it ends, takes exactly what is due, and leaves ceil(n / batch)
        markers that add up to it. It fails only for want of a sequence number, between batches. */
    method SweepOlderThan(cutoff: Timestamp) returns (r: Result<nat, Error>)
      requires Valid()
      modifies this
      ensures Valid()
      ensures r.Success? ==>
                var due := Due(old(Trail()).held, cutoff);
                && r.value == |due|
                && Swept(old(Trail()), Trail(), cutoff, due, MarkerSizes(|due|, sweepBatch))
                && Due(Trail().held, cutoff) == {}
      ensures r.Failure? ==>
                && r.error == OutOfSequenceNumbers && Trail().issued == U64_MAX
                && Due(Trail().held, cutoff) != {}
                && exists gone, markers :: SweepProgress(old(Trail()), Trail(), cutoff, sweepBatch, gone, markers)
    {
      var total := 0;
      ghost var start := Trail();
      ghost var gone: set<u64>, markers: seq<nat> := {}, [];
      SweepStarts(start, cutoff, sweepBatch);
      while true
        invariant Valid()
        invariant SweepProgress(start, Trail(), cutoff, sweepBatch, gone, markers)
        invariant total == |gone|
        decreases |Due(Trail().held, cutoff)|
      {
        var removed;
        removed, gone, markers := SweepBatch(cutoff, start, gone, markers);
        if removed.Failure? {
          return removed;
        }
        total := total + removed.value;
        if removed.value < sweepBatch {
          SweepIsDone(start, Trail(), cutoff, sweepBatch, gone, markers);
          return Success(total);
        }
      }
    }

    /** A sweep with other writers taking their turn between its batches; `arrivals[i]` is what is
        appended after batch `i`. When it succeeds nothing sweepable is left at that instant, whatever
        arrived, and the markers say exactly what it took. */
    method SweepAmidAppends(cutoff: Timestamp, arrivals: seq<seq<AuditEntry>>) returns (r: Result<nat, Error>)
      requires Valid()
      requires forall batch, entry | batch in arrivals && entry in batch :: !entry.Retention?
      modifies this
      ensures Valid() && TrailRuns.Extends(old(Trail()), Trail())
      ensures forall s | s in old(Trail()).held && s !in Due(old(Trail()).held, cutoff) :: s in Trail().held
      ensures r.Success? ==>
                && Due(Trail().held, cutoff) == {}
                && Accounted(Trail().held, Trail().issued)
                   == Accounted(old(Trail()).held, old(Trail()).issued) + r.value
    {
      var total: nat, round: nat := 0, 0;
      ghost var start := Trail();
      while true
        invariant Valid() && AmidAppends(start, Trail(), cutoff, total)
        decreases if round < |arrivals| then |arrivals| - round else 0, |Due(Trail().held, cutoff)|
      {
        var now: Timestamp := *;
        ghost var before := Trail();
        OldestDueSplits(before.held, cutoff, sweepBatch);
        var removed;
        removed, tables := SweepBatchBlocking(tables, cutoff, sweepBatch, now);
        if removed.Failure? {
          return removed;
        }
        BatchAmidAppends(start, before, Trail(), cutoff, total, sweepBatch, now);
        total := total + removed.value;
        if removed.value < sweepBatch {
          return Success(total);
        }
        if round < |arrivals| {
          ghost var swept := Trail();
          Arrive(arrivals[round]);
          TrailRuns.ExtendsTransitive(start, swept, Trail());
        }
        round := round + 1;
      }
    }

    /** Another writer's appends; a refused one is that writer's to report. */
    method Arrive(entries: seq<AuditEntry>)
      requires Valid() && forall entry | entry in entries :: !entry.Retention?
      modifies this
      ensures Valid() && TrailRuns.Extends(old(Trail()), Trail())
      ensures forall s | s in old(Trail()).held :: s in Trail().held
      ensures Accounted(Trail().held, Trail().issued) == Accounted(old(Trail()).held, old(Trail()).issued)
    {
      for i := 0 to |entries|
        invariant Valid() && TrailRuns.Extends(old(Trail()), Trail())
        invariant forall s | s in old(Trail()).held :: s in Trail().held
        invariant Accounted(Trail().held, Trail().issued) == Accounted(old(Trail()).held, old(Trail()).issued)
      {
        ghost var before := Trail();
        var appended := Append(entries[i]);
        if before.issued < U64_MAX {
          AppendedAccounts(before, entries[i]);
        }
      }
    }
  }

  lemma SweepIsDone(start: Trail, t: Trail, cutoff: Timestamp, batch: nat, gone: set<u64>, markers: seq<nat>)
    requires 0 < batch && SweepProgress(start, t, cutoff, batch, gone, markers)
    requires |Due(t.held, cutoff)| == 0
    ensures gone == Due(start.held, cutoff) && markers == MarkerSizes(|gone|, batch)
  {
    var due := Due(start.held, cutoff);
    assert due - gone == {};
    assert gone == due;
  }

  lemma {:induction false} SumAppend(xs: seq<nat>, x: nat)
    ensures Sum(xs + [x]) == Sum(xs) + x
  {
    if xs == [] {
      assert [] + [x] == [x];
      assert Sum([x]) == x + Sum([x][1..]);
    } else {
      SumAppend(xs[1..], x);
      assert (xs + [x])[1..] == xs[1..] + [x];
    }
  }
}
