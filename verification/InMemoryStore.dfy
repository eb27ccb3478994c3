/** The reference store: a vector in sequence order. */
module InMemoryStore {
  import opened Wrappers
  import opened Ordering
  import opened AuditEntries
  import opened AuditReading
  import opened Trails
  import opened Words

  datatype Error = OutOfSequenceNumbers

  /** Ascending in sequence, every number issued. */
  ghost predicate InSequence(records: seq<AuditRecord>, issued: u64) {
    && (forall i, j :: 0 <= i < j < |records| ==> records[i].sequence < records[j].sequence)
    && (forall i :: 0 <= i < |records| ==> 1 <= records[i].sequence <= issued)
  }

  ghost function HeldOf(records: seq<AuditRecord>): map<u64, AuditEntry> {
    if records == [] then map[]
    else
      var last := |records| - 1;
      HeldOf(records[..last])[records[last].sequence := records[last].entry]
  }

  /** The map and the vector hold the same records. */
  ghost predicate Mirrors(held: map<u64, AuditEntry>, records: seq<AuditRecord>) {
    && (forall r | r in records :: r.sequence in held && held[r.sequence] == r.entry)
    && (forall s | s in held :: AuditRecord(s, held[s]) in records)
  }

  lemma {:induction false} HeldOfRecords(records: seq<AuditRecord>, issued: u64)
    requires InSequence(records, issued)
    ensures Mirrors(HeldOf(records), records)
    ensures |HeldOf(records)| == |records|
  {
    if records != [] {
      var front, last := records[..|records| - 1], records[|records| - 1];
      assert records == front + [last];
      LastIsNewest(front, last, issued);
      HeldOfRecords(front, issued);
      MirrorsExtended(HeldOf(front), front, last);
    }
  }

  lemma LastIsNewest(front: seq<AuditRecord>, last: AuditRecord, issued: u64)
    requires InSequence(front + [last], issued)
    ensures InSequence(front, issued)
    ensures forall r | r in front :: r.sequence < last.sequence
  {
    var records := front + [last];
    assert forall i :: 0 <= i < |front| ==> records[i] == front[i];
    assert records[|front|] == last;
  }

  lemma MirrorsExtended(held: map<u64, AuditEntry>, front: seq<AuditRecord>, last: AuditRecord)
    requires Mirrors(held, front)
    requires forall r | r in front :: r.sequence < last.sequence
    ensures last.sequence !in held
    ensures Mirrors(held[last.sequence := last.entry], front + [last])
  {
    var extended, records := held[last.sequence := last.entry], front + [last];
    forall s | s in held ensures s < last.sequence {
      assert AuditRecord(s, held[s]) in front;
    }
    forall r | r in records ensures r.sequence in extended && extended[r.sequence] == r.entry {
      assert r in front || r == last;
    }
    forall s | s in extended ensures AuditRecord(s, extended[s]) in records {
      if s == last.sequence {
        assert records[|front|] == last;
      } else {
        var i :| 0 <= i < |front| && front[i] == AuditRecord(s, held[s]);
        assert records[i] == front[i];
      }
    }
  }

  /** `HeldOf` is the one map that holds exactly these records. */
  lemma HeldOfUnique(records: seq<AuditRecord>, issued: u64, held: map<u64, AuditEntry>)
    requires InSequence(records, issued)
    requires Mirrors(held, records)
    ensures held == HeldOf(records)
  {
    HeldOfRecords(records, issued);
    forall s | s in held ensures s in HeldOf(records) && HeldOf(records)[s] == held[s] {
      assert AuditRecord(s, held[s]) in records;
    }
    forall s | s in HeldOf(records) ensures s in held {
      assert AuditRecord(s, HeldOf(records)[s]) in records;
    }
  }

  // ---- Reading ----

  predicate RecordNewer(a: AuditRecord, b: AuditRecord) {
    a.sequence > b.sequence
  }

  predicate RecordOlder(a: AuditRecord, b: AuditRecord) {
    a.sequence < b.sequence
  }

  function Reversed<T>(xs: seq<T>): (r: seq<T>)
    ensures |r| == |xs| && forall i :: 0 <= i < |xs| ==> r[i] == xs[|xs| - 1 - i]
  {
    seq(|xs|, i requires 0 <= i < |xs| => xs[|xs| - 1 - i])
  }

  function Visible(records: seq<AuditRecord>, reader: Principal): seq<AuditRecord> {
    Filter(Reversed(records), (r: AuditRecord) => r.VisibleTo(reader))
  }

  /** Newest first, visibility before the query's own filters, cut at the limit last. */
  function Query(records: seq<AuditRecord>, q: AuditQuery, reader: Principal): seq<AuditRecord> {
    Prefix(Filter(Visible(records, reader), (r: AuditRecord) => q.Matches(r)), q.Limit())
  }

  function Stale(records: seq<AuditRecord>, cutoff: Timestamp): seq<AuditRecord> {
    Filter(records, (r: AuditRecord) => !SurvivesRetention(r.entry, cutoff))
  }

  function CountOlderThan(records: seq<AuditRecord>, cutoff: Timestamp): nat {
    |Stale(records, cutoff)|
  }

  function Retain(records: seq<AuditRecord>, cutoff: Timestamp): seq<AuditRecord> {
    Filter(records, (r: AuditRecord) => SurvivesRetention(r.entry, cutoff))
  }

  /** The filter chain gives the answer the trail owes. */
  lemma QueryIsTheAnswer(records: seq<AuditRecord>, issued: u64, q: AuditQuery, reader: Principal)
    requires InSequence(records, issued)
    ensures Query(records, q, reader) == Answer(HeldOf(records), q, reader)
    ensures ReadsAsOwed(HeldOf(records), q, reader, Query(records, q, reader))
  {
    AnswerReadsAsOwed(HeldOf(records), q, reader);
    var held := HeldOf(records);
    var matching := Filter(Visible(records, reader), (r: AuditRecord) => q.Matches(r));
    VisibleNewestFirst(records, issued, reader);
    FilterSorted(Visible(records, reader), (r: AuditRecord) => q.Matches(r), RecordNewer);
    assert forall r :: r in matching <==> r in Elements(matching);
    HeldOfRecords(records, issued);
    MatchesAreMatching(records, matching, held, q, reader);
    ListedAnswer(matching, held, Matching(held, q, reader), q.Limit());
  }

  lemma VisibleNewestFirst(records: seq<AuditRecord>, issued: u64, reader: Principal)
    requires InSequence(records, issued)
    ensures Sorted(Visible(records, reader), RecordNewer)
    ensures forall r :: r in Visible(records, reader) <==> r in records && r.VisibleTo(reader)
  {
    ReversedSame(records);
    assert Sorted(Reversed(records), RecordNewer);
    FilterSorted(Reversed(records), (r: AuditRecord) => r.VisibleTo(reader), RecordNewer);
    assert forall r :: r in Visible(records, reader) <==> r in Elements(Visible(records, reader));
  }

  lemma MatchesAreMatching(records: seq<AuditRecord>, matching: seq<AuditRecord>, held: map<u64, AuditEntry>,
                           q: AuditQuery, reader: Principal)
    requires forall r :: r in matching <==> r in records && r.VisibleTo(reader) && q.Matches(r)
    requires Mirrors(held, records)
    ensures forall r | r in matching :: r.sequence in Matching(held, q, reader) && r.entry == held[r.sequence]
    ensures forall s | s in Matching(held, q, reader) :: AuditRecord(s, held[s]) in matching
  {
    forall r | r in matching ensures r.sequence in Matching(held, q, reader) {
      assert r == AuditRecord(r.sequence, held[r.sequence]);
    }
  }

  lemma ReversedSame(records: seq<AuditRecord>)
    ensures forall r :: r in Reversed(records) <==> r in records
  {
    forall r | r in records ensures r in Reversed(records) {
      var i :| 0 <= i < |records| && records[i] == r;
      assert Reversed(records)[|records| - 1 - i] == r;
    }
  }

  lemma ListedAnswer(listed: seq<AuditRecord>, held: map<u64, AuditEntry>, m: set<u64>, n: nat)
    requires Sorted(listed, RecordNewer) && m <= held.Keys
    requires forall r | r in listed :: r.sequence in m && r.entry == held[r.sequence]
    requires forall s | s in m :: AuditRecord(s, held[s]) in listed
    ensures forall s | s in Prefix(NewestFirst(m), n) :: s in held
    ensures Prefix(listed, n) == RecordsOf(held, Prefix(NewestFirst(m), n))
  {
    PrefixOfMatching(held, m, n);
    var xs := SequencesOf(listed);
    assert Sorted(xs, Newer) by {
      forall i, j | 0 <= i < j < |xs| ensures Newer(xs[i], xs[j]) {
        assert RecordNewer(listed[i], listed[j]);
      }
    }
    assert Elements(xs) == m by {
      forall s | s in m ensures s in xs {
        var i :| 0 <= i < |listed| && listed[i] == AuditRecord(s, held[s]);
        assert xs[i] == s;
      }
    }
    SortedCompareAsSets(xs, NewestFirst(m));
    RecordsOfPrefix(listed, held, n);
  }

  function SequencesOf(records: seq<AuditRecord>): (xs: seq<u64>)
    ensures |xs| == |records| && forall i :: 0 <= i < |xs| ==> xs[i] == records[i].sequence
  {
    seq(|records|, i requires 0 <= i < |records| => records[i].sequence)
  }

  lemma RecordsOfPrefix(listed: seq<AuditRecord>, held: map<u64, AuditEntry>, n: nat)
    requires forall r | r in listed :: r.sequence in held && r.entry == held[r.sequence]
    ensures forall s | s in Prefix(SequencesOf(listed), n) :: s in held
    ensures Prefix(listed, n) == RecordsOf(held, Prefix(SequencesOf(listed), n))
  {
    forall s | s in Prefix(SequencesOf(listed), n) ensures s in held {
      var i :| 0 <= i < |listed| && listed[i].sequence == s;
      assert listed[i] in listed;
    }
    assert forall i | 0 <= i < |listed| :: listed[i] in listed;
  }

  // ---- Changing ----

  lemma {:induction false} FilterInSequence(records: seq<AuditRecord>, issued: u64, keep: AuditRecord -> bool)
    requires InSequence(records, issued)
    ensures InSequence(Filter(records, keep), issued)
    ensures forall r :: r in Filter(records, keep) <==> r in records && keep(r)
    ensures forall s :: s in HeldOf(Filter(records, keep))
                   <==> s in HeldOf(records) && keep(AuditRecord(s, HeldOf(records)[s]))
    ensures forall s | s in HeldOf(Filter(records, keep)) :: HeldOf(Filter(records, keep))[s] == HeldOf(records)[s]
  {
    FilterKeepsSequence(records, issued, keep);
    var kept, held := Filter(records, keep), HeldOf(records);
    HeldOfRecords(records, issued);
    var narrowed := map s | s in held && keep(AuditRecord(s, held[s])) :: held[s];
    assert Mirrors(narrowed, kept) by {
      forall r | r in kept ensures r.sequence in narrowed && narrowed[r.sequence] == r.entry {
        assert r == AuditRecord(r.sequence, held[r.sequence]);
      }
    }
    HeldOfUnique(kept, issued, narrowed);
  }

  lemma FilterKeepsSequence(records: seq<AuditRecord>, issued: u64, keep: AuditRecord -> bool)
    requires InSequence(records, issued)
    ensures InSequence(Filter(records, keep), issued)
    ensures forall r :: r in Filter(records, keep) <==> r in records && keep(r)
  {
    assert Sorted(records, RecordOlder);
    FilterSorted(records, keep, RecordOlder);
    var kept := Filter(records, keep);
    assert forall r :: r in kept <==> r in Elements(kept);
    forall i, j | 0 <= i < j < |kept| ensures kept[i].sequence < kept[j].sequence {
      assert RecordOlder(kept[i], kept[j]);
    }
    forall i | 0 <= i < |kept| ensures 1 <= kept[i].sequence <= issued {
      assert kept[i] in kept;
    }
  }

  /** `retain` removes exactly what is due, and the count before says how many. */
  lemma RetainRemovesTheDue(records: seq<AuditRecord>, issued: u64, cutoff: Timestamp)
    requires InSequence(records, issued)
    ensures InSequence(Retain(records, cutoff), issued)
    ensures HeldOf(Retain(records, cutoff)) == HeldOf(records) - Due(HeldOf(records), cutoff)
    ensures CountOlderThan(records, cutoff) == |Due(HeldOf(records), cutoff)|
    ensures |records| - |Retain(records, cutoff)| == |Due(HeldOf(records), cutoff)|
  {
    RetainKeepsTheRest(records, issued, cutoff);
    StaleAreDue(records, issued, cutoff);
    var held, due := HeldOf(records), Due(HeldOf(records), cutoff);
    assert |held| == |records| by { HeldOfRecords(records, issued); }
    assert |held - due| == |Retain(records, cutoff)| by { HeldOfRecords(Retain(records, cutoff), issued); }
    assert held.Keys == (held - due).Keys + due;
  }

  lemma RetainKeepsTheRest(records: seq<AuditRecord>, issued: u64, cutoff: Timestamp)
    requires InSequence(records, issued)
    ensures InSequence(Retain(records, cutoff), issued)
    ensures HeldOf(Retain(records, cutoff)) == HeldOf(records) - Due(HeldOf(records), cutoff)
  {
    FilterInSequence(records, issued, (r: AuditRecord) => SurvivesRetention(r.entry, cutoff));
  }

  lemma StaleAreDue(records: seq<AuditRecord>, issued: u64, cutoff: Timestamp)
    requires InSequence(records, issued)
    ensures CountOlderThan(records, cutoff) == |Due(HeldOf(records), cutoff)|
  {
    FilterInSequence(records, issued, (r: AuditRecord) => !SurvivesRetention(r.entry, cutoff));
    HeldOfRecords(Stale(records, cutoff), issued);
    assert HeldOf(Stale(records, cutoff)).Keys == Due(HeldOf(records), cutoff);
    assert |HeldOf(Stale(records, cutoff)).Keys| == |HeldOf(Stale(records, cutoff))|;
  }

  // ---- Whether a prefix goes ----

  predicate Survives(record: AuditRecord, cutoff: Timestamp) {
    SurvivesRetention(record.entry, cutoff)
  }

  /** What is left is the newest records: the removal was of a prefix. */
  ghost predicate RemovesAPrefix(records: seq<AuditRecord>, cutoff: Timestamp) {
    exists k :: 0 <= k <= |records| && Retain(records, cutoff) == records[k..]
  }

  /** No record about the trail, and none stamped after the cutoff, stands before a due one. */
  predicate NoneSparedBeforeDue(records: seq<AuditRecord>, cutoff: Timestamp) {
    forall i, j | 0 <= i < j < |records| && !Survives(records[j], cutoff) ::
      records[i].entry.at <= cutoff && !records[i].entry.IsAboutTheTrail()
  }

  lemma {:induction false} RetainLosesNone(records: seq<AuditRecord>, cutoff: Timestamp)
    requires forall i | 0 <= i < |records| :: Survives(records[i], cutoff)
    ensures Retain(records, cutoff) == records
  {
    if records != [] {
      assert forall i | 0 <= i < |records| - 1 :: records[1..][i] == records[i + 1];
      RetainLosesNone(records[1..], cutoff);
    }
  }

  lemma {:induction false} OrderedRetainsASuffix(records: seq<AuditRecord>, cutoff: Timestamp)
    requires NoneSparedBeforeDue(records, cutoff)
    ensures RemovesAPrefix(records, cutoff)
  {
    if records == [] || Survives(records[0], cutoff) {
      RetainLosesNone(records, cutoff);
      assert Retain(records, cutoff) == records[0..];
    } else {
      var rest := records[1..];
      assert forall i | 0 <= i < |rest| :: rest[i] == records[i + 1];
      OrderedRetainsASuffix(rest, cutoff);
      var k :| 0 <= k <= |rest| && Retain(rest, cutoff) == rest[k..];
      assert Retain(records, cutoff) == records[k + 1..];
    }
  }

  lemma InSuffix<T>(xs: seq<T>, k: nat, j: nat)
    requires k <= j < |xs|
    ensures xs[j] in xs[k..]
  {
    assert xs[k..][j - k] == xs[j];
  }

  lemma NotInSuffix(records: seq<AuditRecord>, issued: u64, k: nat, i: nat)
    requires InSequence(records, issued) && i < k <= |records|
    ensures records[i] !in records[k..]
  {
    assert forall m | 0 <= m < |records| - k :: records[k..][m] == records[k + m];
  }

  /** When what survives is a suffix, what survives is what is not before it. */
  lemma SuffixSurvives(records: seq<AuditRecord>, issued: u64, cutoff: Timestamp, k: nat, i: nat)
    requires InSequence(records, issued) && k <= |records| && i < |records|
    requires forall r :: r in records[k..] <==> r in records && Survives(r, cutoff)
    ensures Survives(records[i], cutoff) <==> k <= i
  {
    assert records[i] in records;
    if k <= i {
      InSuffix(records, k, i);
    } else {
      NotInSuffix(records, issued, k, i);
    }
  }

  /** A sweep removes a prefix of the trail exactly when it spares nothing that stands before what it
      removes: no gap or marker, and no record a clock that stepped back left stamped later. */
  lemma RetainLeavesASuffixExactlyWhen(records: seq<AuditRecord>, issued: u64, cutoff: Timestamp)
    requires InSequence(records, issued)
    ensures RemovesAPrefix(records, cutoff) <==> NoneSparedBeforeDue(records, cutoff)
  {
    if NoneSparedBeforeDue(records, cutoff) {
      OrderedRetainsASuffix(records, cutoff);
    }
    if RemovesAPrefix(records, cutoff) {
      var k :| 0 <= k <= |records| && Retain(records, cutoff) == records[k..];
      FilterKeepsSequence(records, issued, (r: AuditRecord) => SurvivesRetention(r.entry, cutoff));
      forall i | 0 <= i < |records| ensures Survives(records[i], cutoff) <==> k <= i {
        SuffixSurvives(records, issued, cutoff, k, i);
      }
    }
  }

  lemma RetainOfTwo(spared: AuditRecord, due: AuditRecord, issued: u64, cutoff: Timestamp)
    requires InSequence([spared, due], issued) && Survives(spared, cutoff) && !Survives(due, cutoff)
    ensures Retain([spared, due], cutoff) == [spared] && !RemovesAPrefix([spared, due], cutoff)
  {
    var records := [spared, due];
    assert records == [spared] + [due];
    FilterConcat([spared], [due], (r: AuditRecord) => SurvivesRetention(r.entry, cutoff));
    FilterOne(spared, (r: AuditRecord) => SurvivesRetention(r.entry, cutoff));
    FilterOne(due, (r: AuditRecord) => SurvivesRetention(r.entry, cutoff));
    assert records[0] == spared && records[1] == due;
    RetainLeavesASuffixExactlyWhen(records, issued, cutoff);
  }

  /** With a clock that steps back, the later-stamped record stays and the newer one goes. */
  lemma ASteppedBackClockBreaksThePrefix(correlation: CorrelationId, actor: PrincipalId)
    ensures var later := AuditRecord(1, Invocation(correlation, 9, actor, None, "tool", Succeeded));
            var earlier := AuditRecord(2, Invocation(correlation, 4, actor, None, "tool", Succeeded));
            InSequence([later, earlier], 2) && Retain([later, earlier], 5) == [later]
            && !RemovesAPrefix([later, earlier], 5)
  {
    RetainOfTwo(AuditRecord(1, Invocation(correlation, 9, actor, None, "tool", Succeeded)),
                AuditRecord(2, Invocation(correlation, 4, actor, None, "tool", Succeeded)), 2, 5);
  }

  /** With a clock that never does, a gap stays and the newer record goes. */
  lemma AGapBreaksThePrefix(correlation: CorrelationId, actor: PrincipalId)
    ensures var gap := AuditRecord(1, Gap(1, 1));
            var later := AuditRecord(2, Invocation(correlation, 2, actor, None, "tool", Succeeded));
            InSequence([gap, later], 2) && Retain([gap, later], 5) == [gap] && !RemovesAPrefix([gap, later], 5)
  {
    RetainOfTwo(AuditRecord(1, Gap(1, 1)),
                AuditRecord(2, Invocation(correlation, 2, actor, None, "tool", Succeeded)), 2, 5);
  }

  class InMemoryAuditStore {
    var records: seq<AuditRecord>
    var issued: u64

    ghost predicate Valid()
      reads this
    {
      InSequence(records, issued)
    }

    ghost function Trail(): Trail
      reads this
    {
      Trails.Trail.Trail(HeldOf(records), issued)
    }

    constructor ()
      ensures Valid() && Trail() == Trails.Trail.Trail(map[], 0)
    {
      records, issued := [], 0;
    }

    method Append(entry: AuditEntry) returns (r: Result<u64, Error>)
      requires Valid()
      modifies this
      ensures Valid()
      ensures old(issued) < U64_MAX ==>
                r == Success(old(issued) + 1) && Trail() == Appended(old(Trail()), entry)
      ensures old(issued) == U64_MAX ==> r == Failure(OutOfSequenceNumbers) && Trail() == old(Trail())
    {
      if issued == U64_MAX {
        return Failure(OutOfSequenceNumbers);
      }
      var sequence: u64 := issued + 1;
      records := records + [AuditRecord(sequence, entry)];
      issued := sequence;
      assert records[..|records| - 1] == old(records);
      return Success(sequence);
    }

    method Read(q: AuditQuery, reader: Principal) returns (r: seq<AuditRecord>)
      requires Valid()
      ensures r == Answer(Trail().held, q, reader) && ReadsAsOwed(Trail().held, q, reader, r)
    {
      QueryIsTheAnswer(records, issued, q, reader);
      r := Query(records, q, reader);
    }

    /** The first lock section of a sweep: what is due goes, unmarked as yet. */
    method RetainRecords(cutoff: Timestamp) returns (removed: nat)
      requires Valid()
      modifies this
      ensures Valid()
      ensures Trail() == Without(old(Trail()), Due(old(Trail()).held, cutoff))
      ensures removed == |Due(old(Trail()).held, cutoff)|
    {
      RetainRemovesTheDue(records, issued, cutoff);
      var before := |records|;
      records := Retain(records, cutoff);
      removed := before - |records|;
    }

    /** A whole sweep with nothing interleaved. When the marker is refused because no sequence number
        is left, the records are already gone: the trail is shortened with nothing to say so. */
    method SweepOlderThan(cutoff: Timestamp, now: Timestamp) returns (r: Result<nat, Error>)
      requires Valid() && |records| <= U64_MAX
      modifies this
      ensures Valid()
      ensures var due := Due(old(Trail()).held, cutoff);
              var left := Without(old(Trail()), due);
              if due == {} then r == Success(0) && Trail() == old(Trail())
              else if old(issued) < U64_MAX then
                r == Success(|due|) && |due| <= U64_MAX && Trail() == Appended(left, Retention(now, cutoff, |due|))
              else r == Failure(OutOfSequenceNumbers) && Trail() == left
    {
      HeldOfRecords(records, issued);
      Subset(Due(HeldOf(records), cutoff), HeldOf(records).Keys);
      var removed := RetainRecords(cutoff);
      if removed > 0 {
        var appended := Append(Retention(now, cutoff, removed));
        if appended.Failure? {
          return Failure(appended.error);
        }
      } else {
        assert Trail().held == old(Trail()).held;
      }
      return Success(removed);
    }
  }
}
