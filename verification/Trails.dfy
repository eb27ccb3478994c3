/** The audit trail as both stores see it: the records held, by sequence number, and the highest
    number ever issued. Appending, sweeping and answering a query are defined here once; each store
    is proved against these definitions. */
module Trails {
  import opened Wrappers
  import opened Ordering
  import opened AuditEntries
  import opened AuditReading
  import opened Words

  datatype Trail = Trail(held: map<u64, AuditEntry>, issued: u64)

  ghost predicate WellNumbered(t: Trail) {
    forall s | s in t.held :: 1 <= s <= t.issued
  }

  // ---- Changing the trail ----

  function Appended(t: Trail, entry: AuditEntry): Trail
    requires t.issued < U64_MAX
  {
    Trail(t.held[t.issued + 1 := entry], t.issued + 1)
  }

  /** The sequence numbers a sweep at `cutoff` may remove. */
  function Due(held: map<u64, AuditEntry>, cutoff: Timestamp): set<u64> {
    set s | s in held && !SurvivesRetention(held[s], cutoff)
  }

  function Without(t: Trail, gone: set<u64>): Trail {
    t.(held := t.held - gone)
  }

  /** The oldest `n` of what is due, in (timestamp, sequence) order: one batch of a durable sweep. */
  function OldestDue(held: map<u64, AuditEntry>, cutoff: Timestamp, n: nat): set<u64> {
    KeyOrdersAreTotal();
    Elements(Sequences(Prefix(Enumerate(KeysOf(held, Due(held, cutoff)), EarlierKey), n)))
  }

  /** A batch takes as much of what is due as it may, oldest first, and nothing else. */
  lemma OldestDueSplits(held: map<u64, AuditEntry>, cutoff: Timestamp, n: nat)
    ensures var due, gone := Due(held, cutoff), OldestDue(held, cutoff, n);
            && gone <= due
            && |gone| == (if n < |due| then n else |due|)
            && forall a, b | a in gone && b in due - gone :: EarlierKey(KeyOf(held, a), KeyOf(held, b))
  {
    var due, gone := Due(held, cutoff), OldestDue(held, cutoff, n);
    var cut := DueKeys(held, cutoff, n);
    SameSize(held, due, KeysOf(held, due));
    SameSize(held, gone, cut);
    KeysKeepOrder(held, due, gone, KeysOf(held, due), cut, EarlierKey);
  }

  /** Records stand as their keys do. */
  lemma KeysKeepOrder(held: map<u64, AuditEntry>, s: set<u64>, top: set<u64>, keys: set<TimeKey>, cut: set<TimeKey>,
                      before: (TimeKey, TimeKey) -> bool)
    requires top <= s <= held.Keys && keys == KeysOf(held, s) && cut == KeysOf(held, top)
    requires forall a, b | a in cut && b in keys - cut :: before(a, b)
    ensures forall a, b | a in top && b in s - top :: before(KeyOf(held, a), KeyOf(held, b))
  {
    forall a, b | a in top && b in s - top ensures before(KeyOf(held, a), KeyOf(held, b)) {
      assert KeyOf(held, a) in cut && KeyOf(held, b) in keys - cut;
    }
  }

  lemma DueKeys(held: map<u64, AuditEntry>, cutoff: Timestamp, n: nat) returns (cut: set<TimeKey>)
    ensures var keys, gone := KeysOf(held, Due(held, cutoff)), OldestDue(held, cutoff, n);
            && gone <= Due(held, cutoff) && cut <= keys && KeysOf(held, gone) == cut
            && |cut| == (if n < |keys| then n else |keys|)
            && forall a, b | a in cut && b in keys - cut :: EarlierKey(a, b)
  {
    KeyOrdersAreTotal();
    var keys := KeysOf(held, Due(held, cutoff));
    var listed := Prefix(Enumerate(keys, EarlierKey), n);
    cut := Elements(listed);
    PrefixSplits(keys, EarlierKey, n);
    SequencesOfKeys(held, Due(held, cutoff), listed);
  }

  // ---- Accounting for it ----

  function RemovedBy(entry: AuditEntry): nat {
    if entry.Retention? then entry.removed else 0
  }

  /** What the retention markers held under the numbers up to `upTo` say was removed. */
  function Accounted(held: map<u64, AuditEntry>, upTo: u64): nat {
    if upTo == 0 then 0
    else Accounted(held, upTo - 1) + (if upTo in held then RemovedBy(held[upTo]) else 0)
  }

  /** Every number issued is either still held or accounted for by a marker. */
  ghost predicate Balanced(t: Trail) {
    t.issued == |t.held| + Accounted(t.held, t.issued)
  }

  lemma {:induction false} AccountedAgree(held: map<u64, AuditEntry>, held': map<u64, AuditEntry>, upTo: u64)
    requires forall s | 1 <= s <= upTo :: (if s in held then RemovedBy(held[s]) else 0)
                                       == (if s in held' then RemovedBy(held'[s]) else 0)
    ensures Accounted(held, upTo) == Accounted(held', upTo)
  {
    if upTo > 0 {
      AccountedAgree(held, held', upTo - 1);
    }
  }

  lemma AppendedAccounts(t: Trail, entry: AuditEntry)
    requires WellNumbered(t) && t.issued < U64_MAX
    ensures WellNumbered(Appended(t, entry))
    ensures |Appended(t, entry).held| == |t.held| + 1
    ensures Accounted(Appended(t, entry).held, t.issued + 1) == Accounted(t.held, t.issued) + RemovedBy(entry)
  {
    AccountedAgree(t.held, Appended(t, entry).held, t.issued);
  }

  lemma WithoutAccounts(t: Trail, gone: set<u64>, cutoff: Timestamp)
    requires WellNumbered(t) && gone <= Due(t.held, cutoff)
    ensures WellNumbered(Without(t, gone))
    ensures |Without(t, gone).held| == |t.held| - |gone|
    ensures Accounted(Without(t, gone).held, t.issued) == Accounted(t.held, t.issued)
  {
    AccountedAgree(t.held, Without(t, gone).held, t.issued);
    assert t.held.Keys == Without(t, gone).held.Keys + gone;
  }

  // ---- Querying it ----

  predicate Newer(a: u64, b: u64) { a > b }

  lemma NewerIsTotal()
    ensures StrictTotal(Newer)
  {
  }

  predicate Candidate(held: map<u64, AuditEntry>, q: AuditQuery, reader: Principal, s: u64) {
    s in held && AuditRecord(s, held[s]).VisibleTo(reader) && q.Matches(AuditRecord(s, held[s]))
  }

  /** What the reader may see and the query matches, whatever the limit. */
  function Matching(held: map<u64, AuditEntry>, q: AuditQuery, reader: Principal): set<u64> {
    set s | s in held && Candidate(held, q, reader, s)
  }

  /** `s` listed newest first. */
  function NewestFirst(s: set<u64>): (xs: seq<u64>)
    ensures Sorted(xs, Newer) && Elements(xs) == s && |xs| == |s|
  {
    NewerIsTotal();
    Enumerate(s, Newer)
  }

  function RecordsOf(held: map<u64, AuditEntry>, numbers: seq<u64>): (records: seq<AuditRecord>)
    requires forall s | s in numbers :: s in held
  {
    seq(|numbers|, i requires 0 <= i < |numbers| => AuditRecord(numbers[i], held[numbers[i]]))
  }

  lemma PrefixOfMatching(held: map<u64, AuditEntry>, s: set<u64>, n: nat)
    requires s <= held.Keys
    ensures forall x | x in Prefix(NewestFirst(s), n) :: x in held
  {
    forall x | x in Prefix(NewestFirst(s), n) ensures x in held {
      assert x in Elements(NewestFirst(s));
    }
  }

  /** The answer a query is owed: the newest records, by sequence, that the reader may see and the
      query matches, up to its limit. */
  function Answer(held: map<u64, AuditEntry>, q: AuditQuery, reader: Principal): seq<AuditRecord> {
    PrefixOfMatching(held, Matching(held, q, reader), q.Limit());
    RecordsOf(held, Prefix(NewestFirst(Matching(held, q, reader)), q.Limit()))
  }

  /** The store's two predicates, visibility and then the filters, select exactly what is owed. */
  lemma MatchingIsOwed(held: map<u64, AuditEntry>, q: AuditQuery, reader: Principal)
    ensures Matching(held, q, reader) == Owed(held, q, reader)
  {
    forall s | s in held ensures Candidate(held, q, reader, s) <==> Theirs(held[s], reader) && AskedFor(held[s], q) {
      VisibleToItsParties(AuditRecord(s, held[s]), reader);
      MatchesWhatIsAskedFor(AuditRecord(s, held[s]), q);
    }
  }

  lemma VisibleToItsParties(record: AuditRecord, reader: Principal)
    ensures record.VisibleTo(reader) <==> Theirs(record.entry, reader)
  {
  }

  lemma MatchesWhatIsAskedFor(record: AuditRecord, q: AuditQuery)
    ensures q.Matches(record) <==> AskedFor(record.entry, q)
  {
  }

  /** What the answer means for a reader: only the records they are owed, newest first, none repeated, as
      many as the limit allows, and nothing left out is newer than anything shown. */
  lemma AnswerIsTheNewestMatches(held: map<u64, AuditEntry>, q: AuditQuery, reader: Principal)
    ensures var r := Answer(held, q, reader);
            var m := Owed(held, q, reader);
            && |r| == (if q.Limit() < |m| then q.Limit() else |m|)
            && (forall i, j :: 0 <= i < j < |r| ==> r[i].sequence > r[j].sequence)
            && (forall i :: 0 <= i < |r| ==>
                  r[i].sequence in m && r[i].entry == held[r[i].sequence])
            && (forall s, i :: s in m && 0 <= i < |r| && (forall k :: 0 <= k < |r| ==> r[k].sequence != s)
                  ==> s < r[i].sequence)
  {
    AnswerReadsAsOwed(held, q, reader);
    NothingNewerIsLeftOut(held, q, reader);
    var r := Answer(held, q, reader);
    assert forall i | 0 <= i < |r| :: r[i] in r;
  }

  lemma NothingNewerIsLeftOut(held: map<u64, AuditEntry>, q: AuditQuery, reader: Principal)
    ensures var r := Answer(held, q, reader);
            forall s, i | s in Owed(held, q, reader) && 0 <= i < |r|
                          && (forall k :: 0 <= k < |r| ==> r[k].sequence != s) :: s < r[i].sequence
  {
    var m := Matching(held, q, reader);
    MatchingIsOwed(held, q, reader);
    var top := Prefix(NewestFirst(m), q.Limit());
    NewestBySequenceSplits(m, q.Limit());
    var r := Answer(held, q, reader);
    forall s, i | s in m && 0 <= i < |r| && (forall k :: 0 <= k < |r| ==> r[k].sequence != s)
      ensures s < r[i].sequence
    {
      forall k | 0 <= k < |top| ensures top[k] != s {
        assert r[k].sequence == top[k];
      }
      assert r[i].sequence == top[i] && top[i] in Elements(top) && s in m - Elements(top);
    }
  }

  /** Records listed newest first from part of what is owed, as large a part as the limit allows. */
  lemma ListingReadsAsOwed(held: map<u64, AuditEntry>, q: AuditQuery, reader: Principal, top: seq<u64>)
    requires Sorted(top, Newer) && Elements(top) <= Owed(held, q, reader)
    requires |top| == if q.Limit() < |Owed(held, q, reader)| then q.Limit() else |Owed(held, q, reader)|
    requires forall s | s in top :: s in held
    ensures ReadsAsOwed(held, q, reader, RecordsOf(held, top))
  {
    var r, m := RecordsOf(held, top), Owed(held, q, reader);
    forall i, j | 0 <= i < j < |r| ensures r[i].sequence > r[j].sequence {
      assert Newer(top[i], top[j]);
    }
    forall record | record in r ensures record.sequence in m && record.entry == held[record.sequence] {
      var i :| 0 <= i < |r| && r[i] == record;
      assert top[i] in Elements(top);
    }
    if |r| == |m| {
      NewerIsTotal();
      SortedSize(top, Newer);
      SubsetSameSize(Elements(top), m);
      forall s | s in m ensures AuditRecord(s, held[s]) in r {
        var i :| 0 <= i < |top| && top[i] == s;
        assert r[i] == AuditRecord(s, held[s]);
      }
    }
  }

  lemma AnswerReadsAsOwed(held: map<u64, AuditEntry>, q: AuditQuery, reader: Principal)
    ensures ReadsAsOwed(held, q, reader, Answer(held, q, reader))
  {
    var m := Matching(held, q, reader);
    MatchingIsOwed(held, q, reader);
    NewestBySequenceSplits(m, q.Limit());
    PrefixOfMatching(held, m, q.Limit());
    ListingReadsAsOwed(held, q, reader, Prefix(NewestFirst(m), q.Limit()));
  }

  // ---- What the durable store's time path returns ----

  /** A key of the time index: a timestamp and the sequence number it points at. */
  datatype TimeKey = TimeKey(at: Timestamp, sequence: u64)

  /** Descending key order of the time index. */
  predicate LaterKey(a: TimeKey, b: TimeKey) {
    a.at > b.at || (a.at == b.at && a.sequence > b.sequence)
  }

  predicate EarlierKey(a: TimeKey, b: TimeKey) {
    LaterKey(b, a)
  }

  lemma KeyOrdersAreTotal()
    ensures StrictTotal(LaterKey) && StrictTotal(EarlierKey)
  {
  }

  function KeyOf(held: map<u64, AuditEntry>, s: u64): TimeKey
    requires s in held
  {
    TimeKey(held[s].at, s)
  }

  function KeysOf(held: map<u64, AuditEntry>, s: set<u64>): set<TimeKey>
    requires s <= held.Keys
  {
    set x | x in s :: KeyOf(held, x)
  }

  function Sequences(keys: seq<TimeKey>): (xs: seq<u64>)
    ensures |xs| == |keys| && forall i :: 0 <= i < |keys| ==> xs[i] == keys[i].sequence
  {
    seq(|keys|, i requires 0 <= i < |keys| => keys[i].sequence)
  }

  /** The `n` of `s` that come last in (timestamp, sequence) order. */
  function LatestByTime(held: map<u64, AuditEntry>, s: set<u64>, n: nat): (top: set<u64>)
    requires s <= held.Keys
  {
    KeyOrdersAreTotal();
    Elements(Sequences(Prefix(Enumerate(KeysOf(held, s), LaterKey), n)))
  }

  lemma LatestByTimeSplits(held: map<u64, AuditEntry>, s: set<u64>, n: nat)
    requires s <= held.Keys
    ensures var top := LatestByTime(held, s, n);
            && top <= s
            && |top| == (if n < |s| then n else |s|)
            && forall a, b | a in top && b in s - top :: LaterKey(KeyOf(held, a), KeyOf(held, b))
  {
    var keys := KeysOf(held, s);
    var cut := CutKeys(held, s, n);
    var top := LatestByTime(held, s, n);
    SameSize(held, s, keys);
    SameSize(held, top, cut);
    KeysKeepOrder(held, s, top, keys, cut, LaterKey);
  }

  /** The keys behind `LatestByTime`. */
  lemma CutKeys(held: map<u64, AuditEntry>, s: set<u64>, n: nat) returns (cut: set<TimeKey>)
    requires s <= held.Keys
    ensures var keys, top := KeysOf(held, s), LatestByTime(held, s, n);
            && top <= s && cut <= keys && KeysOf(held, top) == cut
            && |cut| == (if n < |keys| then n else |keys|)
            && forall a, b | a in cut && b in keys - cut :: LaterKey(a, b)
  {
    KeyOrdersAreTotal();
    var listed := Prefix(Enumerate(KeysOf(held, s), LaterKey), n);
    cut := Elements(listed);
    PrefixSplits(KeysOf(held, s), LaterKey, n);
    SequencesOfKeys(held, s, listed);
  }

  lemma SequencesOfKeys(held: map<u64, AuditEntry>, s: set<u64>, keys: seq<TimeKey>)
    requires s <= held.Keys && Elements(keys) <= KeysOf(held, s)
    ensures Elements(Sequences(keys)) <= s
    ensures KeysOf(held, Elements(Sequences(keys))) == Elements(keys)
  {
    var top := Elements(Sequences(keys));
    forall x | x in top ensures x in s && KeyOf(held, x) in Elements(keys) {
      var i :| 0 <= i < |keys| && Sequences(keys)[i] == x;
      assert keys[i] in Elements(keys);
    }
    forall k | k in Elements(keys) ensures k in KeysOf(held, top) {
      var i :| 0 <= i < |keys| && keys[i] == k;
      assert Sequences(keys)[i] in top;
      assert KeyOf(held, k.sequence) == k;
    }
  }

  lemma SameSize(held: map<u64, AuditEntry>, s: set<u64>, keys: set<TimeKey>)
    requires s <= held.Keys && keys == KeysOf(held, s)
    ensures |keys| == |s|
    decreases |s|
  {
    if s != {} {
      var x :| x in s;
      var k := KeyOf(held, x);
      assert keys - {k} == KeysOf(held, s - {x});
      SameSize(held, s - {x}, keys - {k});
    }
  }

  /** The durable store's answer to a query naming neither a principal nor a correlation: it cuts
      at the limit in (timestamp, sequence) order and sorts what is left by sequence. */
  function TimeAnswer(held: map<u64, AuditEntry>, q: AuditQuery, reader: Principal): seq<AuditRecord> {
    var top := LatestByTime(held, Matching(held, q, reader), q.Limit());
    LatestByTimeSplits(held, Matching(held, q, reader), q.Limit());
    assert forall x | x in NewestFirst(top) :: x in Elements(NewestFirst(top));
    RecordsOf(held, NewestFirst(top))
  }

  lemma TimeAnswerReadsAsOwed(held: map<u64, AuditEntry>, q: AuditQuery, reader: Principal)
    ensures ReadsAsOwed(held, q, reader, TimeAnswer(held, q, reader))
  {
    var m := Matching(held, q, reader);
    var top := LatestByTime(held, m, q.Limit());
    MatchingIsOwed(held, q, reader);
    LatestByTimeSplits(held, m, q.Limit());
    assert forall x | x in NewestFirst(top) :: x in Elements(NewestFirst(top));
    ListingReadsAsOwed(held, q, reader, NewestFirst(top));
  }

  /** The newest `n` by sequence. */
  function NewestBySequence(s: set<u64>, n: nat): (top: set<u64>) {
    Elements(Prefix(NewestFirst(s), n))
  }

  /** No matching record the limit cuts off is stamped later than one it keeps. */
  ghost predicate CutRespectsTime(held: map<u64, AuditEntry>, s: set<u64>, n: nat)
    requires s <= held.Keys
  {
    forall kept, cut | kept in NewestBySequence(s, n) && cut in s && cut !in NewestBySequence(s, n) ::
      kept in held && held[cut].at <= held[kept].at
  }

  /** The time path agrees with the reference exactly when the limit cuts no later-stamped record
      off behind an earlier-stamped one. */
  lemma TimeAnswerAgreesExactlyWhen(held: map<u64, AuditEntry>, q: AuditQuery, reader: Principal)
    ensures TimeAnswer(held, q, reader) == Answer(held, q, reader)
       <==> CutRespectsTime(held, Matching(held, q, reader), q.Limit())
  {
    var m, n := Matching(held, q, reader), q.Limit();
    LatestByTimeSplits(held, m, n);
    NewestBySequenceSplits(m, n);
    TopsAgreeExactlyWhen(held, m, LatestByTime(held, m, n), NewestBySequence(m, n));
    AnswersCompareAsSets(held, q, reader);
  }

  lemma NewestBySequenceSplits(s: set<u64>, n: nat)
    ensures var top := NewestBySequence(s, n);
            && top <= s
            && |top| == (if n < |s| then n else |s|)
            && forall a, b | a in top && b in s - top :: a > b
  {
    NewerIsTotal();
    PrefixSplits(s, Newer, n);
    forall a, b | a in NewestBySequence(s, n) && b in s - NewestBySequence(s, n) ensures a > b {
      assert Newer(a, b);
    }
  }

  /** Two cuts of one set, one by time and one by sequence, of one size. */
  lemma TopsAgreeExactlyWhen(held: map<u64, AuditEntry>, s: set<u64>, byTime: set<u64>, bySequence: set<u64>)
    requires s <= held.Keys && byTime <= s && bySequence <= s && |byTime| == |bySequence|
    requires forall a, b | a in byTime && b in s - byTime :: LaterKey(KeyOf(held, a), KeyOf(held, b))
    requires forall a, b | a in bySequence && b in s - bySequence :: a > b
    ensures byTime == bySequence
       <==> forall kept, cut | kept in bySequence && cut in s && cut !in bySequence ::
              held[cut].at <= held[kept].at
  {
    if byTime == bySequence {
      forall kept, cut | kept in bySequence && cut in s && cut !in bySequence
        ensures held[cut].at <= held[kept].at
      {
        assert LaterKey(KeyOf(held, kept), KeyOf(held, cut));
      }
    } else {
      if bySequence <= byTime { SubsetSameSize(bySequence, byTime); }
      var x :| x in bySequence && x !in byTime;
      EqualSizesExchange(byTime, bySequence, x);
      var y :| y in byTime && y !in bySequence;
      assert LaterKey(KeyOf(held, y), KeyOf(held, x));
      assert y in s - bySequence && x > y;
    }
  }

  lemma EqualSizesExchange(a: set<u64>, b: set<u64>, x: u64)
    requires |a| == |b| && x in b && x !in a
    ensures exists y :: y in a && y !in b
  {
    if a <= b {
      Subset(a, b - {x});
      assert false;
    }
  }

  lemma SubsetSameSize(a: set<u64>, b: set<u64>)
    requires a <= b && |a| == |b|
    ensures a == b
  {
    assert b == a + (b - a);
  }

  lemma AnswersCompareAsSets(held: map<u64, AuditEntry>, q: AuditQuery, reader: Principal)
    ensures TimeAnswer(held, q, reader) == Answer(held, q, reader)
       <==> LatestByTime(held, Matching(held, q, reader), q.Limit())
            == NewestBySequence(Matching(held, q, reader), q.Limit())
  {
    var m, n := Matching(held, q, reader), q.Limit();
    var xs, ys := NewestFirst(LatestByTime(held, m, n)), Prefix(NewestFirst(m), n);
    PrefixOfMatching(held, m, n);
    LatestByTimeSplits(held, m, n);
    assert forall x :: x in xs ==> x in Elements(xs);
    RecordsCompareAsNumbers(held, xs, ys);
    NumbersCompareAsSets(held, m, n);
  }

  lemma NumbersCompareAsSets(held: map<u64, AuditEntry>, m: set<u64>, n: nat)
    requires m <= held.Keys
    ensures NewestFirst(LatestByTime(held, m, n)) == Prefix(NewestFirst(m), n)
       <==> LatestByTime(held, m, n) == NewestBySequence(m, n)
  {
    var xs, ys := NewestFirst(LatestByTime(held, m, n)), Prefix(NewestFirst(m), n);
    assert Sorted(ys, Newer);
    SortedCompareAsSets(xs, ys);
  }

  lemma RecordsCompareAsNumbers(held: map<u64, AuditEntry>, xs: seq<u64>, ys: seq<u64>)
    requires forall s | s in xs :: s in held
    requires forall s | s in ys :: s in held
    ensures RecordsOf(held, xs) == RecordsOf(held, ys) <==> xs == ys
  {
    var r, r' := RecordsOf(held, xs), RecordsOf(held, ys);
    assert forall i :: 0 <= i < |xs| ==> r[i].sequence == xs[i];
    assert forall i :: 0 <= i < |ys| ==> r'[i].sequence == ys[i];
  }

  lemma SortedCompareAsSets(xs: seq<u64>, ys: seq<u64>)
    requires Sorted(xs, Newer) && Sorted(ys, Newer)
    ensures xs == ys <==> Elements(xs) == Elements(ys)
  {
    NewerIsTotal();
    if Elements(xs) == Elements(ys) {
      SortedUnique(xs, ys, Newer);
    }
  }

  /** A limit that does not bind, or matching timestamps that never decrease with sequence, is
      enough for agreement. */
  lemma UnboundOrOrderedTrailsAgree(held: map<u64, AuditEntry>, q: AuditQuery, reader: Principal)
    requires var m := Matching(held, q, reader);
             || |m| <= q.Limit()
             || forall a, b | a in m && b in m && a < b :: held[a].at <= held[b].at
    ensures TimeAnswer(held, q, reader) == Answer(held, q, reader)
  {
    var m, n := Matching(held, q, reader), q.Limit();
    NewerIsTotal();
    PrefixSplits(m, Newer, n);
    forall kept, cut | kept in NewestBySequence(m, n) && cut in m && cut !in NewestBySequence(m, n)
      ensures held[cut].at <= held[kept].at
    {
      if |m| <= n {
        SubsetSameSize(NewestBySequence(m, n), m);
        assert false;
      } else {
        assert Newer(kept, cut);
      }
    }
    TimeAnswerAgreesExactlyWhen(held, q, reader);
  }

  /** Timestamps that step back always show: some limit makes the two stores disagree. */
  lemma BackwardsClockAlwaysShows(held: map<u64, AuditEntry>, q: AuditQuery, reader: Principal, a: u64, b: u64)
    requires a in Matching(held, q, reader) && b in Matching(held, q, reader)
    requires a < b && held[a].at > held[b].at
    ensures exists n: nat :: TimeAnswer(held, q.(limit := Some(n)), reader)
                          != Answer(held, q.(limit := Some(n)), reader)
  {
    var m := Matching(held, q, reader);
    var xs := NewestFirst(m);
    assert a in Elements(xs) && b in Elements(xs);
    var i :| 0 <= i < |xs| && xs[i] == b;
    var j :| 0 <= j < |xs| && xs[j] == a;
    var n := i + 1;
    var bounded := q.(limit := Some(n));
    assert Matching(held, bounded, reader) == m by {
      forall s | s in held
        ensures Candidate(held, bounded, reader, s) == Candidate(held, q, reader, s)
      {
        assert bounded.Matches(AuditRecord(s, held[s])) == q.Matches(AuditRecord(s, held[s]));
      }
    }
    assert i < j;
    assert Prefix(xs, n)[i] == b;
    forall k | 0 <= k < n && k < |xs| ensures xs[k] != a {
      assert k < j ==> Newer(xs[k], xs[j]);
    }
    assert b in NewestBySequence(m, n) && a !in NewestBySequence(m, n);
    assert !CutRespectsTime(held, m, n);
    TimeAnswerAgreesExactlyWhen(held, bounded, reader);
  }
}
