/** The durable store: five tables changed together in transactions, queried through its indexes
    and swept in batches that record themselves. A table is a finite map or set; a range scan lists
    its keys in key order. */
module DurableStore {
  import opened Wrappers
  import opened Ordering
  import opened AuditEntries
  import opened AuditReading
  import opened Trails
  import opened Words

  const NEXT_SEQUENCE_KEY: string := "next_sequence"

  /** The correlation a record without one is indexed under. */
  const NO_CORRELATION: CorrelationId := 0

  datatype Error = OutOfSequenceNumbers | Corruption(index: string, sequence: u64)

  datatype Tables = Tables(
    records: map<u64, AuditEntry>,
    byTime: set<TimeKey>,
    byPrincipal: set<(PrincipalId, u64)>,
    byCorrelation: set<(CorrelationId, u64)>,
    meta: map<string, u64>)

  // ---- What the tables mean ----

  function IndexedPrincipals(entry: AuditEntry): (principals: seq<PrincipalId>)
  {
    var delegator := entry.OnBehalfOf();
    if delegator.Some? && delegator.value != entry.Actor() then [entry.Actor(), delegator.value]
    else [entry.Actor()]
  }

  /** The index names a principal once, and names exactly the parties to a record. */
  lemma IndexedPrincipalsAreTheParties(record: AuditRecord, principal: PrincipalId)
    ensures principal in IndexedPrincipals(record.entry)
       <==> principal == record.entry.Actor() || record.entry.OnBehalfOf() == Some(principal)
    ensures record.Concerns(principal)
       <==> principal in IndexedPrincipals(record.entry) || record.entry.IsAboutTheTrail()
    ensures record.entry.IsAboutTheTrail() ==> SYSTEM in IndexedPrincipals(record.entry)
    ensures multiset(IndexedPrincipals(record.entry))[principal] <= 1
  {
    assert |IndexedPrincipals(record.entry)| == 2
       ==> IndexedPrincipals(record.entry)[0] != IndexedPrincipals(record.entry)[1];
  }

  function CorrelationKey(entry: AuditEntry): CorrelationId {
    if entry.Correlation().Some? then entry.Correlation().value else NO_CORRELATION
  }

  function PrincipalKeys(entry: AuditEntry, s: u64): set<(PrincipalId, u64)> {
    set p | p in IndexedPrincipals(entry) :: (p, s)
  }

  function IssuedSequence(t: Tables): u64 {
    if NEXT_SEQUENCE_KEY in t.meta then t.meta[NEXT_SEQUENCE_KEY] else 0
  }

  /** Every index mirrors the records exactly. */
  ghost predicate Consistent(t: Tables) {
    && (forall k :: k in t.byTime <==> k.sequence in t.records && k.at == t.records[k.sequence].at)
    && (forall k :: k in t.byPrincipal <==> k.1 in t.records && k.0 in IndexedPrincipals(t.records[k.1]))
    && (forall k :: k in t.byCorrelation <==> k.1 in t.records && k.0 == CorrelationKey(t.records[k.1]))
    && WellNumbered(TrailOf(t))
  }

  ghost function TrailOf(t: Tables): Trail {
    Trail(t.records, IssuedSequence(t))
  }

  lemma TimeIndexKeys(t: Tables)
    requires Consistent(t)
    ensures t.byTime == KeysOf(t.records, t.records.Keys)
  {
    forall k | k in t.byTime ensures k in KeysOf(t.records, t.records.Keys) {
      assert k == KeyOf(t.records, k.sequence);
    }
  }

  /** The time and correlation indexes hold exactly one entry a record. */
  lemma OneEntryPerRecord(t: Tables)
    requires Consistent(t)
    ensures |t.byTime| == |t.records| && |t.byCorrelation| == |t.records|
  {
    TimeIndexKeys(t);
    SameSize(t.records, t.records.Keys, t.byTime);
    assert t.byCorrelation == set s | s in t.records :: (CorrelationKey(t.records[s]), s);
    CorrelationEntries(t.records, t.records.Keys, t.byCorrelation);
  }

  lemma CorrelationEntries(records: map<u64, AuditEntry>, s: set<u64>, keys: set<(CorrelationId, u64)>)
    requires s <= records.Keys && keys == set x | x in s :: (CorrelationKey(records[x]), x)
    ensures |keys| == |s|
    decreases |s|
  {
    if s != {} {
      var x :| x in s;
      var k := (CorrelationKey(records[x]), x);
      assert keys - {k} == set y | y in s - {x} :: (CorrelationKey(records[y]), y);
      CorrelationEntries(records, s - {x}, keys - {k});
    }
  }

  // ---- Writing, inside a transaction ----

  method AppendBlocking(tx: Tables, entry: AuditEntry) returns (r: Result<u64, Error>, tx': Tables)
    requires Consistent(tx)
    ensures Consistent(tx')
    ensures IssuedSequence(tx) < U64_MAX ==>
              r == Success(IssuedSequence(tx) + 1) && TrailOf(tx') == Appended(TrailOf(tx), entry)
    ensures IssuedSequence(tx) == U64_MAX ==> r == Failure(OutOfSequenceNumbers) && tx' == tx
  {
    tx' := tx;
    if IssuedSequence(tx) == U64_MAX {
      return Failure(OutOfSequenceNumbers), tx;
    }
    var sequence: u64 := IssuedSequence(tx) + 1;
    var principals := IndexedPrincipals(entry);
    tx' := tx'.(records := tx'.records[sequence := entry]);
    tx' := tx'.(byTime := tx'.byTime + {TimeKey(entry.at, sequence)});
    for i := 0 to |principals|
      invariant tx' == tx.(records := tx.records[sequence := entry],
                           byTime := tx.byTime + {TimeKey(entry.at, sequence)},
                           byPrincipal := tx.byPrincipal + set p | p in principals[..i] :: (p, sequence))
    {
      tx' := tx'.(byPrincipal := tx'.byPrincipal + {(principals[i], sequence)});
      assert principals[..i + 1] == principals[..i] + [principals[i]];
    }
    assert principals[..|principals|] == principals;
    tx' := tx'.(byCorrelation := tx'.byCorrelation + {(CorrelationKey(entry), sequence)});
    tx' := tx'.(meta := tx'.meta[NEXT_SEQUENCE_KEY := sequence]);
    AppendKeepsConsistent(tx, tx', entry, sequence);
    r := Success(sequence);
  }

  lemma AppendKeepsConsistent(t: Tables, t': Tables, entry: AuditEntry, sequence: u64)
    requires Consistent(t) && sequence == IssuedSequence(t) + 1
    requires t' == Tables(t.records[sequence := entry],
                          t.byTime + {TimeKey(entry.at, sequence)},
                          t.byPrincipal + PrincipalKeys(entry, sequence),
                          t.byCorrelation + {(CorrelationKey(entry), sequence)},
                          t.meta[NEXT_SEQUENCE_KEY := sequence])
    ensures Consistent(t')
  {
    assert sequence !in t.records;
    forall k ensures k in t'.byPrincipal <==> k.1 in t'.records && k.0 in IndexedPrincipals(t'.records[k.1]) {
      assert k in PrincipalKeys(entry, sequence) <==> k.1 == sequence && k.0 in IndexedPrincipals(entry);
    }
  }

  /** Removes one record and every index entry its append made. */
  method RemoveRecord(tx: Tables, key: TimeKey) returns (r: Result<Tables, Error>)
    requires Consistent(tx)
    ensures key.sequence !in tx.records ==> r == Failure(Corruption("time", key.sequence))
    ensures key in tx.byTime ==>
              && r.Success? && Consistent(r.value)
              && TrailOf(r.value) == Without(TrailOf(tx), {key.sequence})
  {
    if key.sequence !in tx.records {
      return Failure(Corruption("time", key.sequence));
    }
    var entry := tx.records[key.sequence];
    var tx' := tx.(records := tx.records - {key.sequence}, byTime := tx.byTime - {key});
    var principals := IndexedPrincipals(entry);
    for i := 0 to |principals|
      invariant tx' == tx.(records := tx.records - {key.sequence},
                           byTime := tx.byTime - {key},
                           byPrincipal := tx.byPrincipal - set p | p in principals[..i] :: (p, key.sequence))
    {
      tx' := tx'.(byPrincipal := tx'.byPrincipal - {(principals[i], key.sequence)});
      assert principals[..i + 1] == principals[..i] + [principals[i]];
    }
    assert principals[..|principals|] == principals;
    tx' := tx'.(byCorrelation := tx'.byCorrelation - {(CorrelationKey(entry), key.sequence)});
    if key in tx.byTime {
      RemoveKeepsConsistent(tx, tx', key);
    }
    r := Success(tx');
  }

  lemma RemoveKeepsConsistent(t: Tables, t': Tables, key: TimeKey)
    requires Consistent(t) && key in t.byTime
    requires var entry := t.records[key.sequence];
             t' == Tables(t.records - {key.sequence},
                          t.byTime - {key},
                          t.byPrincipal - PrincipalKeys(entry, key.sequence),
                          t.byCorrelation - {(CorrelationKey(entry), key.sequence)},
                          t.meta)
    ensures Consistent(t')
  {
    var entry := t.records[key.sequence];
    forall k ensures k in t'.byPrincipal <==> k.1 in t'.records && k.0 in IndexedPrincipals(t'.records[k.1]) {
      assert k in PrincipalKeys(entry, key.sequence) <==> k.1 == key.sequence && k.0 in IndexedPrincipals(entry);
    }
  }

  // ---- Reading ----

  /** The test a scan applies to every candidate. */
  function Keep(records: map<u64, AuditEntry>, q: AuditQuery, reader: Principal): u64 -> bool {
    (s: u64) => Candidate(records, q, reader, s)
  }

  /** How many a scan may keep. */
  function Room(limit: nat): nat {
    if limit == 0 then 1 else limit
  }

  /** What a scan keeps when it walks `numbers` and stops once `limit` are kept. The limit is tested
      after a match is kept, so a limit of zero still keeps one. */
  function Kept(records: map<u64, AuditEntry>, q: AuditQuery, reader: Principal, numbers: seq<u64>,
                limit: nat): seq<u64>
  {
    Prefix(Filter(numbers, Keep(records, q, reader)), Room(limit))
  }

  method CollectSecond(range: seq<u64>, index: string, records: map<u64, AuditEntry>,
                       q: AuditQuery, reader: Principal, limit: nat) returns (r: Result<seq<u64>, Error>)
    ensures (forall s | s in range :: s in records) ==> r == Success(Kept(records, q, reader, range, limit))
    ensures r.Failure? ==> exists s | s in range :: s !in records && r.error == Corruption(index, s)
  {
    ghost var keep := Keep(records, q, reader);
    var kept: seq<u64> := [];
    for i := 0 to |range|
      invariant kept == Filter(range[..i], keep)
      invariant limit == 0 ==> kept == []
      invariant limit > 0 ==> |kept| < limit
    {
      var sequence := range[i];
      if sequence !in records {
        return Failure(Corruption(index, sequence));
      }
      FilterStep(range, i, keep);
      var record := AuditRecord(sequence, records[sequence]);
      if record.VisibleTo(reader) && q.Matches(record) {
        kept := kept + [sequence];
        if |kept| >= limit {
          assert |kept| == Room(limit) && kept == Prefix(Filter(range, keep), |kept|);
          return Success(kept);
        }
      }
    }
    assert range[..|range|] == range;
    return Success(kept);
  }

  function ScannedPrincipals(principal: PrincipalId): seq<PrincipalId> {
    if principal == SYSTEM then [SYSTEM] else [principal, SYSTEM]
  }

  function PrincipalRange(t: Tables, name: PrincipalId): set<u64> {
    set k | k in t.byPrincipal && k.0 == name :: k.1
  }

  function CorrelationRange(t: Tables, key: CorrelationId): set<u64> {
    set k | k in t.byCorrelation && k.0 == key :: k.1
  }

  function TimeRange(t: Tables, since: Timestamp, until: Timestamp): set<TimeKey> {
    set k | k in t.byTime && since <= k.at <= until
  }

  /** Sorted newest first, duplicates removed. */
  function SortedDistinct(numbers: seq<u64>): seq<u64> {
    NewestFirst(Elements(numbers))
  }

  method ReadRecords(records: map<u64, AuditEntry>, numbers: seq<u64>) returns (r: Result<seq<AuditRecord>, Error>)
    ensures (forall s | s in numbers :: s in records) ==> r == Success(RecordsOf(records, numbers))
    ensures r.Failure? ==> exists s | s in numbers :: s !in records
  {
    var read: seq<AuditRecord> := [];
    for i := 0 to |numbers|
      invariant |read| == i
      invariant forall k :: 0 <= k < i ==>
                  numbers[k] in records && read[k] == AuditRecord(numbers[k], records[numbers[k]])
    {
      if numbers[i] !in records {
        return Failure(Corruption("a query", numbers[i]));
      }
      read := read + [AuditRecord(numbers[i], records[numbers[i]])];
    }
    assert read == RecordsOf(records, numbers);
    return Success(read);
  }

  // ---- What the scans find ----

  /** Scanning a range whose keys share their first half keeps the newest matches in that range. */
  lemma KeptOfRange(records: map<u64, AuditEntry>, q: AuditQuery, reader: Principal, range: set<u64>, limit: nat)
    requires range <= records.Keys
    ensures Kept(records, q, reader, NewestFirst(range), limit)
         == Prefix(NewestFirst(Matching(records, q, reader) * range), Room(limit))
  {
    NewerIsTotal();
    assert forall s :: s in NewestFirst(range) <==> s in Elements(NewestFirst(range));
    FilterEnumerates(NewestFirst(range), Keep(records, q, reader), Newer, Matching(records, q, reader) * range);
  }

  /** Merging two ranges, each cut at the limit on its own, loses nothing the limit would keep. */
  lemma MergedRanges(m: set<u64>, a: set<u64>, b: set<u64>, k: nat, n: nat)
    requires m == a + b && n <= k
    ensures Prefix(NewestFirst(NewestBySequence(a, k) + NewestBySequence(b, k)), n) == Prefix(NewestFirst(m), n)
  {
    var u := NewestBySequence(a, k) + NewestBySequence(b, k);
    NewestBySequenceSplits(a, k);
    NewestBySequenceSplits(b, k);
    CutKeepsTop(m, a, k, n);
    CutKeepsTop(m, b, k, n);
    assert NewestBySequence(m, n) <= m by { NewestBySequenceSplits(m, n); }
    TopSurvives(m, u, n);
    EqualCuts(u, m, n);
  }

  lemma EqualCuts(a: set<u64>, b: set<u64>, n: nat)
    requires NewestBySequence(a, n) == NewestBySequence(b, n)
    ensures Prefix(NewestFirst(a), n) == Prefix(NewestFirst(b), n)
  {
    SortedCompareAsSets(Prefix(NewestFirst(a), n), Prefix(NewestFirst(b), n));
  }

  /** Dropping records the limit would cut off anyway does not change what it keeps. */
  lemma TopSurvives(m: set<u64>, u: set<u64>, n: nat)
    requires NewestBySequence(m, n) <= u <= m
    ensures NewestBySequence(u, n) == NewestBySequence(m, n)
  {
    var top := NewestBySequence(m, n);
    NewestBySequenceSplits(m, n);
    NewestBySequenceSplits(u, n);
    Subset(u, m);
    Subset(top, u);
    UpperSetsAgree(u, top, NewestBySequence(u, n));
  }

  lemma CutKeepsTop(m: set<u64>, part: set<u64>, k: nat, n: nat)
    requires part <= m && n <= k
    ensures NewestBySequence(m, n) * part <= NewestBySequence(part, k)
  {
    NewerIsTotal();
    PrefixOfSubset(m, part, Newer, n);
    LongerPrefix(NewestFirst(part), n, k);
  }

  lemma LongerPrefix(xs: seq<u64>, n: nat, k: nat)
    requires n <= k
    ensures Elements(Prefix(xs, n)) <= Elements(Prefix(xs, k))
  {
    forall x | x in Prefix(xs, n) ensures x in Prefix(xs, k) {
      var i :| 0 <= i < |Prefix(xs, n)| && Prefix(xs, n)[i] == x;
      assert Prefix(xs, k)[i] == x;
    }
  }

  lemma UpperSetsAgree(s: set<u64>, a: set<u64>, b: set<u64>)
    requires a <= s && b <= s && |a| == |b|
    requires forall x, y | x in a && y in s - a :: x > y
    requires forall x, y | x in b && y in s - b :: x > y
    ensures a == b
  {
    if a != b {
      if a <= b { SubsetSameSize(a, b); }
      var x :| x in a && x !in b;
      EqualSizesExchange(b, a, x);
      var y :| y in b && y !in a;
      UpperSetLeads(s, a, x, y);
      UpperSetLeads(s, b, y, x);
    }
  }

  lemma UpperSetLeads(s: set<u64>, a: set<u64>, x: u64, y: u64)
    requires forall x, y | x in a && y in s - a :: x > y
    requires x in a && y in s && y !in a
    ensures x > y
  {
    assert y in s - a;
  }

  /** The time scan keeps the matches that come last in (timestamp, sequence) order. */
  lemma KeptOfTime(t: Tables, q: AuditQuery, reader: Principal, since: Timestamp, until: Timestamp, limit: nat)
    requires Consistent(t)
    requires forall s | s in Matching(t.records, q, reader) :: since <= t.records[s].at <= until
    ensures StrictTotal(LaterKey)
    ensures Elements(Kept(t.records, q, reader, Sequences(Enumerate(TimeRange(t, since, until), LaterKey)), limit))
         == LatestByTime(t.records, Matching(t.records, q, reader), Room(limit))
  {
    KeyOrdersAreTotal();
    var keys := Enumerate(TimeRange(t, since, until), LaterKey);
    var matches := Enumerate(KeysOf(t.records, Matching(t.records, q, reader)), LaterKey);
    FilterSequences(keys, t.records, q, reader);
    TimeMatches(t, q, reader, since, until);
    FilterEnumerates(keys, KeepKey(t.records, q, reader), LaterKey, KeysOf(t.records, Matching(t.records, q, reader)));
    PrefixSequences(matches, Room(limit));
  }

  lemma PrefixSequences(keys: seq<TimeKey>, n: nat)
    ensures Prefix(Sequences(keys), n) == Sequences(Prefix(keys, n))
  {
  }

  function KeepKey(records: map<u64, AuditEntry>, q: AuditQuery, reader: Principal): TimeKey -> bool {
    (k: TimeKey) => Candidate(records, q, reader, k.sequence)
  }

  lemma TimeMatches(t: Tables, q: AuditQuery, reader: Principal, since: Timestamp, until: Timestamp)
    requires Consistent(t) && StrictTotal(LaterKey)
    requires forall s | s in Matching(t.records, q, reader) :: since <= t.records[s].at <= until
    ensures forall k :: k in KeysOf(t.records, Matching(t.records, q, reader))
                   <==> k in Enumerate(TimeRange(t, since, until), LaterKey) && KeepKey(t.records, q, reader)(k)
  {
    var keys := Enumerate(TimeRange(t, since, until), LaterKey);
    forall k ensures k in KeysOf(t.records, Matching(t.records, q, reader))
                <==> k in keys && KeepKey(t.records, q, reader)(k)
    {
      assert k in keys <==> k in Elements(keys);
      if k in t.byTime { assert k == KeyOf(t.records, k.sequence); }
    }
  }

  lemma {:induction false} FilterSequences(keys: seq<TimeKey>, records: map<u64, AuditEntry>, q: AuditQuery,
                                           reader: Principal)
    ensures Filter(Sequences(keys), Keep(records, q, reader)) == Sequences(Filter(keys, KeepKey(records, q, reader)))
  {
    if keys != [] {
      FilterSequences(keys[1..], records, q, reader);
      assert Sequences(keys)[1..] == Sequences(keys[1..]);
    }
  }

  // ---- Answering ----

  /** Whatever a query asks, the narrowest index reads every record it matches. */
  lemma IndexCoversMatches(t: Tables, q: AuditQuery, reader: Principal)
    requires Consistent(t)
    ensures q.correlation.Some? ==>
              && CorrelationRange(t, q.correlation.value) <= t.records.Keys
              && Matching(t.records, q, reader) <= CorrelationRange(t, q.correlation.value)
    ensures q.principal.Some? ==>
              && PrincipalRange(t, q.principal.value) + PrincipalRange(t, SYSTEM) <= t.records.Keys
              && Matching(t.records, q, reader) <= PrincipalRange(t, q.principal.value) + PrincipalRange(t, SYSTEM)
  {
    forall s | s in Matching(t.records, q, reader)
      ensures q.correlation.Some? ==> s in CorrelationRange(t, q.correlation.value)
      ensures q.principal.Some? ==> s in PrincipalRange(t, q.principal.value) + PrincipalRange(t, SYSTEM)
    {
      if q.correlation.Some? {
        assert (q.correlation.value, s) in t.byCorrelation;
      }
      if q.principal.Some? {
        IndexedPrincipalsAreTheParties(AuditRecord(s, t.records[s]), q.principal.value);
        assert (q.principal.value, s) in t.byPrincipal || (SYSTEM, s) in t.byPrincipal;
      }
    }
  }

  /** Reads one range whose keys share their first half. */
  method ScanRange(t: Tables, range: set<u64>, index: string, q: AuditQuery, reader: Principal)
    returns (r: Result<seq<u64>, Error>)
    ensures range <= t.records.Keys ==>
              && r.Success?
              && Elements(r.value) == NewestBySequence(Matching(t.records, q, reader) * range, Room(q.Limit()))
  {
    assert forall s :: s in NewestFirst(range) ==> s in Elements(NewestFirst(range));
    r := CollectSecond(NewestFirst(range), index, t.records, q, reader, q.Limit());
    if range <= t.records.Keys {
      KeptOfRange(t.records, q, reader, range, q.Limit());
    }
  }

  method ScanCorrelation(t: Tables, q: AuditQuery, reader: Principal) returns (r: Result<seq<u64>, Error>)
    requires Consistent(t) && q.correlation.Some?
    ensures r.Success?
    ensures Prefix(SortedDistinct(r.value), q.Limit()) == Prefix(NewestFirst(Matching(t.records, q, reader)), q.Limit())
  {
    IndexCoversMatches(t, q, reader);
    ghost var m, k := Matching(t.records, q, reader), Room(q.Limit());
    r := ScanRange(t, CorrelationRange(t, q.correlation.value), "the audit correlation index", q, reader);
    assert m * CorrelationRange(t, q.correlation.value) == m;
    MergedRanges(m, m, m, k, q.Limit());
    assert NewestBySequence(m, k) + NewestBySequence(m, k) == NewestBySequence(m, k);
  }

  /** The named principal's range and then the system's, each cut at the limit on its own. */
  method ScanPrincipal(t: Tables, q: AuditQuery, reader: Principal) returns (r: Result<seq<u64>, Error>)
    requires Consistent(t) && q.principal.Some?
    ensures r.Success?
    ensures Prefix(SortedDistinct(r.value), q.Limit()) == Prefix(NewestFirst(Matching(t.records, q, reader)), q.Limit())
  {
    var names := ScannedPrincipals(q.principal.value);
    var numbers: seq<u64> := [];
    ghost var m, k := Matching(t.records, q, reader), Room(q.Limit());
    PrincipalScansCover(t, q, reader);
    for i := 0 to |names|
      invariant Elements(numbers) == GatheredFrom(t, m, k, names[..i])
    {
      var found := ScanRange(t, PrincipalRange(t, names[i]), "the audit principal index", q, reader);
      if found.Failure? {
        return found;
      }
      JoinedElements(numbers, found.value);
      GatheredStep(t, m, k, names, i);
      numbers := numbers + found.value;
    }
    assert names[..|names|] == names;
    GatheredMerges(t, m, k, q.principal.value, q.Limit());
    r := Success(numbers);
  }

  /** What the scans of several principals keep between them. */
  ghost function GatheredFrom(t: Tables, m: set<u64>, k: nat, names: seq<PrincipalId>): set<u64> {
    if names == [] then {}
    else
      var last := |names| - 1;
      GatheredFrom(t, m, k, names[..last]) + NewestBySequence(m * PrincipalRange(t, names[last]), k)
  }

  lemma GatheredStep(t: Tables, m: set<u64>, k: nat, names: seq<PrincipalId>, i: nat)
    requires i < |names|
    ensures GatheredFrom(t, m, k, names[..i + 1])
         == GatheredFrom(t, m, k, names[..i]) + NewestBySequence(m * PrincipalRange(t, names[i]), k)
  {
    assert names[..i + 1][..i] == names[..i];
  }

  lemma PrincipalScansCover(t: Tables, q: AuditQuery, reader: Principal)
    requires Consistent(t) && q.principal.Some?
    ensures forall name | name in ScannedPrincipals(q.principal.value) :: PrincipalRange(t, name) <= t.records.Keys
    ensures var m, own := Matching(t.records, q, reader), q.principal.value;
            m == m * PrincipalRange(t, own) + m * PrincipalRange(t, SYSTEM)
  {
    IndexCoversMatches(t, q, reader);
  }

  lemma GatheredMerges(t: Tables, m: set<u64>, k: nat, principal: PrincipalId, n: nat)
    requires m == m * PrincipalRange(t, principal) + m * PrincipalRange(t, SYSTEM) && n <= k
    ensures Prefix(NewestFirst(GatheredFrom(t, m, k, ScannedPrincipals(principal))), n) == Prefix(NewestFirst(m), n)
  {
    var names := ScannedPrincipals(principal);
    var own, system := m * PrincipalRange(t, principal), m * PrincipalRange(t, SYSTEM);
    GatheredFromTwo(t, m, k, principal);
    MergedRanges(m, own, system, k, n);
  }

  lemma GatheredFromTwo(t: Tables, m: set<u64>, k: nat, principal: PrincipalId)
    ensures GatheredFrom(t, m, k, ScannedPrincipals(principal))
         == NewestBySequence(m * PrincipalRange(t, principal), k) + NewestBySequence(m * PrincipalRange(t, SYSTEM), k)
  {
    assert [principal, SYSTEM][..1] == [principal] && [principal][..0] == [] && [SYSTEM][..0] == [];
    assert GatheredFrom(t, m, k, [principal]) == NewestBySequence(m * PrincipalRange(t, principal), k);
  }

  lemma JoinedElements(a: seq<u64>, b: seq<u64>)
    ensures Elements(a + b) == Elements(a) + Elements(b)
  {
  }

  method ScanTime(t: Tables, q: AuditQuery, reader: Principal) returns (r: Result<seq<u64>, Error>)
    requires Consistent(t)
    ensures r.Success?
    ensures Prefix(SortedDistinct(r.value), q.Limit())
         == NewestFirst(LatestByTime(t.records, Matching(t.records, q, reader), q.Limit()))
  {
    var since := if q.since.Some? then q.since.value else 0;
    var until: Timestamp := if q.until.Some? then q.until.value else U64_MAX;
    KeptOfTime(t, q, reader, since, until, q.Limit());
    var keys := Enumerate(TimeRange(t, since, until), LaterKey);
    forall s | s in Sequences(keys) ensures s in t.records {
      var i :| 0 <= i < |keys| && keys[i].sequence == s;
      assert keys[i] in Elements(keys);
    }
    r := CollectSecond(Sequences(keys), "the audit time index", t.records, q, reader, q.Limit());
    CutAgain(t.records, Matching(t.records, q, reader), q.Limit());
  }

  /** Truncating what the scan kept changes nothing, save for the one record a limit of zero let in. */
  lemma CutAgain(records: map<u64, AuditEntry>, m: set<u64>, limit: nat)
    requires m <= records.Keys
    ensures Prefix(NewestFirst(LatestByTime(records, m, Room(limit))), limit)
         == NewestFirst(LatestByTime(records, m, limit))
  {
    LatestByTimeSplits(records, m, Room(limit));
    LatestByTimeSplits(records, m, limit);
  }

  method QueryBlocking(t: Tables, q: AuditQuery, reader: Principal) returns (r: Result<seq<AuditRecord>, Error>)
    requires Consistent(t)
    ensures r.Success?
    ensures q.correlation.Some? || q.principal.Some? ==> r.value == Answer(t.records, q, reader)
    ensures q.correlation.None? && q.principal.None? ==> r.value == TimeAnswer(t.records, q, reader)
    ensures ReadsAsOwed(t.records, q, reader, r.value)
  {
    AnswerReadsAsOwed(t.records, q, reader);
    TimeAnswerReadsAsOwed(t.records, q, reader);
    var found: Result<seq<u64>, Error>;
    if q.correlation.Some? {
      found := ScanCorrelation(t, q, reader);
    } else if q.principal.Some? {
      found := ScanPrincipal(t, q, reader);
    } else {
      found := ScanTime(t, q, reader);
    }
    match found {
      case Failure(error) =>
        r := Failure(error);
      case Success(numbers) =>
        ghost var m := Matching(t.records, q, reader);
        PrefixOfMatching(t.records, m, q.Limit());
        LatestByTimeSplits(t.records, m, q.Limit());
        assert forall s :: s in NewestFirst(LatestByTime(t.records, m, q.Limit()))
                       ==> s in Elements(NewestFirst(LatestByTime(t.records, m, q.Limit())));
        r := ReadRecords(t.records, Prefix(SortedDistinct(numbers), q.Limit()));
    }
  }
}
