/** What reading the trail owes its reader, said of each sort of entry field by field. */
module AuditReading {
  import opened Wrappers
  import opened AuditEntries
  import opened Arithmetic
  import opened Joining
  import opened Ordering
  import opened Words

  /** Whether the reader is a party to an entry: they acted, whoever they act for did, or it was done for
      them. What concerns the trail itself is everyone's. */
  predicate Theirs(entry: AuditEntry, reader: Principal) {
    match entry
    case Authorization(_, _, actor, delegator, _, _) =>
      actor == reader.id || reader.onBehalfOf == Some(actor) || delegator == Some(reader.id)
    case Invocation(_, _, actor, delegator, _, _) =>
      actor == reader.id || reader.onBehalfOf == Some(actor) || delegator == Some(reader.id)
    case Gap(_, _) => true
    case Retention(_, _, _) => true
  }

  /** Something was done, as against something about the trail. */
  predicate IsDeed(entry: AuditEntry) {
    entry.Authorization? || entry.Invocation?
  }

  /** Whether an entry meets every filter of a query. A filter on a principal hides nothing about the trail,
      the others do; both ends of the period are in it; a tool that merely failed was not refused. */
  predicate AskedFor(entry: AuditEntry, q: AuditQuery) {
    && (q.principal.Some? && IsDeed(entry) ==> entry.actor == q.principal.value || entry.delegator == q.principal)
    && (q.correlation.Some? ==> IsDeed(entry) && entry.correlation == q.correlation.value)
    && (q.tool.Some? ==> IsDeed(entry) && entry.toolName == q.tool.value)
    && (q.kinds != [] ==>
          || (entry.Authorization? && AuthorizationKind in q.kinds)
          || (entry.Invocation? && InvocationKind in q.kinds)
          || (entry.Gap? && GapKind in q.kinds)
          || (entry.Retention? && RetentionKind in q.kinds))
    && (q.since.Some? ==> q.since.value <= entry.at)
    && (q.until.Some? ==> entry.at <= q.until.value)
    && (q.refusalsOnly ==>
          || (entry.Authorization? && !entry.decision.Allowed? && !entry.decision.ApprovalGranted?)
          || (entry.Invocation? && entry.outcome == InvocationOutcome.Denied))
  }

  /** The records a reader is owed, whatever the limit. */
  function Owed(held: map<u64, AuditEntry>, q: AuditQuery, reader: Principal): set<u64> {
    set s | s in held && Theirs(held[s], reader) && AskedFor(held[s], q)
  }

  /** An answer is as much of what is owed as the limit allows, and nothing else. */
  ghost predicate ReadsAsOwed(held: map<u64, AuditEntry>, q: AuditQuery, reader: Principal,
                              answer: seq<AuditRecord>)
  {
    && (forall i, j | 0 <= i < j < |answer| :: answer[i].sequence > answer[j].sequence)
    && (forall r | r in answer ::
          r.sequence in held && r.entry == held[r.sequence] && Theirs(r.entry, reader) && AskedFor(r.entry, q))
    && (q.limit.Some? ==> |answer| == Min(q.limit.value, |Owed(held, q, reader)|))
    && (q.limit.None? ==> |answer| == Min(USIZE_MAX, |Owed(held, q, reader)|))
    && (|answer| == |Owed(held, q, reader)| ==>
          forall s | s in Owed(held, q, reader) :: AuditRecord(s, held[s]) in answer)
  }

  /** Filters narrow what a reader may see and never widen it: whatever is asked, every deed shown was done
      by the reader, by whoever the reader acts for, or for the reader. */
  lemma ShowsOnlyDeedsOfTheReader(held: map<u64, AuditEntry>, q: AuditQuery, reader: Principal,
                                  answer: seq<AuditRecord>)
    requires ReadsAsOwed(held, q, reader, answer)
    ensures forall r | r in answer && (r.entry.Authorization? || r.entry.Invocation?) ::
              r.entry.actor == reader.id || reader.onBehalfOf == Some(r.entry.actor)
              || r.entry.delegator == Some(reader.id)
  {
  }

  /** A query with no filter and no limit. */
  const EVERYTHING: AuditQuery := AuditQuery(None, None, None, [], None, None, false, None)

  lemma OwedIsHeld(held: map<u64, AuditEntry>, q: AuditQuery, reader: Principal)
    ensures |Owed(held, q, reader)| <= |held|
  {
    Subset(Owed(held, q, reader), held.Keys);
  }

  /** Asked for everything, a trail shows its gaps and sweeps to anyone, and of the rest exactly the deeds
      the reader is a party to. */
  lemma AskedForEverything(held: map<u64, AuditEntry>, reader: Principal, answer: seq<AuditRecord>)
    requires ReadsAsOwed(held, EVERYTHING, reader, answer) && |held| <= U64_MAX
    ensures forall s | s in held ::
              (AuditRecord(s, held[s]) in answer
               <==> || held[s].Gap? || held[s].Retention?
                    || held[s].actor == reader.id || reader.onBehalfOf == Some(held[s].actor)
                    || held[s].delegator == Some(reader.id))
  {
    OwedIsHeld(held, EVERYTHING, reader);
    forall s | s in held ensures s in Owed(held, EVERYTHING, reader) <==> Theirs(held[s], reader) {
      assert AskedFor(held[s], EVERYTHING);
    }
  }

  /** Mallory, who is no party to what Alice did, asks for everything and is shown nothing. */
  lemma AStrangerReadsNothing(correlation: CorrelationId, answer: seq<AuditRecord>)
    requires ReadsAsOwed(map[1 := Invocation(correlation, 5, "alice", None, "tool", Succeeded)], EVERYTHING,
                         Principal("mallory", None), answer)
    ensures answer == []
  {
    EmptyHasNone(answer);
  }
}
