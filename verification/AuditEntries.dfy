/** What one audit record is, who may see it and what a query matches. */
module AuditEntries {
  import opened Wrappers
  import opened Words

  /** The width of a usize on the platforms this runs on. */
  const USIZE_MAX: nat := U64_MAX

  /** Milliseconds since the epoch. */
  type Timestamp = u64
  type PrincipalId = string
  type ToolName = string
  /** A UUID read as a 128-bit number. */
  type CorrelationId = nat

  const SYSTEM: PrincipalId := "system"

  datatype Principal = Principal(id: PrincipalId, onBehalfOf: Option<PrincipalId>) {
    predicate MayActFor(owner: PrincipalId) {
      id == owner || onBehalfOf == Some(owner)
    }
  }

  datatype AuthorizationOutcome =
    | Allowed
    | Refused(reason: string)
    | ApprovalGranted
    | ApprovalRefused
    | ApprovalUnavailable
    | PolicyUnavailable
  {
    predicate IsAllowed() {
      Allowed? || ApprovalGranted?
    }
  }

  datatype InvocationOutcome =
    | Succeeded
    | ReportedError
    | Failed(kind: string)
    | Denied
    | NotFound

  datatype AuditEntryKind = AuthorizationKind | InvocationKind | GapKind | RetentionKind {
    predicate IsAboutTheTrail() {
      GapKind? || RetentionKind?
    }
  }

  datatype AuditEntry =
    | Authorization(correlation: CorrelationId, at: Timestamp, actor: PrincipalId,
                    delegator: Option<PrincipalId>, toolName: ToolName, decision: AuthorizationOutcome)
    | Invocation(correlation: CorrelationId, at: Timestamp, actor: PrincipalId,
                 delegator: Option<PrincipalId>, toolName: ToolName, outcome: InvocationOutcome)
    | Gap(at: Timestamp, missed: u64)
    | Retention(at: Timestamp, cutoff: Timestamp, removed: u64)
  {
    function Kind(): AuditEntryKind {
      match this
      case Authorization(_, _, _, _, _, _) => AuthorizationKind
      case Invocation(_, _, _, _, _, _) => InvocationKind
      case Gap(_, _) => GapKind
      case Retention(_, _, _) => RetentionKind
    }

    predicate IsAboutTheTrail() {
      Kind().IsAboutTheTrail()
    }

    function Correlation(): Option<CorrelationId> {
      if IsAboutTheTrail() then None else Some(correlation)
    }

    function Actor(): PrincipalId {
      if IsAboutTheTrail() then SYSTEM else actor
    }

    function OnBehalfOf(): Option<PrincipalId> {
      if IsAboutTheTrail() then None else delegator
    }

    function Tool(): Option<ToolName> {
      if IsAboutTheTrail() then None else Some(toolName)
    }

    predicate IsRefusal() {
      match this
      case Authorization(_, _, _, _, _, decision) => !decision.IsAllowed()
      case Invocation(_, _, _, _, _, outcome) => outcome.Denied?
      case _ => false
    }
  }

  datatype AuditRecord = AuditRecord(sequence: u64, entry: AuditEntry) {
    predicate VisibleTo(reader: Principal) {
      || entry.IsAboutTheTrail()
      || reader.MayActFor(entry.Actor())
      || entry.OnBehalfOf() == Some(reader.id)
    }

    predicate Concerns(principal: PrincipalId) {
      entry.IsAboutTheTrail() || entry.Actor() == principal || entry.OnBehalfOf() == Some(principal)
    }
  }

  datatype AuditQuery = AuditQuery(
    principal: Option<PrincipalId>,
    correlation: Option<CorrelationId>,
    tool: Option<ToolName>,
    kinds: seq<AuditEntryKind>,
    since: Option<Timestamp>,
    until: Option<Timestamp>,
    refusalsOnly: bool,
    limit: Option<nat>)
  {
    predicate Matches(record: AuditRecord) {
      && (principal.Some? ==> record.Concerns(principal.value))
      && (correlation.Some? ==> record.entry.Correlation() == Some(correlation.value))
      && (tool.Some? ==> record.entry.Tool() == Some(tool.value))
      && (kinds != [] ==> record.entry.Kind() in kinds)
      && (since.Some? ==> since.value <= record.entry.at)
      && (until.Some? ==> record.entry.at <= until.value)
      && (refusalsOnly ==> record.entry.IsRefusal())
    }

    function Limit(): nat {
      if limit.Some? then limit.value else USIZE_MAX
    }
  }

  /** Whether a record survives a sweep at `cutoff`; one predicate for both stores. */
  predicate SurvivesRetention(entry: AuditEntry, cutoff: Timestamp) {
    cutoff < entry.at || entry.IsAboutTheTrail()
  }

  /** The cutoff of a sweep at `now` keeping `retentionMillis`, saturating at the epoch. */
  function RetentionCutoff(now: Timestamp, retentionMillis: nat): Timestamp {
    var millis := if retentionMillis <= U64_MAX then retentionMillis else U64_MAX;
    if millis <= now then now - millis else 0
  }

  /** A period longer than the clock has run was meant to sweep nothing. It does sweep one thing:
      a record stamped with the epoch itself, since the saturated cutoff is inclusive. */
  lemma RetentionCutoffSweepsExactly(entry: AuditEntry, now: Timestamp, retentionMillis: nat)
    requires !entry.IsAboutTheTrail()
    ensures !SurvivesRetention(entry, RetentionCutoff(now, retentionMillis))
       <==> entry.at + retentionMillis <= now || entry.at == 0
  {
  }

  /** A day kept, ten seconds on the clock, and a record stamped with the epoch is due. */
  lemma AnEpochRecordIsSwept(correlation: CorrelationId, actor: PrincipalId)
    ensures var entry := Invocation(correlation, 0, actor, None, "tool", Succeeded);
            !SurvivesRetention(entry, RetentionCutoff(10_000, 86_400_000))
  {
    RetentionCutoffSweepsExactly(Invocation(correlation, 0, actor, None, "tool", Succeeded), 10_000, 86_400_000);
  }
}
