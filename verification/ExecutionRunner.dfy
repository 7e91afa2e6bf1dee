/**
 One cycle of the execution runner: candidates of each organisation in priority order, each
 taken through the gates, with a cap on executions and an account of what became of them.
 The queries and services a candidate's decision depends on are its `Readings`.
 */
module ExecutionRunners {
  import opened Base
  import R = ExecutionReservation
  import W = ExecutionWorlds

  datatype Priority = Critical | High | Medium | Low

  datatype ActionId =
    | GenerateCharge | NotifyFinanceTeam | MarkOperationalAttention | CreateChargeFollowup | EscalateRiskReview
    | NotifyOperationalAlert | OtherAction(name: string)

  datatype Candidate = Candidate(
    orgId: string, decisionId: string, actionId: ActionId, entityId: string, priority: Priority,
    amountCents: int, overdueCount: int, stalledServiceOrders: int, blockedByGovernance: bool)

  // ---------------------------------------------------------------- priority order

  function Rank(p: Priority): nat {
    match p case Critical => 0 case High => 1 case Medium => 2 case Low => 3
  }

  /** Array.sort by rank, which is stable. */
  function Sort(cs: seq<Candidate>): seq<Candidate> {
    if cs == [] then [] else Insert(cs[0], Sort(cs[1..]))
  }

  function Insert(c: Candidate, cs: seq<Candidate>): seq<Candidate> {
    if cs == [] || Rank(c.priority) <= Rank(cs[0].priority) then [c] + cs
    else [cs[0]] + Insert(c, cs[1..])
  }

  function Of(cs: seq<Candidate>, p: Priority): seq<Candidate> {
    if cs == [] then [] else (if cs[0].priority == p then [cs[0]] else []) + Of(cs[1..], p)
  }

  function ByPriority(cs: seq<Candidate>): seq<Candidate> {
    Of(cs, Critical) + Of(cs, High) + Of(cs, Medium) + Of(cs, Low)
  }

  predicate All(cs: seq<Candidate>, p: Priority) { forall c :: c in cs ==> c.priority == p }

  lemma {:induction false} OfIsAll(cs: seq<Candidate>, p: Priority)
    ensures All(Of(cs, p), p)
  {
    if cs != [] { OfIsAll(cs[1..], p); }
  }

  /** Inserting skips what ranks lower than the new candidate's rank, and stops in front of its own rank. */
  lemma {:induction false} InsertBetween(c: Candidate, before: seq<Candidate>, after: seq<Candidate>)
    requires forall b :: b in before ==> Rank(b.priority) < Rank(c.priority)
    requires forall a :: a in after ==> Rank(c.priority) <= Rank(a.priority)
    ensures Insert(c, before + after) == before + [c] + after
  {
    if before == [] {
      assert before + after == after;
      assert before + [c] + after == [c] + after;
    } else {
      assert (before + after)[1..] == before[1..] + after;
      InsertBetween(c, before[1..], after);
      assert before + [c] + after == [before[0]] + (before[1..] + [c] + after);
    }
  }

  lemma InsertCritical(c: Candidate, k: seq<Candidate>, h: seq<Candidate>, m: seq<Candidate>, l: seq<Candidate>)
    requires c.priority == Critical && All(k, Critical) && All(h, High) && All(m, Medium) && All(l, Low)
    ensures Insert(c, k + h + m + l) == ([c] + k) + h + m + l
  {
    assert Insert(c, k + h + m + l) == [c] + (k + h + m + l);
    assert [c] + (k + h + m + l) == ([c] + k) + h + m + l;
  }

  lemma InsertHigh(c: Candidate, k: seq<Candidate>, h: seq<Candidate>, m: seq<Candidate>, l: seq<Candidate>)
    requires c.priority == High && All(k, Critical) && All(h, High) && All(m, Medium) && All(l, Low)
    ensures Insert(c, k + h + m + l) == k + ([c] + h) + m + l
  {
    var before, after := k, h + m + l;
    assert k + h + m + l == before + after;
    InsertBetween(c, before, after);
    assert before + [c] + after == k + ([c] + h) + m + l;
  }

  lemma InsertMedium(c: Candidate, k: seq<Candidate>, h: seq<Candidate>, m: seq<Candidate>, l: seq<Candidate>)
    requires c.priority == Medium && All(k, Critical) && All(h, High) && All(m, Medium) && All(l, Low)
    ensures Insert(c, k + h + m + l) == k + h + ([c] + m) + l
  {
    var before, after := k + h, m + l;
    assert k + h + m + l == before + after;
    InsertBetween(c, before, after);
    assert before + [c] + after == k + h + ([c] + m) + l;
  }

  lemma InsertLow(c: Candidate, k: seq<Candidate>, h: seq<Candidate>, m: seq<Candidate>, l: seq<Candidate>)
    requires c.priority == Low && All(k, Critical) && All(h, High) && All(m, Medium) && All(l, Low)
    ensures Insert(c, k + h + m + l) == k + h + m + ([c] + l)
  {
    var before, after := k + h + m, l;
    assert k + h + m + l == before + after;
    InsertBetween(c, before, after);
    assert before + [c] + after == k + h + m + ([c] + l);
  }

  /** Sorting by priority puts the four classes one after the other, each in the order it came. */
  lemma {:induction false} SortIsStable(cs: seq<Candidate>)
    ensures Sort(cs) == ByPriority(cs)
  {
    if cs != [] {
      var c, rest := cs[0], cs[1..];
      SortIsStable(rest);
      var k, h, m, l := Of(rest, Critical), Of(rest, High), Of(rest, Medium), Of(rest, Low);
      OfIsAll(rest, Critical); OfIsAll(rest, High); OfIsAll(rest, Medium); OfIsAll(rest, Low);
      OfCons(cs, Critical); OfCons(cs, High); OfCons(cs, Medium); OfCons(cs, Low);
      match c.priority
      case Critical => InsertCritical(c, k, h, m, l);
      case High => InsertHigh(c, k, h, m, l);
      case Medium => InsertMedium(c, k, h, m, l);
      case Low => InsertLow(c, k, h, m, l);
    }
  }

  lemma OfCons(cs: seq<Candidate>, p: Priority)
    requires cs != []
    ensures Of(cs, p) == if cs[0].priority == p then [cs[0]] + Of(cs[1..], p) else Of(cs[1..], p)
  {}

  // ---------------------------------------------------------------- the gates

  datatype Mode = Manual | SemiAutomatic | Automatic

  datatype Policy = Policy(
    allowAutomaticCharge: bool, allowFinanceTeamNotifications: bool, allowGovernanceFollowup: bool,
    allowChargeFollowupCreation: bool, allowRiskReviewEscalation: bool, maxRetries: nat, throttleWindowMs: nat)

  datatype ReservationStatus = Reserved | Recent | TenantLimit

  /** What the action answers; a call that succeeded can still fail to be recorded. */
  datatype Execution = Succeeds | RecordFails(message: string) | Fails(message: string)

  /**
   Everything the decision on one candidate reads outside the timeline, what its execution
   answers, and what other instances do at each wait.
   */
  datatype Readings = Readings(
    contextValid: bool, mode: Mode, policy: Policy, executionKey: string, failureCount: nat,
    featureBlocked: Option<string>, meterBlocked: Option<string>, tenantLimit: Option<string>,
    execution: Execution, others: nat -> seq<R.Action>)

  /** What the timeline and the clock said when they were asked, once for each gate that asks. */
  datatype Seen = Seen(now: int, already: bool, reservation: ReservationStatus)

  datatype Verdict = Executed | Failed | Blocked | RequiresConfirmation | Throttled | BlockedRecent

  datatype Governance = Allowed | GovernanceBlocked(reason: string) | NeedsConfirmation(reason: string)

  function Evaluate(c: Candidate): Governance {
    if c.amountCents > 500_000 then NeedsConfirmation("governance_high_amount_requires_approval")
    else if c.blockedByGovernance then GovernanceBlocked("governance_blocked_candidate")
    else if c.actionId.NotifyOperationalAlert? && c.overdueCount < 3 && c.stalledServiceOrders < 8
    then GovernanceBlocked("governance_alert_threshold_not_reached")
    else if c.actionId.MarkOperationalAttention? && c.stalledServiceOrders < 10
    then GovernanceBlocked("governance_operational_attention_threshold_not_reached")
    else Allowed
  }

  function PolicyBlock(c: Candidate, p: Policy): Option<string> {
    match c.actionId
    case GenerateCharge => if p.allowAutomaticCharge then None else Some("policy_automatic_charge_disabled")
    case NotifyFinanceTeam =>
      if p.allowFinanceTeamNotifications then None else Some("policy_finance_team_notification_disabled")
    case MarkOperationalAttention =>
      if p.allowGovernanceFollowup then None else Some("policy_operational_attention_disabled")
    case CreateChargeFollowup =>
      if p.allowChargeFollowupCreation then None else Some("policy_charge_followup_creation_disabled")
    case EscalateRiskReview =>
      if p.allowRiskReviewEscalation then None else Some("policy_risk_review_escalation_disabled")
    case _ => None
  }

  function ExpectedReason(message: string): Option<string> {
    if message == "charge_followup_already_exists" then Some("charge_followup_already_exists")
    else if message == "charge_not_eligible_for_payment_link" then Some("no_valid_phone")
    else if message == "charge_not_eligible_for_overdue_reminder" then Some("already_sent_recently")
    else if message == "charge_not_eligible_for_followup" then Some("already_paid")
    else if message == "charge_not_overdue_enough_for_followup" then Some("blocked_recent_execution")
    else if message == "risk_review_already_escalated_recently" then Some("already_sent_recently")
    else None
  }

  /** The conditions under which a start is reserved for a candidate, all of them. */
  predicate MayReserve(c: Candidate, r: Readings, cooling: bool, seen: Seen) {
    && r.contextValid && !cooling && r.mode.Automatic?
    && PolicyBlock(c, r.policy).None? && Evaluate(c).Allowed? && LateOpen(r, seen)
  }

  predicate MayExecute(c: Candidate, r: Readings, cooling: bool, seen: Seen) {
    MayReserve(c, r, cooling, seen) && seen.reservation.Reserved?
  }

  /** A verdict that goes with a recorded block, and so with one count of a reason. */
  predicate CountsAReason(v: Verdict) { !v.Executed? && !v.Failed? }

  datatype Refusal = Refusal(verdict: Verdict, reason: string)

  const RECENT := Refusal(BlockedRecent, "blocked_recent_execution")

  /** The first closed gate of a candidate with a valid context decides verdict and reason. */
  function FirstRefusal(c: Candidate, r: Readings, cooling: bool, seen: Seen): Option<Refusal> {
    if cooling then Some(RECENT)
    else if r.mode.Manual? then Some(Refusal(Blocked, "mode_manual_explicit_configuration"))
    else if r.mode.SemiAutomatic? then Some(Refusal(RequiresConfirmation, "mode_semi_automatic_requires_confirmation"))
    else if PolicyBlock(c, r.policy).Some? then Some(Refusal(Blocked, PolicyBlock(c, r.policy).value))
    else if Evaluate(c).GovernanceBlocked? then Some(Refusal(Blocked, Evaluate(c).reason))
    else if Evaluate(c).NeedsConfirmation? then Some(Refusal(RequiresConfirmation, Evaluate(c).reason))
    else LateRefusal(r, seen)
  }

  /** The gates from the first look at the timeline on. */
  function LateRefusal(r: Readings, seen: Seen): Option<Refusal> {
    if seen.already then Some(RECENT)
    else if r.failureCount >= r.policy.maxRetries then Some(Refusal(Throttled, "retry_limit_reached"))
    else if r.featureBlocked.Some? then Some(Refusal(Blocked, r.featureBlocked.value))
    else if r.meterBlocked.Some? then Some(Refusal(Blocked, r.meterBlocked.value))
    else if seen.reservation.Recent? then Some(RECENT)
    else if seen.reservation.TenantLimit? then Some(Refusal(Throttled, Or(r.tenantLimit, "")))
    else None
  }

  predicate LateOpen(r: Readings, seen: Seen) {
    !seen.already && r.failureCount < r.policy.maxRetries && r.featureBlocked.None? && r.meterBlocked.None?
  }

  /** How verdict, call and counted reason go together for a candidate with a valid context. */
  predicate Coherent(r: Readings, v: Verdict, called: bool, reason: Option<string>) {
    && (called ==> reason == if r.execution.Succeeds? then None else ExpectedReason(r.execution.message))
    && (v.Executed? <==> called && r.execution.Succeeds?)
    && (v.Failed? <==> called && !r.execution.Succeeds? && reason.None?)
    && (called && reason.Some? ==> v.Blocked?)
    && (reason.Some? <==> CountsAReason(v))
    && (v.BlockedRecent? ==> reason == Some("blocked_recent_execution"))
  }

  function Tallied(reason: Option<string>): multiset<string> {
    if reason.Some? then multiset{reason.value} else multiset{}
  }

  function Or(value: Option<string>, other: string): string { if value.Some? then value.value else other }

  function KeyFor(c: Candidate, r: Readings): R.Key { R.Key(c.orgId, r.executionKey) }

  /** The steps of the reservation protocol that one candidate leads to. */
  function CallSteps(a: string, execution: Execution): seq<R.Action> {
    match execution
    case Succeeds => [R.Execute(a, true), R.Record(a)]
    case RecordFails(_) => [R.Execute(a, true), R.RecordThrows(a), R.Record(a)]
    case Fails(_) => [R.Execute(a, false), R.Record(a)]
  }

  function ReserveSteps(a: string, c: Candidate, r: Readings, called: bool): seq<R.Action> {
    [R.Decide(a, KeyFor(c, r), r.policy.throttleWindowMs), R.Reserve(a, r.tenantLimit.None?)]
    + if called then CallSteps(a, r.execution) else []
  }

  function LateSteps(a: string, c: Candidate, r: Readings, seen: Seen): seq<R.Action> {
    if LateOpen(r, seen) then ReserveSteps(a, c, r, seen.reservation.Reserved?) else []
  }

  function CandidateSteps(a: string, c: Candidate, r: Readings, cooling: bool, seen: Seen): seq<R.Action> {
    if MayReserve(c, r, cooling, seen) then ReserveSteps(a, c, r, seen.reservation.Reserved?) else []
  }

  /** The steps of a reserved call, literally: one start for the candidate's key, one call, one record. */
  lemma StepsOfACall(a: string, c: Candidate, r: Readings)
    ensures var key, window, allowed := R.Key(c.orgId, r.executionKey), r.policy.throttleWindowMs, r.tenantLimit.None?;
            && ReserveSteps(a, c, r, false) == [R.Decide(a, key, window), R.Reserve(a, allowed)]
            && (r.execution.Succeeds? ==>
                  ReserveSteps(a, c, r, true) ==
                  [R.Decide(a, key, window), R.Reserve(a, allowed), R.Execute(a, true), R.Record(a)])
            && (r.execution.RecordFails? ==>
                  ReserveSteps(a, c, r, true) ==
                  [R.Decide(a, key, window), R.Reserve(a, allowed), R.Execute(a, true), R.RecordThrows(a), R.Record(a)])
            && (r.execution.Fails? ==>
                  ReserveSteps(a, c, r, true) ==
                  [R.Decide(a, key, window), R.Reserve(a, allowed), R.Execute(a, false), R.Record(a)])
  {}

  ghost predicate AllOthersOnly(readings: seq<Readings>, a: string) {
    forall k :: 0 <= k < |readings| ==> OthersOnly(readings[k], a)
  }

  /** Every candidate of every organisation has its readings, in the order the candidates are due. */
  predicate ForAllOf(orgs: seq<seq<Candidate>>, readings: seq<seq<Readings>>) {
    |readings| == |orgs| && forall n :: 0 <= n < |orgs| ==> |readings[n]| == |orgs[n]|
  }

  ghost predicate OthersOnly(r: Readings, a: string) {
    forall k: nat, act :: act in r.others(k) ==> W.Actor(act) != Some(a)
  }

  /** The verdict on a candidate, from its readings and what the timeline said. */
  function VerdictOf(c: Candidate, r: Readings, cooling: bool, seen: Seen): Verdict {
    if !r.contextValid then Failed
    else match FirstRefusal(c, r, cooling, seen)
      case Some(refusal) => refusal.verdict
      case None =>
        if r.execution.Succeeds? then Executed
        else if ExpectedReason(r.execution.message).Some? then Blocked
        else Failed
  }

  // ---------------------------------------------------------------- what the gates let through

  /** The flag of the policy that belongs to the action, action by action. */
  predicate FlagIsSet(c: Candidate, p: Policy) {
    && (c.actionId.GenerateCharge? ==> p.allowAutomaticCharge)
    && (c.actionId.NotifyFinanceTeam? ==> p.allowFinanceTeamNotifications)
    && (c.actionId.MarkOperationalAttention? ==> p.allowGovernanceFollowup)
    && (c.actionId.CreateChargeFollowup? ==> p.allowChargeFollowupCreation)
    && (c.actionId.EscalateRiskReview? ==> p.allowRiskReviewEscalation)
  }

  /** An alert needs three overdue charges or eight stalled orders, the attention mark ten stalled orders. */
  predicate OverThreshold(c: Candidate) {
    && (c.actionId.NotifyOperationalAlert? ==> c.overdueCount >= 3 || c.stalledServiceOrders >= 8)
    && (c.actionId.MarkOperationalAttention? ==> c.stalledServiceOrders >= 10)
  }

  /**
   The action is called exactly when the mode is automatic, nothing cools down, the flag of this
   very action is set, the amount is at most 500,000 cents, governance blocks nothing, the
   thresholds are met, nothing recent is on the timeline, retries are left, plan and metering
   allow it, and a start was reserved.
   */
  lemma MayExecuteExactly(c: Candidate, r: Readings, cooling: bool, seen: Seen)
    ensures MayExecute(c, r, cooling, seen) <==>
              && r.contextValid && !cooling && r.mode == Automatic
              && FlagIsSet(c, r.policy)
              && c.amountCents <= 500_000 && !c.blockedByGovernance && OverThreshold(c)
              && !seen.already && r.failureCount < r.policy.maxRetries
              && r.featureBlocked.None? && r.meterBlocked.None?
              && seen.reservation == Reserved
  {}

  predicate RefusedAs(c: Candidate, r: Readings, cooling: bool, seen: Seen, v: Verdict, reason: string) {
    FirstRefusal(c, r, cooling, seen) == Some(Refusal(v, reason))
  }

  /** The reasons of cooldown, mode and policy. */
  lemma EarlyReasons(c: Candidate, r: Readings, cooling: bool, seen: Seen)
    ensures cooling ==> RefusedAs(c, r, cooling, seen, BlockedRecent, "blocked_recent_execution")
    ensures !cooling && r.mode == Manual ==>
              RefusedAs(c, r, cooling, seen, Blocked, "mode_manual_explicit_configuration")
    ensures !cooling && r.mode == SemiAutomatic ==>
              RefusedAs(c, r, cooling, seen, RequiresConfirmation, "mode_semi_automatic_requires_confirmation")
    ensures !cooling && r.mode == Automatic && !FlagIsSet(c, r.policy) ==>
              && (c.actionId.GenerateCharge? ==>
                    RefusedAs(c, r, cooling, seen, Blocked, "policy_automatic_charge_disabled"))
              && (c.actionId.NotifyFinanceTeam? ==>
                    RefusedAs(c, r, cooling, seen, Blocked, "policy_finance_team_notification_disabled"))
              && (c.actionId.MarkOperationalAttention? ==>
                    RefusedAs(c, r, cooling, seen, Blocked, "policy_operational_attention_disabled"))
              && (c.actionId.CreateChargeFollowup? ==>
                    RefusedAs(c, r, cooling, seen, Blocked, "policy_charge_followup_creation_disabled"))
              && (c.actionId.EscalateRiskReview? ==>
                    RefusedAs(c, r, cooling, seen, Blocked, "policy_risk_review_escalation_disabled"))
  {}

  /** Past the policy: amount, block and threshold, in this order. */
  lemma GovernanceReasons(c: Candidate, r: Readings, seen: Seen)
    requires r.mode == Automatic && FlagIsSet(c, r.policy)
    ensures c.amountCents > 500_000 ==>
              RefusedAs(c, r, false, seen, RequiresConfirmation, "governance_high_amount_requires_approval")
    ensures c.amountCents <= 500_000 && c.blockedByGovernance ==>
              RefusedAs(c, r, false, seen, Blocked, "governance_blocked_candidate")
    ensures c.amountCents <= 500_000 && !c.blockedByGovernance && !OverThreshold(c) ==>
              && (c.actionId.NotifyOperationalAlert? ==>
                    RefusedAs(c, r, false, seen, Blocked, "governance_alert_threshold_not_reached"))
              && (c.actionId.MarkOperationalAttention? ==>
                    RefusedAs(c, r, false, seen, Blocked, "governance_operational_attention_threshold_not_reached"))
  {}

  /** Past governance: the timeline, the retries, the plan, the meter, and the timeline again under the lock. */
  lemma LateReasons(c: Candidate, r: Readings, seen: Seen)
    requires r.mode == Automatic && FlagIsSet(c, r.policy)
    requires c.amountCents <= 500_000 && !c.blockedByGovernance && OverThreshold(c)
    ensures var retries, feature, meter := r.failureCount >= r.policy.maxRetries, r.featureBlocked, r.meterBlocked;
            && (seen.already ==> RefusedAs(c, r, false, seen, BlockedRecent, "blocked_recent_execution"))
            && (!seen.already && retries ==> RefusedAs(c, r, false, seen, Throttled, "retry_limit_reached"))
            && (!seen.already && !retries && feature.Some? ==>
                  RefusedAs(c, r, false, seen, Blocked, feature.value))
            && (!seen.already && !retries && feature.None? && meter.Some? ==>
                  RefusedAs(c, r, false, seen, Blocked, meter.value))
            && (!seen.already && !retries && feature.None? && meter.None? ==>
                  && (seen.reservation == Recent ==>
                        RefusedAs(c, r, false, seen, BlockedRecent, "blocked_recent_execution"))
                  && (seen.reservation == TenantLimit && r.tenantLimit.Some? ==>
                        RefusedAs(c, r, false, seen, Throttled, r.tenantLimit.value))
                  && (seen.reservation == Reserved ==> FirstRefusal(c, r, false, seen).None?))
  {}

  /** The verdict on a call: Executed if it succeeded, Blocked with a reason for six known errors, Failed otherwise. */
  lemma CallVerdicts(c: Candidate, r: Readings, seen: Seen, message: string)
    requires r.contextValid && FirstRefusal(c, r, false, seen).None?
    ensures r.execution == Succeeds ==> VerdictOf(c, r, false, seen) == Executed
    ensures r.execution in [RecordFails(message), Fails(message)] ==>
              VerdictOf(c, r, false, seen) == if ExpectedReason(message).Some? then Blocked else Failed
    ensures message == "charge_followup_already_exists" ==>
              ExpectedReason(message) == Some("charge_followup_already_exists")
    ensures message == "charge_not_eligible_for_payment_link" ==> ExpectedReason(message) == Some("no_valid_phone")
    ensures message == "charge_not_eligible_for_overdue_reminder" ==>
              ExpectedReason(message) == Some("already_sent_recently")
    ensures message == "charge_not_eligible_for_followup" ==> ExpectedReason(message) == Some("already_paid")
    ensures message == "charge_not_overdue_enough_for_followup" ==>
              ExpectedReason(message) == Some("blocked_recent_execution")
    ensures message == "risk_review_already_escalated_recently" ==>
              ExpectedReason(message) == Some("already_sent_recently")
    ensures ExpectedReason(message).None? <==>
              message !in ["charge_followup_already_exists", "charge_not_eligible_for_payment_link",
                           "charge_not_eligible_for_overdue_reminder", "charge_not_eligible_for_followup",
                           "charge_not_overdue_enough_for_followup", "risk_review_already_escalated_recently"]
  {}

  // ---------------------------------------------------------------- counters

  type Counters = map<string, nat>

  function Count(m: Counters, reason: string): nat { if reason in m then m[reason] else 0 }

  /** The counters are the tally of these reasons. */
  ghost predicate Tallies(m: Counters, reasons: multiset<string>) {
    forall r :: Count(m, r) == reasons[r]
  }

  ghost function Total(m: Counters): nat {
    if m == map[] then 0 else var k :| k in m; m[k] + Total(m - {k})
  }

  /** Counters that tally some reasons add up to their number. */
  lemma {:induction false} TallyTotal(m: Counters, reasons: multiset<string>)
    requires Tallies(m, reasons)
    ensures Total(m) == |reasons|
    decreases |m|
  {
    if m == map[] {
      assert forall r :: reasons[r] == Count(m, r);
      assert reasons == multiset{};
    } else {
      var k :| k in m && Total(m) == m[k] + Total(m - {k});
      var rest := reasons[k := 0];
      forall r ensures Count(m - {k}, r) == rest[r] { assert Count(m, r) == reasons[r]; }
      TallyTotal(m - {k}, rest);
      assert reasons == rest[k := m[k]];
    }
  }

  // ---------------------------------------------------------------- the runner

  datatype CooldownKey = CooldownKey(orgId: string, decisionId: string, actionId: ActionId, entityId: string)

  function KeyOf(c: Candidate): CooldownKey { CooldownKey(c.orgId, c.decisionId, c.actionId, c.entityId) }

  datatype Cycle = Cycle(
    delayed: bool, totalCandidates: nat, executed: nat, blocked: nat, blockedRecent: nat, failed: nat)

  /** A candidate cools down together with those of the same organisation, decision, action and entity. */
  lemma CooldownIsPerCandidate(c: Candidate, d: Candidate)
    ensures KeyOf(c) == KeyOf(d) <==>
              c.orgId == d.orgId && c.decisionId == d.decisionId && c.actionId == d.actionId && c.entityId == d.entityId
  {}

  /** One of the verdicts the gates allow; an override means that nothing cools down. */
  ghost predicate Answered(c: Candidate, r: Readings, overrideCooldown: bool, v: Verdict) {
    exists cooling: bool, seen: Seen :: v == VerdictOf(c, r, cooling, seen) && (overrideCooldown ==> !cooling)
  }

  lemma AnsweredBy(c: Candidate, r: Readings, overrideCooldown: bool, cooling: bool, seen: Seen,
                   v: Verdict, called: bool, reason: Option<string>)
    requires overrideCooldown ==> !cooling
    requires called <==> MayExecute(c, r, cooling, seen)
    requires if r.contextValid then Coherent(r, v, called, reason) else v.Failed?
    requires r.contextValid && !called ==>
               reason.Some? && FirstRefusal(c, r, cooling, seen) == Some(Refusal(v, reason.value))
    ensures Answered(c, r, overrideCooldown, v)
  {
    if called { MayExecuteExactly(c, r, cooling, seen); }
    assert v == VerdictOf(c, r, cooling, seen);
  }

  /** Calls that succeeded and were recorded, among the steps of one instance. */
  function Successes(acts: seq<R.Action>): int {
    if acts == [] then 0
    else Successes(acts[..|acts| - 1]) + match acts[|acts| - 1]
      case Execute(_, ok) => if ok then 1 else 0
      case RecordThrows(_) => -1
      case _ => 0
  }

  lemma {:induction false} SuccessesJoin(x: seq<R.Action>, y: seq<R.Action>)
    ensures Successes(x + y) == Successes(x) + Successes(y)
    decreases |y|
  {
    if y == [] {
      assert x + y == x;
    } else {
      assert (x + y)[..|x + y| - 1] == x + y[..|y| - 1];
      SuccessesJoin(x, y[..|y| - 1]);
    }
  }

  lemma SuccessesOfTwo(a: R.Action, b: R.Action)
    ensures Successes([a, b]) == Successes([a]) + Successes([b])
  {
    assert [a, b] == [a] + [b];
    SuccessesJoin([a], [b]);
  }

  lemma CallSucceeds(a: string, execution: Execution)
    ensures Successes(CallSteps(a, execution)) == if execution.Succeeds? then 1 else 0
  {
    SuccessesOfTwo(R.Execute(a, !execution.Fails?), R.Record(a));
    if execution.RecordFails? {
      SuccessesOfTwo(R.RecordThrows(a), R.Record(a));
      SuccessesJoin([R.Execute(a, true)], [R.RecordThrows(a), R.Record(a)]);
      assert CallSteps(a, execution) == [R.Execute(a, true)] + [R.RecordThrows(a), R.Record(a)];
    }
  }

  lemma LateSuccesses(x: seq<R.Action>, a: string, c: Candidate, r: Readings, seen: Seen)
    ensures Successes(x + LateSteps(a, c, r, seen)) == Successes(x) +
              if LateOpen(r, seen) && seen.reservation.Reserved? && r.execution.Succeeds? then 1 else 0
  {
    SuccessesJoin(x, LateSteps(a, c, r, seen));
    if LateOpen(r, seen) {
      var d, e := R.Decide(a, KeyFor(c, r), r.policy.throttleWindowMs), R.Reserve(a, r.tenantLimit.None?);
      SuccessesOfTwo(d, e);
      if seen.reservation.Reserved? {
        CallSucceeds(a, r.execution);
        SuccessesJoin([d, e], CallSteps(a, r.execution));
      } else {
        assert LateSteps(a, c, r, seen) == [d, e];
      }
    }
  }

  /** Between two states a call was made for a start of this key. */
  ghost predicate NewCall(s: R.State, s': R.State, key: R.Key) {
    exists i :: |s.calls| <= i < |s'.calls| && s'.calls[i] < |s'.events| && s'.events[s'.calls[i]].key == key
                && s'.events[s'.calls[i]].kind.Started?
  }

  lemma CallIsNew(s: R.State, s': R.State, key: R.Key, start: nat)
    requires W.Grows(s, s') && R.IsStart(s, start) && s.events[start].key == key && start in s'.calls[|s.calls|..]
    ensures NewCall(s, s', key)
  {
    var k :| 0 <= k < |s'.calls[|s.calls|..]| && s'.calls[|s.calls|..][k] == start;
    assert s'.calls[|s.calls| + k] == start && s'.events[start] == s.events[start];
  }

  lemma NewCallBefore(s: R.State, mid: R.State, s': R.State, key: R.Key)
    requires W.Grows(s, mid) && NewCall(mid, s', key)
    ensures NewCall(s, s', key)
  {}

  /** What was recent once stays so in a longer timeline and a longer window. */
  lemma StaysRecent(events: seq<R.Event>, more: seq<R.Event>, key: R.Key, since: int, later: int)
    requires R.HasRecent(events, key, later) && since <= later && events <= more
    ensures R.HasRecent(more, key, since)
  {
    var e :| e in events && R.Recent(e, key, later);
    assert e in more && R.Recent(e, key, since);
  }

  lemma CallJoins(x: seq<R.Action>, a: string, execution: Execution)
    ensures execution.RecordFails? ==>
              x + [R.Execute(a, true)] + [R.RecordThrows(a)] + [R.Record(a)] == x + CallSteps(a, execution)
    ensures !execution.RecordFails? ==>
              x + [R.Execute(a, !execution.Fails?)] + [R.Record(a)] == x + CallSteps(a, execution)
  {}

  lemma CallStays(calls: seq<nat>, more: seq<nat>, n: nat, start: nat)
    requires n < |calls| && calls[|calls| - 1] == start && calls <= more
    ensures start in more[n..]
  {
    assert more[n..][|calls| - 1 - n] == start;
  }

  lemma JoinSteps(x: seq<R.Action>, a: R.Action, b: R.Action, y: seq<R.Action>)
    ensures x + [a, b] + y == x + ([a, b] + y)
  {}

  class ExecutionRunner {
    const maxExecutionsPerCycle: nat
    const cycleDelayMs: nat
    const blockedRecentCooldownMs: nat
    const instance: string
    const world: W.World
    var nextCycleAt: int
    var blockedRecentCooldownMap: map<CooldownKey, int>
    var blockedReasonCounters: Counters
    /** The reasons recorded in this cycle. */
    ghost var reasons: multiset<string>

    ghost predicate Valid()
      reads this, world, world.timeline
    {
      Tallies(blockedReasonCounters, reasons) && world.Valid() && R.PhaseOf(world.state, instance).Idle?
    }

    constructor (instance: string, world: W.World, cap: nat, cycleDelayMs: nat, cooldownMs: nat)
      requires 1 <= cap && world.Valid() && R.PhaseOf(world.state, instance).Idle?
      ensures this.instance == instance && this.world == world
      ensures maxExecutionsPerCycle == cap && this.cycleDelayMs == cycleDelayMs && blockedRecentCooldownMs == cooldownMs
      ensures nextCycleAt == 0 && blockedRecentCooldownMap == map[] && blockedReasonCounters == map[] && Valid()
    {
      this.instance, this.world := instance, world;
      reasons := multiset{};
      maxExecutionsPerCycle, this.cycleDelayMs, blockedRecentCooldownMs := cap, cycleDelayMs, cooldownMs;
      nextCycleAt, blockedRecentCooldownMap, blockedReasonCounters := 0, map[], map[];
    }

    predicate Cooling(c: Candidate, now: int)
      reads this
    {
      KeyOf(c) in blockedRecentCooldownMap && now < blockedRecentCooldownMap[KeyOf(c)]
    }

    /** The local cooldown of a candidate; an expired entry is dropped on the way. */
    method IsCandidateInRecentCooldown(c: Candidate, now: int) returns (cooling: bool)
      modifies this`blockedRecentCooldownMap
      ensures var until, key := old(blockedRecentCooldownMap), KeyOf(c);
              && (cooling <==> key in until && now < until[key])
              && blockedRecentCooldownMap == if cooling then until else until - {key}
      ensures cooling == old(Cooling(c, now)) == Cooling(c, now)
      ensures forall d :: Cooling(d, now) == old(Cooling(d, now))
    {
      var key := KeyOf(c);
      if key !in blockedRecentCooldownMap { return false; }
      if now >= blockedRecentCooldownMap[key] {
        blockedRecentCooldownMap := blockedRecentCooldownMap - {key};
        return false;
      }
      cooling := true;
    }

    /** Counts the reason of a refusal, and logs an event about it. */
    method RecordBlocked(key: R.Key, reason: string)
      requires Valid()
      modifies this`blockedReasonCounters, this`reasons, world, world.timeline
      ensures Valid() && reasons == old(reasons) + multiset{reason}
      ensures SameSteps(old(world.state), old(world.trace))
    {
      blockedReasonCounters := blockedReasonCounters[reason := Count(blockedReasonCounters, reason) + 1];
      reasons := reasons + multiset{reason};
      world.LogOther(key, instance);
    }

    /** Time has passed on the timeline, and this instance has taken no step of the protocol. */
    ghost predicate SameSteps(s: R.State, trace: seq<R.Action>)
      reads this, world
    {
      W.Grows(s, world.state) && W.Own(world.trace, instance) == W.Own(trace, instance)
    }

    /** The same, with these steps of this instance. */
    ghost predicate Stepped(s: R.State, trace: seq<R.Action>, steps: seq<R.Action>)
      reads this, world
    {
      W.Grows(s, world.state) && W.Own(world.trace, instance) == W.Own(trace, instance) + steps
    }

    /** The candidate's key was closed for the cooldown at some time between these two. */
    ghost predicate CooledAt(c: Candidate, from: int, to: int)
      reads this
    {
      && KeyOf(c) in blockedRecentCooldownMap
      && from <= blockedRecentCooldownMap[KeyOf(c)] - blockedRecentCooldownMs <= to
    }

    /**
     From the reserved start on: call the action, record the outcome, and map an error. The call
     is made once, for the start that was reserved.
     */
    method RunReserved(r: Readings) returns (v: Verdict, reason: Option<string>)
      requires Tallies(blockedReasonCounters, reasons) && world.Valid() && OthersOnly(r, instance)
      requires R.PhaseOf(world.state, instance).Reserved?
      modifies this`blockedReasonCounters, this`reasons, world, world.timeline
      ensures Valid() && Coherent(r, v, true, reason) && reasons == old(reasons) + Tallied(reason)
      ensures Stepped(old(world.state), old(world.trace), CallSteps(instance, r.execution))
      ensures old(R.PhaseOf(world.state, instance)).start in world.state.calls[|old(world.state).calls|..]
    {
      CallAndRecord(r);
      if r.execution.Succeeds? { return Executed, None; }
      reason := ExpectedReason(r.execution.message);
      if reason.None? { return Failed, None; }
      blockedReasonCounters := blockedReasonCounters[reason.value := Count(blockedReasonCounters, reason.value) + 1];
      reasons := reasons + multiset{reason.value};
      v := Blocked;
    }

    method CallAndRecord(r: Readings)
      requires world.Valid() && OthersOnly(r, instance) && R.PhaseOf(world.state, instance).Reserved?
      modifies world, world.timeline
      ensures world.Valid() && R.PhaseOf(world.state, instance).Idle?
      ensures Stepped(old(world.state), old(world.trace), CallSteps(instance, r.execution))
      ensures old(R.PhaseOf(world.state, instance)).start in world.state.calls[|old(world.state).calls|..]
    {
      ghost var before := W.Own(world.trace, instance);
      ghost var start, n := R.PhaseOf(world.state, instance).start, |world.state.calls|;
      world.Await(r.others(3), instance);
      world.Call(instance, !r.execution.Fails?);
      ghost var calls := world.state.calls;
      world.Await(r.others(4), instance);
      if r.execution.RecordFails? { world.RecordRejected(instance); }
      world.RecordOutcome(instance);
      CallStays(calls, world.state.calls, n, start);
      CallJoins(before, instance, r.execution);
    }

    /** Reserve a start under the lock; go on with the call, or turn the candidate away. */
    method ReserveAndRun(c: Candidate, r: Readings, ghost since: int)
      returns (v: Verdict, called: bool, reason: Option<string>, ghost reservation: ReservationStatus)
      requires Valid() && OthersOnly(r, instance) && since <= world.state.clock
      modifies this`blockedReasonCounters, this`reasons, this`blockedRecentCooldownMap, world, world.timeline
      ensures Valid() && called == reservation.Reserved?
      ensures Coherent(r, v, called, reason) && reasons == old(reasons) + Tallied(reason)
      ensures Stepped(old(world.state), old(world.trace), ReserveSteps(instance, c, r, called))
      ensures reservation.Recent? ==> v.BlockedRecent? && FoundRecent(c, r, since)
      ensures reservation.TenantLimit? ==> r.tenantLimit.Some? && v.Throttled? && reason == r.tenantLimit
      ensures called ==> NewCall(old(world.state), world.state, KeyFor(c, r))
    {
      ghost var before, before0 := W.Own(world.trace, instance), world.state;
      world.Await(r.others(2), instance);
      ghost var s := world.state;
      var result := world.ReserveStart(instance, KeyFor(c, r), r.policy.throttleWindowMs, r.tenantLimit.None?);
      match result
      case RecentFound =>
        reservation := Recent;
        v, called, reason := BlockedRecent, false, Some("blocked_recent_execution");
        TurnAway(c, r, since, s);
      case TenantThrottled =>
        reservation := TenantLimit;
        RecordBlocked(KeyFor(c, r), r.tenantLimit.value);
        v, called, reason := Throttled, false, r.tenantLimit;
      case ReservedStart(id) =>
        reservation, called := Reserved, true;
        s := world.state;
        v, reason := RunReserved(r);
        CallIsNew(s, world.state, KeyFor(c, r), id);
        NewCallBefore(before0, s, world.state, KeyFor(c, r));
        JoinSteps(before, R.Decide(instance, KeyFor(c, r), r.policy.throttleWindowMs),
                  R.Reserve(instance, r.tenantLimit.None?), CallSteps(instance, r.execution));
    }

    /** A candidate found executed recently: its key cools down, and the reason is counted. */
    method TurnAway(c: Candidate, r: Readings, ghost since: int, ghost s: R.State)
      requires Valid() && W.Grows(s, world.state) && since <= s.clock == world.state.clock
      requires R.HasRecent(s.events, KeyFor(c, r), s.clock - r.policy.throttleWindowMs)
      modifies this`blockedReasonCounters, this`reasons, this`blockedRecentCooldownMap, world, world.timeline
      ensures Valid() && reasons == old(reasons) + multiset{"blocked_recent_execution"}
      ensures SameSteps(old(world.state), old(world.trace))
      ensures FoundRecent(c, r, since)
      ensures blockedRecentCooldownMap ==
                old(blockedRecentCooldownMap)[KeyOf(c) := old(world.state.clock) + blockedRecentCooldownMs]
    {
      blockedRecentCooldownMap := blockedRecentCooldownMap[KeyOf(c) := world.state.clock + blockedRecentCooldownMs];
      RecordBlocked(KeyFor(c, r), "blocked_recent_execution");
      StaysRecent(s.events, world.state.events, KeyFor(c, r), since - r.policy.throttleWindowMs,
                  s.clock - r.policy.throttleWindowMs);
    }

    /** An execution of the key lies inside the window that ends at this time or later, and its candidate cools down. */
    ghost predicate FoundRecent(c: Candidate, r: Readings, from: int)
      reads this, world
    {
      && CooledAt(c, from, world.state.clock)
      && R.HasRecent(world.state.events, KeyFor(c, r), from - r.policy.throttleWindowMs)
    }

    /** The gates from the first look at the timeline on. */
    method LateGates(c: Candidate, r: Readings, ghost since: int)
      returns (v: Verdict, called: bool, reason: Option<string>, ghost seen: Seen)
      requires Valid() && OthersOnly(r, instance) && since <= world.state.clock
      modifies this`blockedReasonCounters, this`reasons, this`blockedRecentCooldownMap, world, world.timeline
      ensures Valid() && Coherent(r, v, called, reason) && reasons == old(reasons) + Tallied(reason)
      ensures seen.now == since && (called <==> LateOpen(r, seen) && seen.reservation.Reserved?)
      ensures !called ==> reason.Some? && LateRefusal(r, seen) == Some(Refusal(v, reason.value))
      ensures Stepped(old(world.state), old(world.trace), LateSteps(instance, c, r, seen))
      ensures v.BlockedRecent? ==> FoundRecent(c, r, since)
      ensures called ==> NewCall(old(world.state), world.state, KeyFor(c, r))
      ensures Successes(W.Own(world.trace, instance)) == old(Successes(W.Own(world.trace, instance))) +
                if called && r.execution.Succeeds? then 1 else 0
    {
      seen := Seen(since, false, TenantLimit);
      called, reason := false, None;
      var key := KeyFor(c, r);
      world.Await(r.others(1), instance);
      var found := world.timeline.HasRecentExecution(key, world.state.clock - r.policy.throttleWindowMs);
      seen := seen.(already := found);
      if found {
        v, reason := BlockedRecent, Some("blocked_recent_execution");
        TurnAway(c, r, since, world.state);
        LateSuccesses(old(W.Own(world.trace, instance)), instance, c, r, seen);
        return;
      }
      var refusal := LimitRefusal(r);
      if refusal.Some? {
        v, reason := refusal.value.verdict, Some(refusal.value.reason);
        RecordBlocked(key, refusal.value.reason);
        LateSuccesses(old(W.Own(world.trace, instance)), instance, c, r, seen);
        return;
      }
      ghost var reservation;
      v, called, reason, reservation := ReserveAndRun(c, r, since);
      seen := seen.(reservation := reservation);
      LateSuccesses(old(W.Own(world.trace, instance)), instance, c, r, seen);
    }

    /** The gates between the two looks at the timeline: retries, plan features and metering. */
    method LimitRefusal(r: Readings) returns (refusal: Option<Refusal>)
      ensures forall seen: Seen :: !seen.already ==> (refusal.None? <==> LateOpen(r, seen))
      ensures refusal.Some? ==> refusal.value.verdict.Throttled? || refusal.value.verdict.Blocked?
      ensures refusal.Some? ==> forall seen: Seen :: !seen.already ==> LateRefusal(r, seen) == refusal
    {
      if r.failureCount >= r.policy.maxRetries { return Some(Refusal(Throttled, "retry_limit_reached")); }
      if r.featureBlocked.Some? { return Some(Refusal(Blocked, r.featureBlocked.value)); }
      if r.meterBlocked.Some? { return Some(Refusal(Blocked, r.meterBlocked.value)); }
      refusal := None;
    }

    /**
     The gates, in the order of the program; each reads the timeline as it is when it is asked.
     The action is called exactly when every gate is open, and then for a start of its key that
     was reserved by these very steps; every verdict but Executed and Failed counts one reason,
     and those two none; a candidate found executed recently cools down.
     */
    method ProcessCandidate(c: Candidate, r: Readings, overrideCooldown: bool)
      returns (v: Verdict, called: bool, reason: Option<string>, ghost seen: Seen)
      requires Valid() && OthersOnly(r, instance)
      modifies this`blockedReasonCounters, this`reasons, this`blockedRecentCooldownMap, world, world.timeline
      ensures Valid() && old(world.state.clock) <= seen.now <= world.state.clock
      ensures var cooling := old(Cooling(c, seen.now)) && !overrideCooldown;
              && (called <==> MayExecute(c, r, cooling, seen))
              && (r.contextValid && !called ==>
                    reason.Some? && FirstRefusal(c, r, cooling, seen) == Some(Refusal(v, reason.value)))
              && Stepped(old(world.state), old(world.trace), CandidateSteps(instance, c, r, cooling, seen))
              && (v.BlockedRecent? && !cooling ==> FoundRecent(c, r, seen.now))
      ensures called ==> NewCall(old(world.state), world.state, KeyFor(c, r))
      ensures called ==>
                && r.mode == Automatic && FlagIsSet(c, r.policy)
                && c.amountCents <= 500_000 && !c.blockedByGovernance && OverThreshold(c)
      ensures if r.contextValid then Coherent(r, v, called, reason) else v.Failed? && !called && reason.None?
      ensures Successes(W.Own(world.trace, instance)) == old(Successes(W.Own(world.trace, instance))) +
                if v.Executed? then 1 else 0
      ensures reasons == old(reasons) + Tallied(reason)
    {
      called, reason := false, None;
      var key := KeyFor(c, r);
      world.Await(r.others(0), instance);
      seen := Seen(world.state.clock, false, TenantLimit);
      if !r.contextValid {
        world.LogOther(key, instance);
        v := Failed;
        return;
      }
      var cooling := IsCandidateInRecentCooldown(c, world.state.clock);
      var refusal := EarlyRefusal(c, r, cooling && !overrideCooldown);
      if refusal.Some? {
        v, reason := refusal.value.verdict, Some(refusal.value.reason);
        RecordBlocked(key, refusal.value.reason);
        return;
      }
      v, called, reason, seen := LateGates(c, r, seen.now);
    }

    /** The gates that do not ask the timeline: cooldown, mode, policy and governance. */
    method EarlyRefusal(c: Candidate, r: Readings, cooling: bool) returns (refusal: Option<Refusal>)
      ensures refusal.None? <==>
                !cooling && r.mode.Automatic? && PolicyBlock(c, r.policy).None? && Evaluate(c).Allowed?
      ensures refusal.None? ==>
                && r.mode == Automatic && FlagIsSet(c, r.policy)
                && c.amountCents <= 500_000 && !c.blockedByGovernance && OverThreshold(c)
      ensures refusal.Some? ==> CountsAReason(refusal.value.verdict)
      ensures refusal.Some? && refusal.value.verdict.BlockedRecent? ==> cooling && refusal.value == RECENT
      ensures refusal.Some? ==> forall seen: Seen :: FirstRefusal(c, r, cooling, seen) == refusal
    {
      if cooling { return Some(RECENT); }
      if r.mode.Manual? { return Some(Refusal(Blocked, "mode_manual_explicit_configuration")); }
      if r.mode.SemiAutomatic? {
        return Some(Refusal(RequiresConfirmation, "mode_semi_automatic_requires_confirmation"));
      }
      var policy := PolicyBlock(c, r.policy);
      if policy.Some? { return Some(Refusal(Blocked, policy.value)); }
      var governance := Evaluate(c);
      if governance.GovernanceBlocked? { return Some(Refusal(Blocked, governance.reason)); }
      if governance.NeedsConfirmation? { return Some(Refusal(RequiresConfirmation, governance.reason)); }
      refusal := None;
    }

    method SortCandidatesByPriority(candidates: seq<Candidate>) returns (sorted: seq<Candidate>)
      ensures sorted == ByPriority(candidates)
    {
      SortIsStable(candidates);
      sorted := Sort(candidates);
    }

    /** One candidate more: its verdict goes to one of the four counters. */
    method TakeCandidate(c: Candidate, r: Readings, overrideCooldown: bool, before: Cycle)
      returns (after: Cycle, ghost v: Verdict)
      requires Valid() && |reasons| == Blocks(before) && OthersOnly(r, instance)
      modifies this`blockedReasonCounters, this`reasons, this`blockedRecentCooldownMap, world, world.timeline
      ensures Valid() && |reasons| == Blocks(after)
      ensures CountedOne(before, after, v) && Answered(c, r, overrideCooldown, v)
      ensures after.totalCandidates == before.totalCandidates && after.delayed == before.delayed
      ensures Outcomes(after) == Outcomes(before) + 1
      ensures Successes(W.Own(world.trace, instance)) ==
              old(Successes(W.Own(world.trace, instance))) + (after.executed - before.executed)
    {
      var verdict, called, reason, seen := ProcessCandidate(c, r, overrideCooldown);
      AnsweredBy(c, r, overrideCooldown, old(Cooling(c, seen.now)) && !overrideCooldown, seen, verdict, called, reason);
      v := verdict;
      match verdict
      case Executed => after := before.(executed := before.executed + 1);
      case Failed => after := before.(failed := before.failed + 1);
      case BlockedRecent => after := before.(blockedRecent := before.blockedRecent + 1);
      case _ => after := before.(blocked := before.blocked + 1);
    }

    /** The candidates of one organisation, until they or the cap run out. */
    method RunOrganization(sorted: seq<Candidate>, readings: seq<Readings>, overrideCooldown: bool, before: Cycle)
      returns (after: Cycle, processed: seq<Candidate>, ghost verdicts: seq<Verdict>)
      requires before.executed <= maxExecutionsPerCycle
      requires |sorted| <= |readings| && AllOthersOnly(readings, instance)
      requires Valid() && |reasons| == Blocks(before)
      modifies this`blockedReasonCounters, this`reasons, this`blockedRecentCooldownMap, world, world.timeline
      ensures Prefix(processed, sorted)
      ensures after.executed == maxExecutionsPerCycle || processed == sorted
      ensures before.executed <= after.executed <= maxExecutionsPerCycle
      ensures after.totalCandidates == before.totalCandidates + |sorted| && after.delayed == before.delayed
      ensures Outcomes(after) == Outcomes(before) + |processed|
      ensures Counted(before, after, verdicts)
      ensures AllAnswered(processed, readings, overrideCooldown, verdicts)
      ensures Valid() && |reasons| == Blocks(after)
      ensures Successes(W.Own(world.trace, instance)) ==
              old(Successes(W.Own(world.trace, instance))) + (after.executed - before.executed)
    {
      verdicts := [];
      after := before.(totalCandidates := before.totalCandidates + |sorted|);
      var i := 0;
      while i < |sorted| && after.executed < maxExecutionsPerCycle
        invariant 0 <= i <= |sorted| && before.executed <= after.executed <= maxExecutionsPerCycle
        invariant after.totalCandidates == before.totalCandidates + |sorted| && after.delayed == before.delayed
        invariant Valid() && |reasons| == Blocks(after)
        invariant Outcomes(after) == Outcomes(before) + i
        invariant Counted(before, after, verdicts)
        invariant AllAnswered(sorted[..i], readings, overrideCooldown, verdicts)
        invariant Successes(W.Own(world.trace, instance)) ==
                  old(Successes(W.Own(world.trace, instance))) + (after.executed - before.executed)
      {
        ghost var mid := after;
        ghost var v;
        after, v := TakeCandidate(sorted[i], readings[i], overrideCooldown, after);
        CountedOneMore(before, mid, after, verdicts, v);
        AllAnsweredOneMore(sorted, i, readings, overrideCooldown, verdicts, v);
        verdicts := verdicts + [v];
        i := i + 1;
      }
      processed := sorted[..i];
    }

    /**
     One cycle. What was processed is, organisation by organisation, a prefix of the candidates
     in stable priority order; only the last one may be cut short, and only by the cap.
     */
    method RunOnce(orgs: seq<seq<Candidate>>, readings: seq<seq<Readings>>, overrideCooldown: bool)
      returns (c: Cycle, processed: seq<seq<Candidate>>, ghost verdicts: seq<seq<Verdict>>)
      requires 1 <= maxExecutionsPerCycle && world.Valid() && R.PhaseOf(world.state, instance).Idle?
      requires ForAllOf(orgs, readings) && forall n :: 0 <= n < |orgs| ==> AllOthersOnly(readings[n], instance)
      modifies this, world, world.timeline
      ensures c.delayed <==> old(world.state.clock) < old(nextCycleAt)
      ensures c.delayed ==> c == Cycle(true, 0, 0, 0, 0, 0) && processed == [] && nextCycleAt == old(nextCycleAt)
      ensures !c.delayed ==> nextCycleAt == world.state.clock + cycleDelayMs
      ensures c.executed <= maxExecutionsPerCycle
      ensures Valid() && |reasons| == Blocks(c)
      ensures Outcomes(c) == Lengths(processed) <= c.totalCandidates
      ensures InOrder(Wanted(orgs), processed)
      ensures Accounted(c, processed, readings, overrideCooldown, verdicts)
      ensures Successes(W.Own(world.trace, instance)) == old(Successes(W.Own(world.trace, instance))) + c.executed
      ensures !c.delayed && c.executed < maxExecutionsPerCycle ==>
                processed == Wanted(orgs) && Outcomes(c) == c.totalCandidates
    {
      var wanted := Wanted(orgs);
      blockedReasonCounters, reasons := map[], multiset{};
      c, processed := Cycle(false, 0, 0, 0, 0, 0), [];
      verdicts := MidwayNone(c, maxExecutionsPerCycle, wanted, readings, overrideCooldown);
      if world.state.clock < nextCycleAt { return c.(delayed := true), [], verdicts; }
      var i := 0;
      while i < |orgs| && c.executed < maxExecutionsPerCycle
        invariant 0 <= i <= |orgs| && c.executed <= maxExecutionsPerCycle
        invariant Valid() && |reasons| == Blocks(c)
        invariant Midway(c, maxExecutionsPerCycle, wanted, i, processed, readings, overrideCooldown, verdicts)
        invariant Successes(W.Own(world.trace, instance)) == old(Successes(W.Own(world.trace, instance))) + c.executed
      {
        var sorted := SortCandidatesByPriority(orgs[i]);
        SortKeepsLength(orgs[i]);
        var after, done, answers := RunOrganization(sorted, readings[i], overrideCooldown, c);
        MidwayOneMore(c, after, maxExecutionsPerCycle, wanted, processed, done, readings, overrideCooldown,
                      verdicts, answers);
        c, processed, verdicts := after, processed + [done], verdicts + [answers];
        i := i + 1;
      }
      assert wanted[..|wanted|] == wanted;
      nextCycleAt := world.state.clock + cycleDelayMs;
    }
  }

  /** Where a cycle stands after some organisations. */
  ghost predicate Midway(c: Cycle, cap: nat, wanted: seq<seq<Candidate>>, i: nat, processed: seq<seq<Candidate>>,
                         readings: seq<seq<Readings>>, overrideCooldown: bool, verdicts: seq<seq<Verdict>>)
  {
    && |processed| == i <= |wanted| && !c.delayed
    && Outcomes(c) == Lengths(processed) <= c.totalCandidates
    && InOrder(wanted, processed)
    && (c.executed < cap ==> Outcomes(c) == c.totalCandidates && processed == wanted[..i])
    && Accounted(c, processed, readings, overrideCooldown, verdicts)
  }

  lemma MidwayNone(c: Cycle, cap: nat, wanted: seq<seq<Candidate>>, readings: seq<seq<Readings>>,
                   overrideCooldown: bool)
    returns (verdicts: seq<seq<Verdict>>)
    requires c == Cycle(false, 0, 0, 0, 0, 0)
    ensures |verdicts| == 0 && Midway(c, cap, wanted, 0, [], readings, overrideCooldown, verdicts)
  {
    verdicts := [];
  }

  lemma MidwayOneMore(before: Cycle, after: Cycle, cap: nat, wanted: seq<seq<Candidate>>,
                      processed: seq<seq<Candidate>>, done: seq<Candidate>, readings: seq<seq<Readings>>,
                      overrideCooldown: bool, verdicts: seq<seq<Verdict>>, answers: seq<Verdict>)
    requires Midway(before, cap, wanted, |processed|, processed, readings, overrideCooldown, verdicts)
    requires |processed| < |wanted| && before.executed < cap && Prefix(done, wanted[|processed|])
    requires after.executed == cap || done == wanted[|processed|]
    requires after.totalCandidates == before.totalCandidates + |wanted[|processed|]| && after.delayed == before.delayed
    requires Outcomes(after) == Outcomes(before) + |done| && Counted(before, after, answers)
    requires |processed| < |readings| && AllAnswered(done, readings[|processed|], overrideCooldown, answers)
    ensures Midway(after, cap, wanted, |processed| + 1, processed + [done], readings, overrideCooldown,
                   verdicts + [answers])
  {
    OneMore(wanted, processed, done);
    AccountedOneMore(before, after, processed, done, readings, overrideCooldown, verdicts, answers);
  }

  lemma {:induction false} SortKeepsLength(cs: seq<Candidate>)
    ensures |ByPriority(cs)| == |cs|
  {
    if cs != [] { SortKeepsLength(cs[1..]); }
  }

  /** Each organisation's candidates in the order they are due. */
  function Wanted(orgs: seq<seq<Candidate>>): (w: seq<seq<Candidate>>)
    ensures |w| == |orgs| && forall i :: 0 <= i < |orgs| ==> w[i] == ByPriority(orgs[i])
  {
    seq(|orgs|, i requires 0 <= i < |orgs| => ByPriority(orgs[i]))
  }

  predicate Prefix(a: seq<Candidate>, b: seq<Candidate>) { a <= b }

  /** Organisation by organisation a prefix of what is wanted, and only the last one cut short. */
  predicate InOrder(wanted: seq<seq<Candidate>>, processed: seq<seq<Candidate>>) {
    && |processed| <= |wanted|
    && (forall i :: 0 <= i < |processed| ==> Prefix(processed[i], wanted[i]))
    && (forall i :: 0 <= i < |processed| - 1 ==> processed[i] == wanted[i])
  }

  lemma InOrderOneMore(wanted: seq<seq<Candidate>>, processed: seq<seq<Candidate>>, done: seq<Candidate>,
                       all: seq<seq<Candidate>>)
    requires |processed| < |wanted| && Prefix(done, wanted[|processed|])
    requires forall i :: 0 <= i < |processed| ==> processed[i] == wanted[i]
    requires all == processed + [done]
    ensures InOrder(wanted, all)
  {}

  lemma TakeOneMore(wanted: seq<seq<Candidate>>, n: nat)
    requires n < |wanted|
    ensures wanted[..n + 1] == wanted[..n] + [wanted[n]]
  {}

  lemma TakenAre(wanted: seq<seq<Candidate>>, processed: seq<seq<Candidate>>)
    requires |processed| <= |wanted| && processed == wanted[..|processed|]
    ensures forall i :: 0 <= i < |processed| ==> processed[i] == wanted[i]
  {}

  lemma OneMore(wanted: seq<seq<Candidate>>, processed: seq<seq<Candidate>>, done: seq<Candidate>)
    requires |processed| < |wanted| && processed == wanted[..|processed|] && Prefix(done, wanted[|processed|])
    ensures InOrder(wanted, processed + [done])
    ensures done == wanted[|processed|] ==> processed + [done] == wanted[..|processed| + 1]
    ensures Lengths(processed + [done]) == Lengths(processed) + |done|
  {
    LengthsOfOneMore(processed, done);
    TakenAre(wanted, processed);
    TakeOneMore(wanted, |processed|);
    InOrderOneMore(wanted, processed, done, processed + [done]);
  }

  lemma LengthsOfOneMore(processed: seq<seq<Candidate>>, done: seq<Candidate>)
    ensures Lengths(processed + [done]) == Lengths(processed) + |done|
  {
    assert (processed + [done])[..|processed|] == processed;
  }

  /** The counters have moved by these verdicts. */
  predicate Counted(before: Cycle, after: Cycle, verdicts: seq<Verdict>) {
    && after.executed == before.executed + Times(verdicts, {Executed})
    && after.failed == before.failed + Times(verdicts, {Failed})
    && after.blockedRecent == before.blockedRecent + Times(verdicts, {BlockedRecent})
    && after.blocked == before.blocked + Times(verdicts, {Blocked, RequiresConfirmation, Throttled})
  }

  /** How often one of these verdicts was given. */
  function Times(verdicts: seq<Verdict>, these: set<Verdict>): nat {
    if verdicts == [] then 0
    else Times(verdicts[..|verdicts| - 1], these) + if verdicts[|verdicts| - 1] in these then 1 else 0
  }

  lemma TimesOneMore(verdicts: seq<Verdict>, last: Verdict, these: set<Verdict>)
    ensures Times(verdicts + [last], these) == Times(verdicts, these) + if last in these then 1 else 0
  {
    assert (verdicts + [last])[..|verdicts|] == verdicts;
  }

  /** One candidate more, one counter up. */
  predicate CountedOne(before: Cycle, after: Cycle, v: Verdict) {
    && after.executed == before.executed + (if v == Executed then 1 else 0)
    && after.failed == before.failed + (if v == Failed then 1 else 0)
    && after.blockedRecent == before.blockedRecent + (if v == BlockedRecent then 1 else 0)
    && after.blocked == before.blocked + if v == Blocked || v == RequiresConfirmation || v == Throttled then 1 else 0
  }

  lemma CountedOneMore(before: Cycle, mid: Cycle, after: Cycle, verdicts: seq<Verdict>, v: Verdict)
    requires Counted(before, mid, verdicts) && CountedOne(mid, after, v)
    ensures Counted(before, after, verdicts + [v])
  {
    TimesOneMore(verdicts, v, {Executed});
    TimesOneMore(verdicts, v, {Failed});
    TimesOneMore(verdicts, v, {BlockedRecent});
    TimesOneMore(verdicts, v, {Blocked, RequiresConfirmation, Throttled});
  }

  /** Candidate by candidate a verdict its readings allow. */
  ghost predicate AllAnswered(cs: seq<Candidate>, readings: seq<Readings>, overrideCooldown: bool,
                              verdicts: seq<Verdict>)
  {
    && |verdicts| == |cs| <= |readings|
    && forall k :: 0 <= k < |cs| ==> Answered(cs[k], readings[k], overrideCooldown, verdicts[k])
  }

  lemma AllAnsweredOneMore(cs: seq<Candidate>, i: nat, readings: seq<Readings>, overrideCooldown: bool,
                           verdicts: seq<Verdict>, v: Verdict)
    requires i < |cs| <= |readings| && AllAnswered(cs[..i], readings, overrideCooldown, verdicts)
    requires Answered(cs[i], readings[i], overrideCooldown, v)
    ensures AllAnswered(cs[..i + 1], readings, overrideCooldown, verdicts + [v])
  {}

  /** How often one of these verdicts was given in the first n organisations. */
  function Given(verdicts: seq<seq<Verdict>>, n: nat, these: set<Verdict>): nat
    requires n <= |verdicts|
    decreases n
  {
    if n == 0 then 0 else Given(verdicts, n - 1, these) + Times(verdicts[n - 1], these)
  }

  lemma {:induction false} GivenBefore(verdicts: seq<seq<Verdict>>, last: seq<Verdict>, n: nat, these: set<Verdict>)
    requires n <= |verdicts|
    ensures Given(verdicts + [last], n, these) == Given(verdicts, n, these)
  {
    if n > 0 { GivenBefore(verdicts, last, n - 1, these); }
  }

  lemma GivenOneMore(verdicts: seq<seq<Verdict>>, last: seq<Verdict>, these: set<Verdict>)
    ensures Given(verdicts + [last], |verdicts| + 1, these) == Given(verdicts, |verdicts|, these) + Times(last, these)
  {
    GivenBefore(verdicts, last, |verdicts|, these);
  }

  /** The counters of a cycle are the numbers of its verdicts, which are those of its candidates. */
  ghost predicate Accounted(c: Cycle, processed: seq<seq<Candidate>>, readings: seq<seq<Readings>>,
                            overrideCooldown: bool, verdicts: seq<seq<Verdict>>)
  {
    && |verdicts| == |processed| <= |readings|
    && (forall n :: 0 <= n < |processed| ==>
          AllAnswered(processed[n], readings[n], overrideCooldown, verdicts[n]))
    && c.executed == Given(verdicts, |verdicts|, {Executed})
    && c.failed == Given(verdicts, |verdicts|, {Failed})
    && c.blockedRecent == Given(verdicts, |verdicts|, {BlockedRecent})
    && c.blocked == Given(verdicts, |verdicts|, {Blocked, RequiresConfirmation, Throttled})
  }

  lemma AccountedOneMore(before: Cycle, after: Cycle, processed: seq<seq<Candidate>>, done: seq<Candidate>,
                         readings: seq<seq<Readings>>, overrideCooldown: bool,
                         verdicts: seq<seq<Verdict>>, answers: seq<Verdict>)
    requires Accounted(before, processed, readings, overrideCooldown, verdicts)
    requires |processed| < |readings| && AllAnswered(done, readings[|processed|], overrideCooldown, answers)
    requires Counted(before, after, answers)
    ensures Accounted(after, processed + [done], readings, overrideCooldown, verdicts + [answers])
  {
    GivenOneMore(verdicts, answers, {Executed});
    GivenOneMore(verdicts, answers, {Failed});
    GivenOneMore(verdicts, answers, {BlockedRecent});
    GivenOneMore(verdicts, answers, {Blocked, RequiresConfirmation, Throttled});
  }

  /** Candidates turned away, for whatever reason. */
  function Blocks(c: Cycle): nat { c.blocked + c.blockedRecent }

  function Outcomes(c: Cycle): nat { c.executed + c.blocked + c.blockedRecent + c.failed }

  function Lengths(s: seq<seq<Candidate>>): nat {
    if s == [] then 0 else Lengths(s[..|s| - 1]) + |s[|s| - 1]|
  }
}
