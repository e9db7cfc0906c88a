/**
  The entities of the case workflow and the pure rules on them: status transitions, the
  name of an escalated lead department, and when a routing rule is active and matches.
  Times are integers. A Go zero time is `None` wherever the source tests for it.
 */
module Domain {

  datatype Option<+T> = None | Some(value: T)

  datatype Error =
    | NotFound
    | Validation
    | InvalidTransition
    | NoMatchingRule
    | AlreadyCompleted
    | MaxEscalationReached
    | StoreFailure

  datatype Result<+T> = Ok(value: T) | Err(error: Error)

  type Time = int

  // ---------------------------------------------------------------- 64-bit durations

  const INT64_MAX := 0x7fff_ffff_ffff_ffff
  const TWO_TO_THE_64 := 0x1_0000_0000_0000_0000

  predicate Int64(x: int) {
    -INT64_MAX - 1 <= x <= INT64_MAX
  }

  /** The int64 that `x` becomes. */
  function Wrap64(x: int): (w: int)
    ensures Int64(w) && (Int64(x) ==> w == x)
  {
    (x + INT64_MAX + 1) % TWO_TO_THE_64 - INT64_MAX - 1
  }

  lemma WrapIsIdentity(x: int)
    ensures Wrap64(x) == x <==> Int64(x)
  {
  }

  /** A negative product wraps, if at all, upwards. */
  lemma WrapMovesUp(x: int)
    requires x <= INT64_MAX
    ensures x <= Wrap64(x)
  {
  }

  lemma SubsetSize<T>(a: set<T>, b: set<T>)
    requires a <= b
    ensures |a| <= |b|
  {
    assert b == a + (b - a);
  }

  // ---------------------------------------------------------------- numbers as text

  function Digit(d: nat): (c: char)
    requires d < 10
  {
    ('0' as int + d) as char
  }

  /** Decimal digits of a non-negative number. */
  function Decimal(n: nat): (s: string)
    ensures |s| > 0
    ensures forall i :: 0 <= i < |s| ==> '0' <= s[i] <= '9'
  {
    if n < 10 then [Digit(n)] else Decimal(n / 10) + [Digit(n % 10)]
  }

  /** fmt's %d and strconv.Itoa. */
  function IntText(n: int): (s: string) {
    if n < 0 then "-" + Decimal(-n) else Decimal(n)
  }

  function DigitPrefix(s: string): (p: string)
    ensures forall i :: 0 <= i < |p| ==> '0' <= p[i] <= '9'
  {
    if s == "" || !('0' <= s[0] <= '9') then "" else [s[0]] + DigitPrefix(s[1..])
  }

  function DigitsValue(s: string): nat
    requires forall i :: 0 <= i < |s| ==> '0' <= s[i] <= '9'
  {
    if s == "" then 0
    else DigitsValue(s[..|s| - 1]) * 10 + (s[|s| - 1] as int - '0' as int)
  }

  /** SQLite's CAST(text AS INTEGER): the value of the longest prefix of digits. */
  function CastInteger(s: string): nat {
    DigitsValue(DigitPrefix(s))
  }

  lemma {:induction false} DigitPrefixOfDigits(s: string)
    requires forall i :: 0 <= i < |s| ==> '0' <= s[i] <= '9'
    ensures DigitPrefix(s) == s
  {
    if s != "" {
      DigitPrefixOfDigits(s[1..]);
    }
  }

  lemma {:induction false} DecimalValue(n: nat)
    ensures DigitsValue(Decimal(n)) == n
  {
    if n < 10 {
      assert DigitsValue("") == 0;
      assert Decimal(n)[..0] == "";
    } else {
      DecimalValue(n / 10);
      assert Decimal(n)[..|Decimal(n)| - 1] == Decimal(n / 10);
    }
  }

  /** A rule version written into an audit entry reads back as that version. */
  lemma CastDecimal(n: nat)
    ensures CastInteger(Decimal(n)) == n
  {
    DigitPrefixOfDigits(Decimal(n));
    DecimalValue(n);
  }

  // ---------------------------------------------------------------- case status

  datatype Status = Registered | Adjudicated | InProgress | Returned | Escalated | Completed | Cancelled

  predicate IsTerminal(s: Status) {
    s == Completed || s == Cancelled
  }

  function AllowedFrom(s: Status): seq<Status> {
    match s
    case Registered => [Adjudicated, Cancelled, Returned]
    case Adjudicated => [InProgress, Cancelled, Returned, Escalated]
    case InProgress => [Completed, Cancelled, Escalated]
    case Returned => [Registered, Cancelled]
    case Escalated => [InProgress, Completed, Cancelled]
    case Completed => []
    case Cancelled => []
  }

  predicate CanTransition(from: Status, to: Status) {
    to in AllowedFrom(from)
  }

  /** Staying in the same status is accepted. */
  predicate ValidTransition(from: Status, to: Status) {
    from == to || CanTransition(from, to)
  }

  // ---------------------------------------------------------------- entities

  datatype Case = Case(
    id: string, externalRef: string, title: string, description: string,
    operatorName: string, operatorContact: string, materials: seq<string>,
    category: string, keywords: seq<string>, status: Status,
    lead: string, co: seq<string>, ruleVersion: int,
    registeredAt: Time, registeredBy: string, deadline: Time, level: int, storeId: string,
    completedAt: Option<Time>, cancelledAt: Option<Time>, cancelReason: string,
    createdAt: Time, updatedAt: Time)

  function TransitionTo(c: Case, to: Status): Option<Case> {
    if ValidTransition(c.status, to) then Some(c.(status := to)) else None
  }

  datatype Referral = Referral(
    id: string, itemId: string, lead: string, co: seq<string>, ruleVersion: int,
    adjudicatedAt: Time, adjudicatedBy: string, isCurrent: bool)

  datatype Escalation = Escalation(
    id: string, itemId: string, fromLevel: int, toLevel: int, oldLead: string, newLead: string,
    escalatedAt: Time, reason: string, newDeadline: Time)

  datatype AuditEntry = AuditEntry(
    id: string, entityId: string, entityType: string, action: string, actor: string,
    timestamp: Time, details: string)

  datatype FailureStatus = ActiveFailure | Retried | Resolved

  datatype PermanentFailure = PermanentFailure(
    id: string, entityType: string, entityId: string, taskType: string, lastError: string,
    attempts: int, firstFailedAt: Time, lastFailedAt: Time, status: FailureStatus,
    resolvedAt: Option<Time>, nextRetryAt: Option<Time>, backoffState: string)

  datatype ImportBatch = ImportBatch(
    id: string, storeId: string, batchDate: Time, totalRows: int, successCount: int,
    failureCount: int, importedAt: Time)

  datatype RuleStatus = Draft | Active | Superseded

  datatype Rule = Rule(
    version: int, name: string, description: string, matchKeywords: seq<string>,
    matchCategory: string, lead: string, co: seq<string>, priority: int, isDefault: bool,
    effectiveFrom: Time, effectiveTo: Option<Time>, status: RuleStatus,
    createdAt: Time, createdBy: string)

  const SUPERSEDE_ACTION := "supersede_rule"

  /** The audit entry by which a rebuild recognises that rule `version` was superseded. */
  predicate SupersedesRule(a: AuditEntry, version: int) {
    a.action == SUPERSEDE_ACTION && a.entityType == "rule" && CastInteger(a.entityId) == version
  }

  // ---------------------------------------------------------------- escalated leads

  function EscalationDepartmentName(base: string, level: int): string {
    if level <= 0 then base else base + "-supervisor-l" + Decimal(level)
  }

  /** The lead after escalating `base` through levels 1, 2, .., level. */
  function EscalatedLead(base: string, level: nat): string {
    if level == 0 then base
    else EscalationDepartmentName(EscalatedLead(base, level - 1), level)
  }

  /** Every escalation hands the case to a department that never had it before. */
  lemma {:induction false} EscalatedLeadsDiffer(base: string, i: nat, j: nat)
    requires i < j
    ensures |EscalatedLead(base, i)| < |EscalatedLead(base, j)|
    ensures EscalatedLead(base, i) != EscalatedLead(base, j)
    decreases j
  {
    if i < j - 1 {
      EscalatedLeadsDiffer(base, i, j - 1);
    }
  }

  // ---------------------------------------------------------------- rules

  predicate IsActiveAt(r: Rule, t: Time) {
    && r.status == Active
    && r.effectiveFrom <= t
    && (r.effectiveTo.Some? ==> t < r.effectiveTo.value)
  }

  predicate SharesKeyword(r: Rule, c: Case) {
    exists k :: k in r.matchKeywords && k in c.keywords
  }

  /**
    What a rule asks of a case: nothing if it is a default rule, and otherwise every
    criterion it states, of which there must be at least one.
   */
  predicate Satisfies(c: Case, r: Rule) {
    r.isDefault
    || (&& (r.matchCategory != "" || |r.matchKeywords| > 0)
        && (r.matchCategory != "" ==> c.category == r.matchCategory)
        && (|r.matchKeywords| > 0 ==> SharesKeyword(r, c)))
  }

  /** Rule.Matches as the source runs it, with its flags and its set of keywords. */
  method Matches(r: Rule, c: Case) returns (matches: bool)
    ensures matches <==> Satisfies(c, r)
  {
    if r.isDefault {
      return true;
    }
    var matched := false;
    if r.matchCategory != "" {
      if c.category == r.matchCategory {
        matched := true;
      } else {
        return false;
      }
    }
    if |r.matchKeywords| > 0 {
      var kwMatched := false;
      var itemKW: set<string> := {};
      for i := 0 to |c.keywords|
        invariant forall k :: k in itemKW <==> k in c.keywords[..i]
      {
        itemKW := itemKW + {c.keywords[i]};
      }
      assert c.keywords[..|c.keywords|] == c.keywords;
      for i := 0 to |r.matchKeywords|
        invariant !kwMatched
        invariant forall j :: 0 <= j < i ==> r.matchKeywords[j] !in c.keywords
      {
        if r.matchKeywords[i] in itemKW {
          kwMatched := true;
          assert r.matchKeywords[i] in r.matchKeywords && r.matchKeywords[i] in c.keywords;
          break;
        }
      }
      if !kwMatched {
        return false;
      }
      matched := true;
    }
    return matched;
  }
}
