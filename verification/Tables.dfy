/**
  The SQLite index as values: its tables, the statements the store runs on them, and the
  queries the services use. A statement that a constraint rejects yields `None`.
 */
module Tables {
  import opened Domain
  import opened Dispatch

  datatype Entity = Items | Rules | Assignments | Escalations | Audit | Failures | Batches

  /** A shard file is named by the entity it holds and its calendar day. */
  datatype Path = Path(entity: Entity, day: int)

  const NANOS_PER_DAY := 86_400_000_000_000

  function Day(t: Time): int {
    t / NANOS_PER_DAY
  }

  /** A day is 24 hours. */
  lemma DayIs(t: Time, d: int)
    ensures Day(t) == d <==> d * 24 * 3_600_000_000_000 <= t < (d + 1) * 24 * 3_600_000_000_000
  {
  }

  /** One line of a shard file. `Malformed` is a line that does not decode. */
  datatype Record =
    | ItemRec(item: Case)
    | RuleRec(rule: Rule)
    | AssignmentRec(referral: Referral)
    | EscalationRec(escalation: Escalation)
    | AuditRec(entry: AuditEntry)
    | FailureRec(failure: PermanentFailure)
    | BatchRec(batch: ImportBatch)
    | Malformed(text: string)

  datatype Key = Key(entity: Entity, id: string) | RuleKey(version: int)

  function KeyOf(r: Record): Key
    requires !r.Malformed?
  {
    match r
    case ItemRec(c) => Key(Items, c.id)
    case RuleRec(u) => RuleKey(u.version)
    case AssignmentRec(a) => Key(Assignments, a.id)
    case EscalationRec(e) => Key(Escalations, e.id)
    case AuditRec(a) => Key(Audit, a.id)
    case FailureRec(f) => Key(Failures, f.id)
    case BatchRec(b) => Key(Batches, b.id)
  }

  function EntityOf(k: Key): Entity {
    match k
    case Key(e, _) => e
    case RuleKey(_) => Rules
  }

  datatype ManifestStatus = ShardOk | ShardCorrupted

  datatype ManifestEntry = ManifestEntry(
    path: Path, checksum: string, recordCount: nat, status: ManifestStatus,
    createdAt: Time, updatedAt: Time)

  /** Referrals and escalations are kept in insertion order, the other tables by key. */
  datatype Index = Index(
    items: map<string, Case>,
    rules: map<int, Rule>,
    referrals: seq<Referral>,
    escalations: seq<Escalation>,
    audit: map<string, AuditEntry>,
    failures: map<string, PermanentFailure>,
    batches: map<string, ImportBatch>,
    manifest: map<Path, ManifestEntry>)

  const EMPTY_INDEX := Index(map[], map[], [], [], map[], map[], map[], map[])

  // ---------------------------------------------------------------- rows

  function FindReferral(s: seq<Referral>, id: string): Option<Referral> {
    if s == [] then None
    else if s[|s| - 1].id == id then Some(s[|s| - 1])
    else FindReferral(s[..|s| - 1], id)
  }

  function FindEscalation(s: seq<Escalation>, id: string): Option<Escalation> {
    if s == [] then None
    else if s[|s| - 1].id == id then Some(s[|s| - 1])
    else FindEscalation(s[..|s| - 1], id)
  }

  function Get<K, V>(m: map<K, V>, k: K): Option<V> {
    if k in m then Some(m[k]) else None
  }

  /** The row with primary key `k`. */
  function Row(x: Index, k: Key): Option<Record> {
    match k
    case RuleKey(v) => if v in x.rules then Some(RuleRec(x.rules[v])) else None
    case Key(e, id) =>
      match e
      case Rules => None
      case Items => if id in x.items then Some(ItemRec(x.items[id])) else None
      case Assignments => (match FindReferral(x.referrals, id)
                           case None => None
                           case Some(a) => Some(AssignmentRec(a)))
      case Escalations => (match FindEscalation(x.escalations, id)
                           case None => None
                           case Some(n) => Some(EscalationRec(n)))
      case Audit => if id in x.audit then Some(AuditRec(x.audit[id])) else None
      case Failures => if id in x.failures then Some(FailureRec(x.failures[id])) else None
      case Batches => if id in x.batches then Some(BatchRec(x.batches[id])) else None
  }

  predicate RefTaken(x: Index, ref: string) {
    exists id :: id in x.items && x.items[id].externalRef == ref
  }

  /** What the schema's primary keys and its UNIQUE column guarantee. */
  ghost predicate Constraints(x: Index) {
    && (forall id :: id in x.items ==> x.items[id].id == id)
    && (forall i, j :: i in x.items && j in x.items && x.items[i].externalRef == x.items[j].externalRef ==> i == j)
    && (forall v :: v in x.rules ==> x.rules[v].version == v)
    && (forall id :: id in x.failures ==> x.failures[id].id == id)
  }

  // ---------------------------------------------------------------- statements

  /** INSERT: refused when the primary key, or a case's external reference, is taken. */
  function Insert(x: Index, r: Record): Option<Index>
    requires !r.Malformed?
  {
    if Row(x, KeyOf(r)).Some? then None
    else
      match r
      case ItemRec(c) =>
        if RefTaken(x, c.externalRef) then None else Some(x.(items := x.items[c.id := c]))
      case RuleRec(u) => Some(x.(rules := x.rules[u.version := u]))
      case AssignmentRec(a) => Some(x.(referrals := x.referrals + [a]))
      case EscalationRec(e) => Some(x.(escalations := x.escalations + [e]))
      case AuditRec(a) => Some(x.(audit := x.audit[a.id := a]))
      case FailureRec(f) => Some(x.(failures := x.failures[f.id := f]))
      case BatchRec(b) => Some(x.(batches := x.batches[b.id := b]))
  }

  /** An insert is refused exactly if its key is there, or its case's reference. */
  lemma InsertIsTaken(x: Index, r: Record)
    requires !r.Malformed?
    ensures Insert(x, r).Some? <==>
      && Row(x, KeyOf(r)) == None
      && (r.ItemRec? ==> forall id :: id in x.items ==> x.items[id].externalRef != r.item.externalRef)
  {
  }

  lemma InsertReferralRow(x: Index, a: Referral, k: Key)
    ensures Row(x.(referrals := x.referrals + [a]), k) == if k == Key(Assignments, a.id) then Some(AssignmentRec(a)) else Row(x, k)
  {
    assert (x.referrals + [a])[..|x.referrals|] == x.referrals;
  }

  lemma InsertEscalationRow(x: Index, n: Escalation, k: Key)
    ensures Row(x.(escalations := x.escalations + [n]), k) == if k == Key(Escalations, n.id) then Some(EscalationRec(n)) else Row(x, k)
  {
    assert (x.escalations + [n])[..|x.escalations|] == x.escalations;
  }

  lemma InsertRowAt(x: Index, r: Record, k: Key)
    requires !r.Malformed? && Insert(x, r).Some?
    ensures Row(Insert(x, r).value, k) == if k == KeyOf(r) then Some(r) else Row(x, k)
  {
    if r.AssignmentRec? {
      InsertReferralRow(x, r.referral, k);
    } else if r.EscalationRec? {
      InsertEscalationRow(x, r.escalation, k);
    }
  }

  lemma InsertRow(x: Index, r: Record)
    requires !r.Malformed? && Insert(x, r).Some?
    ensures forall k :: Row(Insert(x, r).value, k) == if k == KeyOf(r) then Some(r) else Row(x, k)
  {
    forall k ensures Row(Insert(x, r).value, k) == if k == KeyOf(r) then Some(r) else Row(x, k) {
      InsertRowAt(x, r, k);
    }
  }

  lemma InsertKeepsConstraints(x: Index, r: Record)
    requires !r.Malformed? && Constraints(x) && Insert(x, r).Some?
    ensures Constraints(Insert(x, r).value)
  {
  }

  /** UPDATE items: the identity, reference, registration and creation columns are not in its SET list. */
  function MergeItem(row: Case, c: Case): Case {
    c.(externalRef := row.externalRef, registeredAt := row.registeredAt,
       registeredBy := row.registeredBy, createdAt := row.createdAt)
  }

  function MergeFailure(row: PermanentFailure, f: PermanentFailure): PermanentFailure {
    row.(lastError := f.lastError, attempts := f.attempts, lastFailedAt := f.lastFailedAt,
         status := f.status, nextRetryAt := f.nextRetryAt, backoffState := f.backoffState,
         resolvedAt := f.resolvedAt)
  }

  function MarkSuperseded(s: seq<Referral>, itemId: string): (t: seq<Referral>)
    ensures |t| == |s|
    ensures forall i :: 0 <= i < |s| ==>
      t[i] == if s[i].itemId == itemId then s[i].(isCurrent := false) else s[i]
  {
    seq(|s|, i requires 0 <= i < |s| => if s[i].itemId == itemId then s[i].(isCurrent := false) else s[i])
  }

  datatype Write =
    | Save(r: Record)
    | UpdateItem(item: Case)
    | UpdateFailure(failure: PermanentFailure)
    | MarkAssignmentSuperseded(itemId: string)
    | SupersedeRule(version: int, wall: Time)

  predicate WellFormed(w: Write) {
    w.Save? ==> !w.r.Malformed?
  }

  /** A row update of a missing key is an error for items and failures, and nothing for the rest. */
  function Exec(x: Index, w: Write): Option<Index>
    requires WellFormed(w)
  {
    match w
    case Save(r) => Insert(x, r)
    case UpdateItem(c) =>
      if c.id in x.items then Some(x.(items := x.items[c.id := MergeItem(x.items[c.id], c)])) else None
    case UpdateFailure(f) =>
      if f.id in x.failures then
        Some(x.(failures := x.failures[f.id := MergeFailure(x.failures[f.id], f)]))
      else None
    case MarkAssignmentSuperseded(id) => Some(x.(referrals := MarkSuperseded(x.referrals, id)))
    case SupersedeRule(v, wall) =>
      if v in x.rules then
        Some(x.(rules := x.rules[v := x.rules[v].(status := Superseded, effectiveTo := Some(wall))]))
      else Some(x)
  }

  lemma ExecKeepsConstraints(x: Index, w: Write)
    requires Constraints(x) && WellFormed(w) && Exec(x, w).Some?
    ensures Constraints(Exec(x, w).value)
  {
    if w.Save? {
      InsertKeepsConstraints(x, w.r);
    }
  }

  // ---------------------------------------------------------------- queries

  /** The row of a UNIQUE external reference. */
  ghost function ByRef(x: Index, ref: string): (o: Option<Case>)
    ensures o.Some? ==> o.value in x.items.Values && o.value.externalRef == ref
    ensures o.None? <==> !RefTaken(x, ref)
  {
    if id :| id in x.items && x.items[id].externalRef == ref then Some(x.items[id]) else None
  }

  lemma ByRefIs(x: Index, id: string)
    requires Constraints(x) && id in x.items
    ensures ByRef(x, x.items[id].externalRef) == Some(x.items[id])
  {
    assert RefTaken(x, x.items[id].externalRef);
  }

  function ActiveRules(x: Index, at: Time): (s: set<Rule>) {
    set v | v in x.rules && IsActiveAt(x.rules[v], at) :: x.rules[v]
  }

  lemma ActiveRulesDistinct(x: Index, at: Time)
    requires Constraints(x)
    ensures DistinctVersions(ActiveRules(x, at))
    ensures forall r :: r in ActiveRules(x, at) ==> r.version in x.rules && x.rules[r.version] == r
  {
  }

  /** Some audit entry says that rule `v` was superseded. */
  predicate SupersedeLogged(x: Index, v: int) {
    exists a :: a in x.audit && SupersedesRule(x.audit[a], v)
  }

  /** COALESCE(MAX(version), 0). */
  ghost predicate IsMaxVersion(x: Index, m: int) {
    && (x.rules == map[] ==> m == 0)
    && (x.rules != map[] ==> m in x.rules && forall v :: v in x.rules ==> v <= m)
  }

  ghost function CurrentVersion(x: Index): (m: int)
    ensures IsMaxVersion(x, m)
  {
    if x.rules == map[] then 0
    else
      MaxExists(x.rules.Keys);
      var m :| m in x.rules && forall v :: v in x.rules ==> v <= m;
      m
  }

  ghost function Any<T>(s: set<T>): (x: T)
    requires s != {}
    ensures x in s
  {
    var x :| x in s; x
  }

  lemma MaxExists(s: set<int>)
    requires s != {}
    ensures exists m :: m in s && forall v :: v in s ==> v <= m
  {
    var x := Any(s);
    var rest := s - {x};
    if rest == {} {
      forall v | v in s ensures v <= x {
        assert v == x || v in rest;
      }
    } else {
      MaxExists(rest);
      var m: int :| m in rest && forall v :: v in rest ==> v <= m;
      var top := if x < m then m else x;
      assert top in s;
      assert forall v :: v in s ==> v == x || v in rest;
    }
  }
}
