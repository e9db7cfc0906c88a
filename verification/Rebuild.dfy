/**
  Rebuilding the index from the shard files, and reconciling the files with the manifest.
  `readable` names the files that can be read; a hash of a file's lines is a parameter.
 */
module Rebuild {
  import opened Domain
  import opened Tables
  import opened Repo
  import opened Agreement

  // ---------------------------------------------------------------- scanning and sorting

  ghost predicate Sorted(ps: seq<Path>) {
    forall i, j :: 0 <= i < j < |ps| ==> PathBefore(ps[i], ps[j])
  }

  function InsertPath(p: Path, ps: seq<Path>): seq<Path> {
    if |ps| == 0 || PathBefore(p, ps[0]) then [p] + ps else [ps[0]] + InsertPath(p, ps[1..])
  }

  lemma {:induction false} InsertPathSorts(p: Path, ps: seq<Path>)
    requires Sorted(ps) && p !in ps
    ensures Sorted(InsertPath(p, ps))
    ensures forall q :: q in InsertPath(p, ps) <==> q == p || q in ps
  {
    if |ps| > 0 && !PathBefore(p, ps[0]) {
      assert ps == [ps[0]] + ps[1..];
      assert ps[0] in ps && PathBefore(ps[0], p);
      InsertPathSorts(p, ps[1..]);
      var rest := InsertPath(p, ps[1..]);
      forall j | 0 <= j < |rest| ensures PathBefore(ps[0], rest[j]) {
        assert rest[j] in rest;
      }
    }
  }

  /** ScanAll followed by the sort on paths: every day file once, in path order. */
  method SortedFiles(files: Files) returns (ps: seq<Path>)
    ensures Sorted(ps)
    ensures forall p :: p in ps <==> p in files
  {
    ps := [];
    var todo := files.Keys;
    while todo != {}
      invariant todo <= files.Keys && Sorted(ps)
      invariant forall p :: p in ps <==> p in files && p !in todo
      decreases todo
    {
      var p :| p in todo;
      InsertPathSorts(p, ps);
      ps := InsertPath(p, ps);
      todo := todo - {p};
    }
  }

  // ---------------------------------------------------------------- replay

  /** recordCollector.add: a line that does not decode as its directory's entity is skipped. */
  function AddRecord(m: map<Key, Record>, e: Entity, r: Record): map<Key, Record> {
    if r.Malformed? || EntityOf(KeyOf(r)) != e then m else m[KeyOf(r) := r]
  }

  /** The last record of `k` in the first `i` files. */
  ghost function LastUpTo(files: Files, ps: seq<Path>, i: nat, k: Key): Option<Record>
    requires i <= |ps|
  {
    if i == 0 then None
    else if LastAt(files, ps[i - 1], k).Some? then LastAt(files, ps[i - 1], k)
    else LastUpTo(files, ps, i - 1, k)
  }

  /** The last record of `k` in the first `i` files and the lines `read` of the next one. */
  ghost function AfterLines(files: Files, ps: seq<Path>, i: nat, read: seq<Record>, k: Key): Option<Record>
    requires i < |ps|
  {
    if ps[i].entity == EntityOf(k) && LastOf(read, k).Some? then LastOf(read, k)
    else LastUpTo(files, ps, i, k)
  }

  lemma {:induction false} LastUpToWitness(files: Files, ps: seq<Path>, i: nat, k: Key)
    requires i <= |ps|
    ensures LastUpTo(files, ps, i, k).None? ==> forall j :: 0 <= j < i ==> LastAt(files, ps[j], k) == None
    ensures LastUpTo(files, ps, i, k).Some? ==>
      exists j :: 0 <= j < i && LastAt(files, ps[j], k) == LastUpTo(files, ps, i, k)
        && forall l :: j < l < i ==> LastAt(files, ps[l], k) == None
  {
    if i > 0 {
      LastUpToWitness(files, ps, i - 1, k);
      if LastAt(files, ps[i - 1], k).None? && LastUpTo(files, ps, i - 1, k).Some? {
        var j :| 0 <= j < i - 1 && LastAt(files, ps[j], k) == LastUpTo(files, ps, i - 1, k)
          && forall l :: j < l < i - 1 ==> LastAt(files, ps[l], k) == None;
        assert forall l :: j < l < i ==> LastAt(files, ps[l], k) == None;
      }
    }
  }

  lemma LaterInOrder(ps: seq<Path>, j: nat, l: nat)
    requires Sorted(ps) && j < |ps| && l < |ps| && PathBefore(ps[j], ps[l])
    ensures j < l
  {
  }

  /** Reading sorted files one after another leaves each key's latest record. */
  lemma ReadingInOrderIsLatest(files: Files, ps: seq<Path>, k: Key)
    requires Sorted(ps) && forall p :: p in files ==> p in ps
    ensures Latest(files, k, LastUpTo(files, ps, |ps|, k))
  {
    LastUpToWitness(files, ps, |ps|, k);
    var o := LastUpTo(files, ps, |ps|, k);
    if o.Some? {
      var j :| 0 <= j < |ps| && LastAt(files, ps[j], k) == o
        && forall l :: j < l < |ps| ==> LastAt(files, ps[l], k) == None;
      forall q | PathBefore(ps[j], q) ensures LastAt(files, q, k) == None {
        if q in files {
          var l :| 0 <= l < |ps| && ps[l] == q;
          LaterInOrder(ps, j, l);
        }
      }
    } else {
      forall q ensures LastAt(files, q, k) == None {
        if q in files {
          var l :| 0 <= l < |ps| && ps[l] == q;
        }
      }
    }
  }

  function Readable(files: Files, readable: set<Path>): Files {
    map p | p in files && p in readable :: files[p]
  }

  ghost predicate IsReplay(files: Files, m: map<Key, Record>) {
    && (forall k :: k in m ==> Names(m[k], k))
    && (forall k :: Latest(files, k, Get(m, k)))
  }

  datatype RebuildReport = RebuildReport(
    totalShards: nat, indexedShards: nat, skippedShards: nat, corruptedShards: seq<Path>, totalRecords: nat)

  /** The files that could not be read, in path order. */
  function Unreadable(ps: seq<Path>, readable: set<Path>): (bad: seq<Path>)
    ensures |bad| <= |ps|
  {
    if |ps| == 0 then []
    else Unreadable(ps[..|ps| - 1], readable) + (if ps[|ps| - 1] in readable then [] else [ps[|ps| - 1]])
  }

  lemma AfterOneLine(files: Files, ps: seq<Path>, i: nat, read: seq<Record>, r: Record, m: map<Key, Record>, k: Key)
    requires i < |ps| && Get(m, k) == AfterLines(files, ps, i, read, k)
    ensures Get(AddRecord(m, ps[i].entity, r), k) == AfterLines(files, ps, i, read + [r], k)
  {
    assert (read + [r])[..|read|] == read;
  }

  /** The collector after one file. */
  method CollectFile(m0: map<Key, Record>, files: Files, ps: seq<Path>, i: nat) returns (m: map<Key, Record>)
    requires i < |ps| && ps[i] in files
    requires forall k :: k in m0 ==> Names(m0[k], k)
    requires forall k :: Get(m0, k) == LastUpTo(files, ps, i, k)
    ensures forall k :: k in m ==> Names(m[k], k)
    ensures forall k :: Get(m, k) == LastUpTo(files, ps, i + 1, k)
  {
    var p, records := ps[i], files[ps[i]];
    m := m0;
    for j := 0 to |records|
      invariant forall k :: k in m ==> Names(m[k], k)
      invariant forall k :: Get(m, k) == AfterLines(files, ps, i, records[..j], k)
    {
      forall k ensures Get(AddRecord(m, p.entity, records[j]), k) == AfterLines(files, ps, i, records[..j + 1], k) {
        assert records[..j + 1] == records[..j] + [records[j]];
        AfterOneLine(files, ps, i, records[..j], records[j], m, k);
      }
      m := AddRecord(m, p.entity, records[j]);
    }
    assert records[..|records|] == records;
  }

  method Collect(files: Files, ps: seq<Path>, readable: set<Path>)
    returns (m: map<Key, Record>, report: RebuildReport)
    requires Sorted(ps) && forall p :: p in ps <==> p in files
    ensures IsReplay(Readable(files, readable), m)
    ensures report == RebuildReport(|ps|, |ps| - |Unreadable(ps, readable)|, |Unreadable(ps, readable)|,
                                    Unreadable(ps, readable), 0)
  {
    ghost var visible := Readable(files, readable);
    m := map[];
    var indexed, bad := 0, [];
    for i := 0 to |ps|
      invariant forall k :: k in m ==> Names(m[k], k)
      invariant forall k :: Get(m, k) == LastUpTo(visible, ps, i, k)
      invariant bad == Unreadable(ps[..i], readable) && indexed + |bad| == i
    {
      assert ps[i] in ps && ps[..i + 1][..i] == ps[..i];
      if ps[i] !in readable {
        bad := bad + [ps[i]];
        forall k ensures LastUpTo(visible, ps, i + 1, k) == LastUpTo(visible, ps, i, k) {
          assert LastAt(visible, ps[i], k) == None;
        }
      } else {
        var shown := Readable(files, readable);
        m := CollectFile(m, shown, ps, i);
        indexed := indexed + 1;
      }
    }
    assert ps[..|ps|] == ps;
    report := RebuildReport(|ps|, indexed, |bad|, bad, 0);
    forall k ensures Latest(visible, k, Get(m, k)) {
      ReadingInOrderIsLatest(visible, ps, k);
    }
  }

  // ---------------------------------------------------------------- loading the tables

  /** DeleteAllData: the rules table is not on its list. */
  function DeleteAllData(x: Index): Index {
    EMPTY_INDEX.(rules := x.rules)
  }

  /** What makes the inserts of a rebuild succeed, seen from the files and the surviving rules. */
  ghost predicate Loadable(files: Files, rules: map<int, Rule>) {
    && (forall v, r :: Latest(files, RuleKey(v), Some(r)) ==> v !in rules)
    && (forall i, j, a, b ::
          (&& Latest(files, Key(Items, i), Some(ItemRec(a)))
           && Latest(files, Key(Items, j), Some(ItemRec(b)))
           && a.externalRef == b.externalRef) ==> i == j)
  }

  ghost predicate Insertable(m: map<Key, Record>, rules: map<int, Rule>) {
    && (forall v :: RuleKey(v) in m ==> v !in rules)
    && (forall i, j ::
          (&& Key(Items, i) in m && Key(Items, j) in m
           && m[Key(Items, i)].ItemRec? && m[Key(Items, j)].ItemRec?
           && m[Key(Items, i)].item.externalRef == m[Key(Items, j)].item.externalRef) ==> i == j)
  }

  lemma InsertableIsLoadable(files: Files, m: map<Key, Record>, rules: map<int, Rule>)
    requires IsReplay(files, m)
    ensures Insertable(m, rules) <==> Loadable(files, rules)
  {
    if Loadable(files, rules) {
      forall v | RuleKey(v) in m ensures v !in rules {
        LatestIsCollected(files, m, RuleKey(v), m[RuleKey(v)]);
      }
      forall i, j | Key(Items, i) in m && Key(Items, j) in m
          && m[Key(Items, i)].ItemRec? && m[Key(Items, j)].ItemRec?
          && m[Key(Items, i)].item.externalRef == m[Key(Items, j)].item.externalRef
        ensures i == j
      {
        LatestIsCollected(files, m, Key(Items, i), ItemRec(m[Key(Items, i)].item));
        LatestIsCollected(files, m, Key(Items, j), ItemRec(m[Key(Items, j)].item));
      }
    }
    if Insertable(m, rules) {
      forall v, r | Latest(files, RuleKey(v), Some(r)) ensures v !in rules {
        LatestIsCollected(files, m, RuleKey(v), r);
      }
      forall i, j, a, b | Latest(files, Key(Items, i), Some(ItemRec(a))) && Latest(files, Key(Items, j), Some(ItemRec(b)))
          && a.externalRef == b.externalRef
        ensures i == j
      {
        LatestIsCollected(files, m, Key(Items, i), ItemRec(a));
        LatestIsCollected(files, m, Key(Items, j), ItemRec(b));
      }
    }
  }

  lemma LatestIsCollected(files: Files, m: map<Key, Record>, k: Key, r: Record)
    requires IsReplay(files, m)
    ensures Latest(files, k, Some(r)) <==> k in m && m[k] == r
  {
    assert Latest(files, k, Get(m, k));
    if Latest(files, k, Some(r)) {
      LatestUnique(files, k, Some(r), Get(m, k));
    }
  }

  /** The rows after the records with keys outside `todo` went in. */
  ghost predicate Loaded(x0: Index, m: map<Key, Record>, todo: set<Key>, x: Index) {
    forall k :: Row(x, k) == if k in m && k !in todo then Some(m[k]) else Row(x0, k)
  }

  /** A primary key names one row in the tables kept in insertion order. */
  ghost predicate IdsDistinct(x: Index) {
    && (forall i, j :: 0 <= i < j < |x.referrals| ==> x.referrals[i].id != x.referrals[j].id)
    && (forall i, j :: 0 <= i < j < |x.escalations| ==> x.escalations[i].id != x.escalations[j].id)
  }

  lemma {:induction false} FindReferralFinds(s: seq<Referral>, id: string)
    ensures FindReferral(s, id).None? ==> forall a :: a in s ==> a.id != id
    ensures FindReferral(s, id).Some? ==> FindReferral(s, id).value in s && FindReferral(s, id).value.id == id
  {
    if s != [] {
      assert s == s[..|s| - 1] + [s[|s| - 1]];
      FindReferralFinds(s[..|s| - 1], id);
    }
  }

  lemma {:induction false} FindEscalationFinds(s: seq<Escalation>, id: string)
    ensures FindEscalation(s, id).None? ==> forall e :: e in s ==> e.id != id
    ensures FindEscalation(s, id).Some? ==> FindEscalation(s, id).value in s && FindEscalation(s, id).value.id == id
  {
    if s != [] {
      assert s == s[..|s| - 1] + [s[|s| - 1]];
      FindEscalationFinds(s[..|s| - 1], id);
    }
  }

  lemma ExecKeepsIds(x: Index, w: Write)
    requires WellFormed(w) && IdsDistinct(x) && Exec(x, w).Some?
    ensures IdsDistinct(Exec(x, w).value)
  {
    if w.Save? {
      InsertKeepsIds(x, w.r);
    }
  }

  lemma InsertKeepsIds(x: Index, r: Record)
    requires !r.Malformed? && IdsDistinct(x) && Insert(x, r).Some?
    ensures IdsDistinct(Insert(x, r).value)
  {
    if r.AssignmentRec? {
      FindReferralFinds(x.referrals, r.referral.id);
      assert forall i :: 0 <= i < |x.referrals| ==> x.referrals[i] in x.referrals;
    } else if r.EscalationRec? {
      FindEscalationFinds(x.escalations, r.escalation.id);
      assert forall i :: 0 <= i < |x.escalations| ==> x.escalations[i] in x.escalations;
    }
  }

  /** A refused insert points at a clash: with a surviving rule, or between two cases. */
  lemma RefusedInsertClashes(rules: map<int, Rule>, m: map<Key, Record>, todo: set<Key>, x: Index, k: Key)
    requires Loaded(EMPTY_INDEX.(rules := rules), m, todo, x)
    requires forall l :: l in m ==> Names(m[l], l)
    requires k in m && k in todo && Names(m[k], k) && Insert(x, m[k]).None?
    ensures !Insertable(m, rules)
  {
    assert Row(x, k) == Row(EMPTY_INDEX.(rules := rules), k);
    if Row(x, k).Some? {
      assert k.RuleKey?;
    } else {
      var ref := m[k].item.externalRef;
      var id :| id in x.items && x.items[id].externalRef == ref;
      assert Row(x, Key(Items, id)) == Some(ItemRec(x.items[id]));
      assert Key(Items, id) in m && Key(Items, id) !in todo && k == Key(Items, k.id);
    }
  }

  /** Between two inserts of a rebuild. */
  ghost predicate Loading(rules: map<int, Rule>, m: map<Key, Record>, todo: set<Key>, x: Index) {
    && todo <= m.Keys
    && Loaded(EMPTY_INDEX.(rules := rules), m, todo, x)
    && Constraints(x) && IdsDistinct(x) && x.manifest == map[]
    && (forall k :: k in m && k !in todo && k.RuleKey? ==> k.version !in rules)
  }

  lemma LoadingStep(rules: map<int, Rule>, m: map<Key, Record>, todo: set<Key>, x: Index, k: Key)
    requires Loading(rules, m, todo, x) && k in todo && Names(m[k], k) && Insert(x, m[k]).Some?
    ensures Loading(rules, m, todo - {k}, Insert(x, m[k]).value)
  {
    InsertRow(x, m[k]);
    InsertKeepsConstraints(x, m[k]);
    InsertKeepsIds(x, m[k]);
    InsertKeepsManifest(x, m[k]);
    assert Row(EMPTY_INDEX.(rules := rules), k) == Row(x, k) == None;
  }

  lemma InsertKeepsManifest(x: Index, r: Record)
    requires !r.Malformed? && Insert(x, r).Some?
    ensures Insert(x, r).value.manifest == x.manifest
  {
  }

  lemma AllLoaded(rules: map<int, Rule>, m: map<Key, Record>, x: Index)
    requires Loading(rules, m, {}, x) && forall k :: k in m ==> Names(m[k], k)
    ensures Insertable(m, rules)
  {
    forall i, j | Key(Items, i) in m && Key(Items, j) in m
        && m[Key(Items, i)].ItemRec? && m[Key(Items, j)].ItemRec?
        && m[Key(Items, i)].item.externalRef == m[Key(Items, j)].item.externalRef
      ensures i == j
    {
      assert Row(x, Key(Items, i)) == Some(m[Key(Items, i)]) && Row(x, Key(Items, j)) == Some(m[Key(Items, j)]);
      assert i in x.items && j in x.items;
    }
    forall v | RuleKey(v) in m ensures v !in rules {
      assert RuleKey(v).RuleKey?;
    }
  }

  lemma LoadingStart(rules: map<int, Rule>, m: map<Key, Record>)
    requires forall v :: v in rules ==> rules[v].version == v
    ensures Loading(rules, m, m.Keys, EMPTY_INDEX.(rules := rules))
  {
  }

  /** The position of a table among the insert loops. */
  function LoadRank(e: Entity): nat {
    match e
    case Items => 0
    case Rules => 1
    case Assignments => 2
    case Escalations => 3
    case Audit => 4
    case Failures => 5
    case Batches => 6
  }

  const LOAD_ORDER := [Items, Rules, Assignments, Escalations, Audit, Failures, Batches]

  lemma RanksAreOrder(n: nat, e: Entity)
    requires n < |LOAD_ORDER| && e == LOAD_ORDER[n]
    ensures forall f :: LoadRank(f) == n <==> f == e
  {
  }

  /** The keys of the tables from the n-th on. */
  function FromRank(m: map<Key, Record>, n: nat): set<Key> {
    set k | k in m && LoadRank(EntityOf(k)) >= n
  }

  /** The keys of one table. */
  function KeysOf(m: map<Key, Record>, e: Entity): set<Key> {
    set k | k in m && EntityOf(k) == e
  }

  lemma RanksGoOn(m: map<Key, Record>, n: nat)
    requires n < |LOAD_ORDER|
    ensures FromRank(m, n) == FromRank(m, n + 1) + KeysOf(m, LOAD_ORDER[n])
    ensures FromRank(m, n + 1) !! KeysOf(m, LOAD_ORDER[n])
    ensures |FromRank(m, n)| == |FromRank(m, n + 1)| + |KeysOf(m, LOAD_ORDER[n])|
  {
    RanksAreOrder(n, LOAD_ORDER[n]);
    assert FromRank(m, n) == FromRank(m, n + 1) + KeysOf(m, LOAD_ORDER[n]);
  }

  lemma RanksStartAndEnd(m: map<Key, Record>)
    ensures FromRank(m, 0) == m.Keys && FromRank(m, |LOAD_ORDER|) == {}
  {
  }

  /** The n-th insert loop of a rebuild: the rows go in in any order, as Go ranges over a map. */
  method LoadTable(rules: map<int, Rule>, m: map<Key, Record>, x0: Index, n: nat) returns (o: Option<Index>, count: nat)
    requires n < |LOAD_ORDER| && forall k :: k in m ==> Names(m[k], k)
    requires Loading(rules, m, FromRank(m, n), x0)
    ensures o.None? ==> !Insertable(m, rules)
    ensures o.Some? ==> count + |FromRank(m, n + 1)| == |FromRank(m, n)| && Loading(rules, m, FromRank(m, n + 1), o.value)
  {
    var x, table := x0, KeysOf(m, LOAD_ORDER[n]);
    ghost var rest := FromRank(m, n + 1);
    RanksGoOn(m, n);
    count := 0;
    while table != {}
      invariant table <= m.Keys && table !! rest && count + |table| == |KeysOf(m, LOAD_ORDER[n])|
      invariant Loading(rules, m, rest + table, x)
      decreases table
    {
      var k :| k in table;
      assert Names(m[k], k);
      var y := Insert(x, m[k]);
      if y.None? {
        RefusedInsertClashes(rules, m, rest + table, x, k);
        return None, count;
      }
      LoadingStep(rules, m, rest + table, x, k);
      TakeOne(rest, table, k);
      x, table, count := y.value, table - {k}, count + 1;
    }
    assert rest + {} == rest;
    return Some(x), count;
  }

  lemma TakeOne<T>(rest: set<T>, table: set<T>, k: T)
    requires k in table && table !! rest
    ensures rest + table - {k} == rest + (table - {k})
  {
  }

  /** The seven insert loops. They succeed exactly when nothing clashes. */
  method LoadTables(rules: map<int, Rule>, m: map<Key, Record>) returns (o: Option<Index>, inserted: nat)
    requires forall v :: v in rules ==> rules[v].version == v
    requires forall k :: k in m ==> Names(m[k], k)
    ensures o.Some? <==> Insertable(m, rules)
    ensures o.Some? ==> inserted == |m| && Loading(rules, m, {}, o.value)
  {
    var x := EMPTY_INDEX.(rules := rules);
    LoadingStart(rules, m);
    RanksStartAndEnd(m);
    inserted := 0;
    for n := 0 to |LOAD_ORDER|
      invariant inserted + |FromRank(m, n)| == |m| && Loading(rules, m, FromRank(m, n), x)
    {
      var y, count := LoadTable(rules, m, x, n);
      if y.None? {
        return None, inserted;
      }
      x, inserted := y.value, inserted + count;
    }
    AllLoaded(rules, m, x);
    return Some(x), inserted;
  }

  // ---------------------------------------------------------------- post-processing

  predicate HasEscalation(x: Index, itemId: string) {
    exists e :: e in x.escalations && e.itemId == itemId
  }

  function PostProcess(x: Index): (y: Index)
    ensures |y.referrals| == |x.referrals|
    ensures forall i :: 0 <= i < |x.referrals| ==>
      y.referrals[i] == if HasEscalation(x, x.referrals[i].itemId) then x.referrals[i].(isCurrent := false) else x.referrals[i]
    ensures y.rules.Keys == x.rules.Keys
    ensures forall v :: v in x.rules ==>
      y.rules[v] == if SupersedeLogged(x, v) then x.rules[v].(status := Superseded) else x.rules[v]
  {
    x.(referrals := seq(|x.referrals|, i requires 0 <= i < |x.referrals| =>
         if HasEscalation(x, x.referrals[i].itemId) then x.referrals[i].(isCurrent := false) else x.referrals[i]),
       rules := map v | v in x.rules ::
         if SupersedeLogged(x, v) then x.rules[v].(status := Superseded) else x.rules[v])
  }

  // ---------------------------------------------------------------- manifest

  type Hash = seq<Record> -> string

  function EntryFor(files: Files, p: Path, readable: set<Path>, hash: Hash, now: Time): ManifestEntry
    requires p in files
  {
    if p in readable then ManifestEntry(p, hash(files[p]), |files[p]|, ShardOk, now, now)
    else ManifestEntry(p, "", 0, ShardCorrupted, now, now)
  }

  /** INSERT .. ON CONFLICT(shard_id) DO UPDATE. */
  function UpsertManifest(m: map<Path, ManifestEntry>, e: ManifestEntry): map<Path, ManifestEntry> {
    if e.path in m then
      m[e.path := m[e.path].(checksum := e.checksum, recordCount := e.recordCount, status := e.status, updatedAt := e.updatedAt)]
    else m[e.path := e]
  }

  ghost predicate ManifestMatches(m: map<Path, ManifestEntry>, files: Files, readable: set<Path>, hash: Hash, now: Time) {
    && m.Keys == files.Keys
    && forall p :: p in files ==>
         && m[p].path == p && m[p].createdAt == now && m[p].updatedAt == now
         && if p in readable then m[p].checksum == hash(files[p]) && m[p].recordCount == |files[p]| && m[p].status == ShardOk
            else m[p].checksum == "" && m[p].recordCount == 0 && m[p].status == ShardCorrupted
  }

  method RebuildManifests(files: Files, ps: seq<Path>, readable: set<Path>, hash: Hash, now: Time)
    returns (m: map<Path, ManifestEntry>)
    requires Sorted(ps) && forall p :: p in ps <==> p in files
    ensures ManifestMatches(m, files, readable, hash, now)
  {
    m := map[];
    for i := 0 to |ps|
      invariant forall p :: p in m <==> p in ps[..i]
      invariant forall p :: p in m ==> p in files && m[p] == EntryFor(files, p, readable, hash, now)
    {
      assert ps[i] in ps && ps[..i + 1] == ps[..i] + [ps[i]];
      forall j | 0 <= j < i ensures ps[j] != ps[i] {
        assert PathBefore(ps[j], ps[i]);
      }
      var entry := EntryFor(files, ps[i], readable, hash, now);
      assert entry.path == ps[i] && ps[i] !in m;
      m := UpsertManifest(m, entry);
    }
    assert ps[..|ps|] == ps;
  }

  // ---------------------------------------------------------------- rebuild

  /** The tables as loaded, before post-processing: the files' latest records and the old rules. */
  ghost predicate LoadedFrom(files: Files, rules: map<int, Rule>, x: Index) {
    && IdsDistinct(x)
    && forall k: Key :: if k.RuleKey? && k.version in rules then Row(x, k) == Some(RuleRec(rules[k.version]))
                   else Latest(files, k, Row(x, k))
  }

  /**
    Store.RebuildIndex. It succeeds exactly when the store accepts the commit, no logged rule
    version is still in the rules table, and no two logged cases claim one external reference.
    Then the tables hold the latest record of every key, post-processed; otherwise the index is
    what it was. The files are only read.
   */
  method RebuildIndex(s: Store, readable: set<Path>, hash: Hash, now: Time, commitOk: bool)
    returns (report: RebuildReport, ok: bool, ghost loaded: Index, ghost collected: map<Key, Record>)
    requires s.Valid()
    modifies s
    ensures IsReplay(Readable(s.files, readable), collected)
    ensures ok ==> report.totalRecords == |collected|
    ensures s.files == old(s.files)
    ensures ok <==> commitOk && Loadable(Readable(s.files, readable), old(s.index.rules))
    ensures !ok ==> s.index == old(s.index)
    ensures ok ==> LoadedFrom(Readable(s.files, readable), old(s.index.rules), loaded)
    ensures ok ==> s.index == PostProcess(loaded).(manifest := s.index.manifest)
    ensures ok ==> ManifestMatches(s.index.manifest, s.files, readable, hash, now)
    ensures report.totalShards == |s.files| == report.indexedShards + report.skippedShards
    ensures |report.corruptedShards| == report.skippedShards
    ensures forall p :: p in report.corruptedShards <==> p in s.files && p !in readable
  {
    var ps := SortedFiles(s.files);
    SortedCount(ps, s.files);
    var m;
    m, report := Collect(s.files, ps, readable);
    collected := m;
    UnreadableMembers(ps, readable);
    loaded := EMPTY_INDEX;
    ghost var visible := Readable(s.files, readable);
    ghost var rules := s.index.rules;
    InsertableIsLoadable(visible, m, rules);
    var tables, inserted := LoadTables(DeleteAllData(s.index).rules, m);
    if tables.None? || !commitOk {
      return report, false, loaded, collected;
    }
    report := report.(totalRecords := inserted);
    loaded := tables.value;
    CollectedIsLoaded(visible, rules, m, loaded);
    var manifest := RebuildManifests(s.files, ps, readable, hash, now);
    s.index := PostProcess(tables.value).(manifest := manifest);
    return report, true, loaded, collected;
  }

  lemma CollectedIsLoaded(files: Files, rules: map<int, Rule>, m: map<Key, Record>, x: Index)
    requires IsReplay(files, m) && Loading(rules, m, {}, x)
    ensures LoadedFrom(files, rules, x)
  {
    forall k: Key ensures if k.RuleKey? && k.version in rules then Row(x, k) == Some(RuleRec(rules[k.version]))
                     else Latest(files, k, Row(x, k))
    {
      assert Row(x, k) == if k in m then Some(m[k]) else Row(EMPTY_INDEX.(rules := rules), k);
      assert Latest(files, k, Get(m, k));
    }
  }

  lemma {:induction false} SortedCount(ps: seq<Path>, files: Files)
    requires Sorted(ps) && forall p :: p in ps <==> p in files
    ensures |ps| == |files|
  {
    PathSetSize(ps);
    assert (set p | p in ps) == files.Keys;
  }

  lemma {:induction false} PathSetSize(ps: seq<Path>)
    requires Sorted(ps)
    ensures |set p | p in ps| == |ps|
  {
    if |ps| > 0 {
      var rest, last := ps[..|ps| - 1], ps[|ps| - 1];
      PathSetSize(rest);
      assert ps == rest + [last];
      forall j | 0 <= j < |rest| ensures rest[j] != last {
        assert PathBefore(ps[j], ps[|ps| - 1]);
      }
      assert (set p | p in ps) == (set p | p in rest) + {last};
    }
  }

  lemma {:induction false} UnreadableMembers(ps: seq<Path>, readable: set<Path>)
    ensures forall p :: p in Unreadable(ps, readable) <==> p in ps && p !in readable
  {
    if |ps| > 0 {
      assert ps == ps[..|ps| - 1] + [ps[|ps| - 1]];
      UnreadableMembers(ps[..|ps| - 1], readable);
    }
  }

  // ---------------------------------------------------------------- reconcile

  datatype ReconcileReport = ReconcileReport(
    shardCount: nat, indexCount: nat, orphanedInShard: nat, missingInShard: nat,
    checksumMismatches: nat, details: nat)

  /** The number of records in the readable ones among `ps`. */
  function RecordTotal(files: Files, ps: seq<Path>, readable: set<Path>): nat
    requires forall p :: p in ps ==> p in files
  {
    if |ps| == 0 then 0
    else
      RecordTotal(files, ps[..|ps| - 1], readable)
      + (if ps[|ps| - 1] in readable then |files[ps[|ps| - 1]]| else 0)
  }

  /** Every file is readable and is what the manifest says it is. */
  ghost predicate Reconciled(files: Files, manifest: map<Path, ManifestEntry>, readable: set<Path>, hash: Hash) {
    forall p :: p in files ==> FileReconciled(files, manifest, readable, hash, p)
  }

  predicate FileReconciled(files: Files, manifest: map<Path, ManifestEntry>, readable: set<Path>, hash: Hash, p: Path)
    requires p in files
  {
    && p in readable && p in manifest
    && manifest[p].recordCount == |files[p]|
    && (manifest[p].checksum == "" || manifest[p].checksum == hash(files[p]))
  }

  /** The manifest a rebuild writes when it can read every file is one that reconciles. */
  lemma FreshManifestReconciles(m: map<Path, ManifestEntry>, files: Files, readable: set<Path>, hash: Hash, now: Time)
    requires ManifestMatches(m, files, readable, hash, now)
    ensures Reconciled(files, m, readable, hash) <==> files.Keys <= readable
  {
    forall p | p in files ensures FileReconciled(files, m, readable, hash, p) <==> p in readable {
    }
  }

  /** The files that the manifest should know, but cannot: they are not readable. */
  function UnreadableFiles(files: Files, readable: set<Path>): set<Path> {
    set p | p in files && p !in readable
  }

  function UnknownFiles(files: Files, manifest: map<Path, ManifestEntry>, readable: set<Path>): set<Path> {
    set p | p in files && p in readable && p !in manifest
  }

  function MiscountedFiles(files: Files, manifest: map<Path, ManifestEntry>, readable: set<Path>): set<Path> {
    set p | p in files && p in readable && p in manifest && manifest[p].recordCount != |files[p]|
  }

  function ChangedFiles(files: Files, manifest: map<Path, ManifestEntry>, readable: set<Path>, hash: Hash): set<Path> {
    set p | p in files && p in readable && p in manifest && manifest[p].checksum !in {"", hash(files[p])}
  }

  /** What the manifest counts for the readable files among `ps`. */
  function ManifestTotal(manifest: map<Path, ManifestEntry>, ps: seq<Path>, readable: set<Path>): nat {
    if |ps| == 0 then 0
    else
      var p := ps[|ps| - 1];
      ManifestTotal(manifest, ps[..|ps| - 1], readable) + (if p in readable && p in manifest then manifest[p].recordCount else 0)
  }

  /** What the readable files among `ps` hold beyond what the manifest counts for them. */
  function Surplus(files: Files, manifest: map<Path, ManifestEntry>, ps: seq<Path>, readable: set<Path>): nat
    requires forall p :: p in ps ==> p in files
  {
    if |ps| == 0 then 0
    else
      var p := ps[|ps| - 1];
      var counted := if p in manifest then manifest[p].recordCount else 0;
      Surplus(files, manifest, ps[..|ps| - 1], readable)
      + (if p in readable && |files[p]| > counted then |files[p]| - counted else 0)
  }

  /** The files among those looked at so far. */
  function Among(ps: seq<Path>, bad: set<Path>): set<Path> {
    set p | p in ps && p in bad
  }

  lemma AmongNext(ps: seq<Path>, i: nat, bad: set<Path>)
    requires Sorted(ps) && i < |ps|
    ensures |Among(ps[..i + 1], bad)| == |Among(ps[..i], bad)| + (if ps[i] in bad then 1 else 0)
  {
    assert ps[..i + 1] == ps[..i] + [ps[i]];
    forall j | 0 <= j < i ensures ps[j] != ps[i] {
      assert PathBefore(ps[j], ps[i]);
    }
    assert Among(ps[..i + 1], bad) == Among(ps[..i], bad) + (if ps[i] in bad then {ps[i]} else {});
  }

  lemma AmongAll(ps: seq<Path>, bad: set<Path>)
    requires forall p :: p in bad ==> p in ps
    ensures Among(ps, bad) == bad
  {
  }

  /** The counts of a reconciliation over `ps`, by the four ways in which a file can be wrong. */
  ghost predicate CountsAre(files: Files, manifest: map<Path, ManifestEntry>, readable: set<Path>, hash: Hash, ps: seq<Path>,
                            counted: nat, orphaned: nat, missing: nat, mismatches: nat, details: nat)
    requires forall p :: p in ps ==> p in files
  {
    && RecordTotal(files, ps, readable) == counted + orphaned - missing
    && (details == 0 ==> orphaned == missing == 0)
    && counted == ManifestTotal(manifest, ps, readable)
    && orphaned == Surplus(files, manifest, ps, readable)
    && mismatches == |Among(ps, ChangedFiles(files, manifest, readable, hash))|
    && details == |Among(ps, UnreadableFiles(files, readable))| + |Among(ps, UnknownFiles(files, manifest, readable))|
                  + |Among(ps, MiscountedFiles(files, manifest, readable))| + |Among(ps, ChangedFiles(files, manifest, readable, hash))|
  }

  /** What one file adds to the counts. */
  predicate FileCounts(files: Files, manifest: map<Path, ManifestEntry>, readable: set<Path>, hash: Hash, p: Path,
                       counted: nat, orphaned: nat, missing: nat, mismatches: nat, details: nat)
    requires p in files
  {
    var known, n := p in readable && p in manifest, |files[p]|;
    var m := if p in manifest then manifest[p].recordCount else 0;
    var wrong := known && m != n;
    var changed := known && manifest[p].checksum != "" && manifest[p].checksum != hash(files[p]);
    && counted == (if known then m else 0)
    && orphaned == (if p in readable && n > m then n - m else 0)
    && missing == (if known && m > n then m - n else 0)
    && mismatches == (if changed then 1 else 0)
    && details == (if !known then 1 else 0) + (if wrong then 1 else 0) + (if changed then 1 else 0)
  }

  lemma CountsNext(files: Files, manifest: map<Path, ManifestEntry>, readable: set<Path>, hash: Hash, ps: seq<Path>, i: nat,
                   c: nat, o: nat, m: nat, x: nat, n: nat, c': nat, o': nat, m': nat, x': nat, n': nat)
    requires Sorted(ps) && i < |ps| && (forall p :: p in ps ==> p in files)
    requires CountsAre(files, manifest, readable, hash, ps[..i], c, o, m, x, n)
    requires ps[i] in files && FileCounts(files, manifest, readable, hash, ps[i], c', o', m', x', n')
    ensures CountsAre(files, manifest, readable, hash, ps[..i + 1], c + c', o + o', m + m', x + x', n + n')
  {
    assert ps[i] in ps && ps[..i + 1][..i] == ps[..i];
    AmongNext(ps, i, UnreadableFiles(files, readable));
    AmongNext(ps, i, UnknownFiles(files, manifest, readable));
    AmongNext(ps, i, MiscountedFiles(files, manifest, readable));
    AmongNext(ps, i, ChangedFiles(files, manifest, readable, hash));
  }

  /**
    Store.Reconcile. Every readable record is accounted for: the records in the files are those
    the manifest counts, plus the orphaned, minus the missing. There is one detail line for every
    file that cannot be read, is not in the manifest, has another number of records or another
    checksum, two for a file with both; and the mismatches are the files with another checksum.
   */
  method Reconcile(s: Store, readable: set<Path>, hash: Hash) returns (report: ReconcileReport, ghost ps: seq<Path>)
    ensures Sorted(ps) && forall p :: p in ps <==> p in s.files
    ensures RecordTotal(s.files, ps, readable) == report.indexCount + report.orphanedInShard - report.missingInShard
    ensures report.indexCount == ManifestTotal(s.index.manifest, ps, readable)
    ensures report.orphanedInShard == Surplus(s.files, s.index.manifest, ps, readable)
    ensures report.shardCount == |ps| == |s.files|
    ensures report.checksumMismatches == |ChangedFiles(s.files, s.index.manifest, readable, hash)|
    ensures report.details == |UnreadableFiles(s.files, readable)| + |UnknownFiles(s.files, s.index.manifest, readable)|
                              + |MiscountedFiles(s.files, s.index.manifest, readable)| + report.checksumMismatches
    ensures report.details == 0 <==> Reconciled(s.files, s.index.manifest, readable, hash)
    ensures report.details == 0 ==> report.orphanedInShard == report.missingInShard == report.checksumMismatches == 0
  {
    var files, manifest := s.files, s.index.manifest;
    var paths := SortedFiles(files);
    ps := paths;
    SortedCount(paths, files);
    var counted: nat, orphaned: nat, missing: nat, mismatches: nat, details: nat := 0, 0, 0, 0, 0;
    NothingCounted(files, manifest, readable, hash);
    for i := 0 to |paths|
      invariant CountsAre(files, manifest, readable, hash, paths[..i], counted, orphaned, missing, mismatches, details)
    {
      assert paths[i] in paths;
      var c, o, m, x, n := ReconcileFile(files, manifest, readable, hash, paths[i]);
      CountsNext(files, manifest, readable, hash, paths, i, counted, orphaned, missing, mismatches, details, c, o, m, x, n);
      counted, orphaned, missing, mismatches, details := counted + c, orphaned + o, missing + m, mismatches + x, details + n;
    }
    assert paths[..|paths|] == paths;
    AllCounted(files, manifest, readable, hash, paths, counted, orphaned, missing, mismatches, details);
    report := ReconcileReport(|paths|, counted, orphaned, missing, mismatches, details);
  }

  /** What a reconciliation does with one file. */
  method ReconcileFile(files: Files, manifest: map<Path, ManifestEntry>, readable: set<Path>, hash: Hash, p: Path)
    returns (counted: nat, orphaned: nat, missing: nat, mismatches: nat, details: nat)
    requires p in files
    ensures FileCounts(files, manifest, readable, hash, p, counted, orphaned, missing, mismatches, details)
  {
    counted, orphaned, missing, mismatches, details := 0, 0, 0, 0, 0;
    if p !in readable {
      details := 1;
    } else if p !in manifest {
      orphaned := |files[p]|;
      details := 1;
    } else {
      if manifest[p].recordCount != |files[p]| {
        var diff := |files[p]| - manifest[p].recordCount;
        if diff > 0 {
          orphaned := diff;
        } else {
          missing := -diff;
        }
        details := details + 1;
      }
      if manifest[p].checksum != "" && manifest[p].checksum != hash(files[p]) {
        mismatches := 1;
        details := details + 1;
      }
      counted := manifest[p].recordCount;
    }
  }

  lemma NothingCounted(files: Files, manifest: map<Path, ManifestEntry>, readable: set<Path>, hash: Hash)
    ensures CountsAre(files, manifest, readable, hash, [], 0, 0, 0, 0, 0)
  {
    assert forall bad :: Among([], bad) == {};
  }

  lemma AllCounted(files: Files, manifest: map<Path, ManifestEntry>, readable: set<Path>, hash: Hash, ps: seq<Path>,
                   counted: nat, orphaned: nat, missing: nat, mismatches: nat, details: nat)
    requires (forall p :: p in ps <==> p in files)
    requires CountsAre(files, manifest, readable, hash, ps, counted, orphaned, missing, mismatches, details)
    ensures mismatches == |ChangedFiles(files, manifest, readable, hash)|
    ensures details == |UnreadableFiles(files, readable)| + |UnknownFiles(files, manifest, readable)|
                       + |MiscountedFiles(files, manifest, readable)| + mismatches
    ensures details == 0 <==> Reconciled(files, manifest, readable, hash)
  {
    AmongAll(ps, UnreadableFiles(files, readable));
    AmongAll(ps, UnknownFiles(files, manifest, readable));
    AmongAll(ps, MiscountedFiles(files, manifest, readable));
    AmongAll(ps, ChangedFiles(files, manifest, readable, hash));
    WhenReconciled(files, manifest, readable, hash);
  }

  lemma WhenReconciled(files: Files, manifest: map<Path, ManifestEntry>, readable: set<Path>, hash: Hash)
    ensures Reconciled(files, manifest, readable, hash) <==>
      && UnreadableFiles(files, readable) == {} && UnknownFiles(files, manifest, readable) == {}
      && MiscountedFiles(files, manifest, readable) == {} && ChangedFiles(files, manifest, readable, hash) == {}
  {
    forall p | p in files ensures FileReconciled(files, manifest, readable, hash, p) <==>
      && p !in UnreadableFiles(files, readable) && p !in UnknownFiles(files, manifest, readable)
      && p !in MiscountedFiles(files, manifest, readable) && p !in ChangedFiles(files, manifest, readable, hash)
    {
    }
  }
}
