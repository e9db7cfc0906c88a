/**
  The two views of the shard files joined. The bytes that a run's appends leave in the day files read
  back as the lists of records that the store's theorems speak of, exactly as long as no day file is
  rotated; and after a cut inside a line they do so no more.
 */
module ShardFiles {
  import opened Domain
  import opened Tables
  import opened Repo
  import opened Workflow
  import opened Filing
  import opened Shard

  type Encoding = Record -> Bytes
  type Naming = Path -> string

  function Encoded(records: seq<Record>, encode: Encoding): seq<Bytes> {
    seq(|records|, i requires 0 <= i < |records| => encode(records[i]))
  }

  /** What the writer is given for each line. */
  function Written(lines: seq<Line>, name: Naming, encode: Encoding): seq<(string, Bytes)> {
    seq(|lines|, i requires 0 <= i < |lines| => (name(lines[i].path), encode(lines[i].record)))
  }

  /** A limit that is not positive turns rotation off. */
  ghost predicate WriteStep(limit: int, before: FileMap, append: (string, Bytes), after: FileMap) {
    if limit > 0 then AppendStep(limit, before, append, after) else after == Appended(before, append.0, append.1)
  }

  /** The shard directory, empty at first, before and after each append. */
  ghost predicate Wrote(limit: int, appends: seq<(string, Bytes)>, states: seq<FileMap>) {
    && |states| == |appends| + 1 && states[0] == map[]
    && forall n :: 0 <= n < |appends| ==> WriteStep(limit, states[n], appends[n], states[n + 1])
  }

  /** Different paths have different names, and all of them are names of day files. */
  ghost predicate NamesDays(name: Naming) {
    && (forall p, q :: name(p) == name(q) ==> p == q)
    && (forall p :: HasSuffix(name(p), ".jsonl"))
  }

  // ---------------------------------------------------------------- the names

  /** Every file is a generation of some day file of the store, and every such day file is there. */
  ghost predicate NamesMatch(files: Files, shown: FileMap, name: Naming) {
    && (forall p :: p in files ==> name(p) in shown)
    && (forall s :: s in shown && HasSuffix(s, ".jsonl") ==> exists p :: p in files && name(p) == s)
  }

  /** Appends go to some generation of their day file, and never to a later one while it is missing. */
  lemma TargetOf(limit: int, before: FileMap, append: (string, Bytes), after: FileMap) returns (i: nat)
    requires WriteStep(limit, before, append, after)
    ensures after == Appended(before, Generation(append.0, i), append.1)
    ensures append.0 in after
    ensures limit <= 0 || !Full(before, append.0, limit) ==> i == 0
  {
    assert Generation(append.0, 0) == append.0;
    i := 0;
    if limit > 0 {
      i :| IsTarget(before, append.0, limit, i) && after == Appended(before, Generation(append.0, i), append.1);
      assert i > 0 ==> Full(before, Generation(append.0, 0), limit);
    }
  }

  lemma AppendNames(files: Files, shown: FileMap, name: Naming, limit: int, p: Path, r: Record, data: Bytes, after: FileMap)
    requires NamesDays(name) && NamesMatch(files, shown, name) && WriteStep(limit, shown, (name(p), data), after)
    ensures NamesMatch(Append(files, p, r), after, name)
  {
    var i := TargetOf(limit, shown, (name(p), data), after);
    RotationsAreInvisible(name(p), i);
    forall s | s in after && HasSuffix(s, ".jsonl") ensures exists q :: q in Append(files, p, r) && name(q) == s {
      if s == Generation(name(p), i) {
        assert p in Append(files, p, r) && name(p) == s;
      } else {
        var q :| q in files && name(q) == s;
        assert q in Append(files, p, r);
      }
    }
  }

  lemma {:induction false} LinesNamed(lines: seq<Line>, limit: int, name: Naming, encode: Encoding, states: seq<FileMap>, m: nat)
    requires NamesDays(name) && Wrote(limit, Written(lines, name, encode), states) && m <= |lines|
    ensures NamesMatch(AppendAll(map[], lines[..m]), states[m], name)
  {
    if m > 0 {
      LinesNamed(lines, limit, name, encode, states, m - 1);
      var l := lines[m - 1];
      assert WriteStep(limit, states[m - 1], Written(lines, name, encode)[m - 1], states[m]);
      assert lines[..m][..m - 1] == lines[..m - 1];
      AppendNames(AppendAll(map[], lines[..m - 1]), states[m - 1], name, limit, l.path, l.record, encode(l.record), states[m]);
    }
  }

  // ---------------------------------------------------------------- the contents

  lemma EncodedAppend(records: seq<Record>, r: Record, encode: Encoding)
    ensures Encoded(records + [r], encode) == Encoded(records, encode) + [encode(r)]
  {
  }

  lemma JoinedAppend(records: seq<Bytes>, r: Bytes)
    ensures Joined(records + [r]) == Joined(records) + (r + [NEWLINE])
  {
    assert (records + [r])[..|records|] == records;
  }

  function RecordsAt(files: Files, p: Path): seq<Record> {
    if p in files then files[p] else []
  }

  /** What was written to a day are the encodings of its records. */
  lemma {:induction false} WrittenToDay(lines: seq<Line>, name: Naming, encode: Encoding, p: Path)
    requires NamesDays(name)
    ensures AppendedTo(Written(lines, name, encode), name(p)) == Encoded(RecordsAt(AppendAll(map[], lines), p), encode)
    ensures p in AppendAll(map[], lines) <==> RecordsAt(AppendAll(map[], lines), p) != []
  {
    if |lines| > 0 {
      var n := |lines| - 1;
      var before, last := AppendAll(map[], lines[..n]), lines[n];
      WrittenToDay(lines[..n], name, encode, p);
      assert Written(lines, name, encode)[..n] == Written(lines[..n], name, encode);
      EncodedAppend(RecordsAt(before, p), last.record, encode);
      assert name(last.path) == name(p) <==> last.path == p;
    }
  }

  /** A line fits into a shard file. */
  ghost predicate AllFramed(lines: seq<Line>, encode: Encoding) {
    forall l :: l in lines ==> Framed(encode(l.record))
  }

  lemma {:induction false} RecordsAreFramed(lines: seq<Line>, encode: Encoding, p: Path)
    requires AllFramed(lines, encode)
    ensures forall r :: r in RecordsAt(AppendAll(map[], lines), p) ==> Framed(encode(r))
  {
    if |lines| > 0 {
      var n := |lines| - 1;
      assert lines[n] in lines && forall l :: l in lines[..n] ==> l in lines;
      RecordsAreFramed(lines[..n], encode, p);
    }
  }

  /** Each day file holds the encodings of the day's records, one after another, and there is no other. */
  ghost predicate Mirrors(files: Files, shown: FileMap, name: Naming, encode: Encoding) {
    && (forall p :: p in files <==> name(p) in shown)
    && (forall p :: p in files ==> shown[name(p)] == Joined(Encoded(files[p], encode)))
  }

  /**
    An append to a day file that is below the limit goes to that file, and the files go on showing
    the records.
   */
  lemma AppendMirrors(files: Files, shown: FileMap, name: Naming, encode: Encoding, limit: int, p: Path, r: Record, after: FileMap)
    requires Mirrors(files, shown, name, encode) && NamesDays(name)
    requires WriteStep(limit, shown, (name(p), encode(r)), after) && (limit <= 0 || !Full(shown, name(p), limit))
    ensures Mirrors(Append(files, p, r), after, name, encode)
  {
    var i := TargetOf(limit, shown, (name(p), encode(r)), after);
    assert i == 0 && Generation(name(p), 0) == name(p);
    AppendedMirrors(files, shown, name, encode, p, r);
  }

  lemma AppendedMirrors(files: Files, shown: FileMap, name: Naming, encode: Encoding, p: Path, r: Record)
    requires Mirrors(files, shown, name, encode) && forall q :: name(q) == name(p) ==> q == p
    ensures Mirrors(Append(files, p, r), Appended(shown, name(p), encode(r)), name, encode)
  {
    var records := RecordsAt(files, p);
    EncodedAppend(records, r, encode);
    JoinedAppend(Encoded(records, encode), encode(r));
    assert (if name(p) in shown then shown[name(p)] else []) == Joined(Encoded(records, encode)) by {
      assert Joined([]) == [] && Encoded([], encode) == [];
    }
  }

  lemma {:induction false} LinesMirrored(lines: seq<Line>, limit: int, name: Naming, encode: Encoding, states: seq<FileMap>, m: nat)
    requires NamesDays(name) && Wrote(limit, Written(lines, name, encode), states) && m <= |lines|
    requires forall n :: 0 <= n < m ==> limit <= 0 || !Full(states[n], name(lines[n].path), limit)
    ensures Mirrors(AppendAll(map[], lines[..m]), states[m], name, encode)
  {
    if m > 0 {
      LinesMirrored(lines, limit, name, encode, states, m - 1);
      var l := lines[m - 1];
      assert WriteStep(limit, states[m - 1], Written(lines, name, encode)[m - 1], states[m]);
      assert lines[..m][..m - 1] == lines[..m - 1];
      AppendMirrors(AppendAll(map[], lines[..m - 1]), states[m - 1], name, encode, limit, l.path, l.record, states[m]);
    }
  }

  /** And reading a day file gives back exactly the day's records, if their encodings are framed. */
  lemma MirrorReads(files: Files, shown: FileMap, name: Naming, encode: Encoding, p: Path)
    requires Mirrors(files, shown, name, encode) && p in files && forall r :: r in files[p] ==> Framed(encode(r))
    ensures Contents(shown[name(p)]) == Some(Encoded(files[p], encode))
  {
    RoundTrip(Encoded(files[p], encode));
  }

  // ---------------------------------------------------------------- runs

  /** The records of a day before its last one take up less than the limit. */
  predicate BelowLimit(records: seq<Bytes>, limit: int)
    requires records != []
  {
    limit <= 0 || |Joined(records[..|records| - 1])| < limit
  }

  /** Reading this day file gives back the records of the day. */
  ghost predicate ReadsBack(files: Files, shown: FileMap, name: Naming, encode: Encoding, p: Path) {
    p in files && name(p) in shown && Contents(shown[name(p)]) == Some(Encoded(files[p], encode))
  }

  lemma WritingIs(limit: int, appends: seq<(string, Bytes)>, states: seq<FileMap>)
    requires limit > 0 && Wrote(limit, appends, states)
    ensures IsWriting(limit, appends, states)
  {
    forall n | 0 <= n < |appends| ensures AppendStep(limit, states[n], appends[n], states[n + 1]) {
      assert WriteStep(limit, states[n], appends[n], states[n + 1]);
    }
  }

  lemma LimitedDayReadsBack(limit: int, appends: seq<(string, Bytes)>, states: seq<FileMap>, base: string, records: seq<Bytes>)
    requires limit > 0 && Wrote(limit, appends, states) && ToDayFiles(appends) && HasSuffix(base, ".jsonl")
    requires records == AppendedTo(appends, base) && records != [] && forall r :: r in records ==> Framed(r)
    ensures var shown := states[|appends|];
      base in shown && (Contents(shown[base]) == Some(records) <==> BelowLimit(records, limit))
  {
    WritingIs(limit, appends, states);
    RotationHidesRecords(limit, appends, states, base);
  }

  lemma DayReadsBack(lines: seq<Line>, limit: int, name: Naming, encode: Encoding, states: seq<FileMap>, p: Path)
    requires NamesDays(name) && AllFramed(lines, encode) && Wrote(limit, Written(lines, name, encode), states)
    requires p in AppendAll(map[], lines)
    ensures var files, records := AppendAll(map[], lines), Encoded(RecordsAt(AppendAll(map[], lines), p), encode);
      records != [] && (ReadsBack(files, states[|lines|], name, encode, p) <==> BelowLimit(records, limit))
  {
    var files, records := AppendAll(map[], lines), Encoded(RecordsAt(AppendAll(map[], lines), p), encode);
    WrittenToDay(lines, name, encode, p);
    RecordsAreFramed(lines, encode, p);
    if limit > 0 {
      LimitedDayReadsBack(limit, Written(lines, name, encode), states, name(p), records);
    } else {
      assert lines[..|lines|] == lines;
      LinesMirrored(lines, limit, name, encode, states, |lines|);
      MirrorReads(files, states[|lines|], name, encode, p);
    }
  }

  /**
    What the bytes of a run are. Let the writer append every line of a run, in order, to an empty
    directory: then the scanner sees exactly the day files of `Repo.Files`, and the reader gets from
    each exactly its records, as long as the file was below the limit before its last line.
   */
  lemma RunReadsBack(g: Config, events: seq<Event>, limit: int, name: Naming, encode: Encoding, states: seq<FileMap>)
    requires NamesDays(name) && AllFramed(RunLines(g, events), encode)
    requires Wrote(limit, Written(RunLines(g, events), name, encode), states)
    ensures var files, shown := Run(g, EMPTY_DISK, events).files, states[|states| - 1];
      && NamesMatch(files, shown, name)
      && forall p :: p in files ==>
           && Encoded(files[p], encode) != []
           && (ReadsBack(files, shown, name, encode, p) <==> BelowLimit(Encoded(files[p], encode), limit))
  {
    var lines := RunLines(g, events);
    RunAppends(g, events);
    assert lines[..|lines|] == lines;
    LinesNamed(lines, limit, name, encode, states, |lines|);
    forall p | p in AppendAll(map[], lines)
      ensures Encoded(AppendAll(map[], lines)[p], encode) != []
      ensures ReadsBack(AppendAll(map[], lines), states[|lines|], name, encode, p)
        <==> BelowLimit(Encoded(AppendAll(map[], lines)[p], encode), limit)
    {
      DayReadsBack(lines, limit, name, encode, states, p);
    }
  }

  // ---------------------------------------------------------------- cuts

  /**
    After a cut inside a line this is over: the next record appended, though its row may well be
    committed, is in no line of the file any more, unless it was there already or comes again.
   */
  lemma CutLosesNextRecord(records: seq<Bytes>, fragment: Bytes, next: Bytes, more: seq<Bytes>)
    requires (forall r :: r in records ==> Framed(r)) && Framed(next) && forall r :: r in more ==> Framed(r)
    requires NewlineFree(fragment) && |fragment| > 0 && |fragment| + |next| < MAX_TOKEN
    ensures var read := Contents(Joined(records) + fragment + Joined([next] + more));
      && read.Some?
      && (next in read.value <==> next in records || next in more)
      && forall r :: r in records || r in more ==> r in read.value
  {
    GluedRecord(records, fragment, next, more);
  }
}
