/**
  Shard files as bytes: appending lines, reading them back, and rotating a file that has grown
  past the limit.
 */
module Shard {
  import opened Domain

  newtype Byte = b: int | 0 <= b < 256
  type Bytes = seq<Byte>

  const NEWLINE: Byte := 10
  const CARRIAGE_RETURN: Byte := 13

  /** scanner.Buffer's limit: a line of this many bytes, or more, cannot be read. */
  const MAX_TOKEN := 16 * 1024 * 1024

  // ---------------------------------------------------------------- lines

  /** The position of the first newline, or the length if there is none. */
  function FirstNewline(b: Bytes): (i: nat)
    ensures i <= |b|
    ensures forall j :: 0 <= j < i ==> b[j] != NEWLINE
    ensures i < |b| ==> b[i] == NEWLINE
  {
    if |b| == 0 || b[0] == NEWLINE then 0 else 1 + FirstNewline(b[1..])
  }

  /** What follows the first line. */
  function AfterLine(b: Bytes): (rest: Bytes)
    requires |b| > 0
    ensures |rest| < |b|
  {
    if FirstNewline(b) < |b| then b[FirstNewline(b) + 1..] else []
  }

  /** The lines of a file; a last line without its newline counts. */
  function Lines(b: Bytes): seq<Bytes>
    decreases |b|
  {
    if |b| == 0 then [] else [b[..FirstNewline(b)]] + Lines(AfterLine(b))
  }

  function DropCR(line: Bytes): Bytes {
    if |line| > 0 && line[|line| - 1] == CARRIAGE_RETURN then line[..|line| - 1] else line
  }

  /** Blank lines are skipped. */
  function Kept(line: Bytes): seq<Bytes> {
    if |DropCR(line)| == 0 then [] else [DropCR(line)]
  }

  /** The records among `lines`, or nothing at all if one of them is too long. */
  function RecordsOf(lines: seq<Bytes>): Option<seq<Bytes>> {
    if |lines| == 0 then Some([])
    else if |lines[0]| >= MAX_TOKEN then None
    else
      match RecordsOf(lines[1..])
      case None => None
      case Some(rest) => Some(Kept(lines[0]) + rest)
  }

  /** The records of a file, or `None` if reading it fails. */
  function Contents(b: Bytes): Option<seq<Bytes>> {
    RecordsOf(Lines(b))
  }

  lemma {:induction false} RecordsOfSnoc(lines: seq<Bytes>, line: Bytes)
    ensures RecordsOf(lines + [line])
      == if RecordsOf(lines).None? || |line| >= MAX_TOKEN then None else Some(RecordsOf(lines).value + Kept(line))
  {
    if |lines| == 0 {
      assert lines + [line] == [line] && [line][1..] == [] && Kept(line) + [] == Kept(line) == [] + Kept(line);
    } else {
      var all := lines + [line];
      assert all[1..] == lines[1..] + [line] && all[0] == lines[0];
      RecordsOfSnoc(lines[1..], line);
      if RecordsOf(lines).Some? && |line| < MAX_TOKEN {
        var rest := RecordsOf(lines[1..]).value;
        assert Kept(lines[0]) + (rest + Kept(line)) == Kept(lines[0]) + rest + Kept(line);
      }
    }
  }

  /** `read` has been scanned off the front of the file, `rest` is to come. */
  ghost predicate Scanned(b: Bytes, read: seq<Bytes>, rest: Bytes) {
    Lines(b) == read + Lines(rest)
  }

  lemma ScanLine(b: Bytes, read: seq<Bytes>, rest: Bytes)
    requires Scanned(b, read, rest) && |rest| > 0
    ensures Scanned(b, read + [rest[..FirstNewline(rest)]], AfterLine(rest))
  {
    AssocThree(read, [rest[..FirstNewline(rest)]], Lines(AfterLine(rest)));
  }

  lemma AssocThree<T>(a: seq<T>, b: seq<T>, c: seq<T>)
    ensures a + (b + c) == a + b + c
  {
  }

  lemma ScanEnds(b: Bytes, read: seq<Bytes>)
    requires Scanned(b, read, [])
    ensures Lines(b) == read
  {
    assert read + [] == read;
  }

  /** Reader.ReadAll. */
  method ReadAll(b: Bytes) returns (r: Option<seq<Bytes>>)
    ensures r == Contents(b)
  {
    var records: seq<Bytes>, rest := [], b;
    ghost var read: seq<Bytes> := [];
    while |rest| > 0
      invariant Scanned(b, read, rest) && RecordsOf(read) == Some(records)
      decreases |rest|
    {
      var line := rest[..FirstNewline(rest)];
      RecordsOfSnoc(read, line);
      ScanLine(b, read, rest);
      if |line| >= MAX_TOKEN {
        TooLongStays(read + [line], Lines(AfterLine(rest)));
        return None;
      }
      var token := DropCR(line);
      assert records + [] == records;
      if |token| != 0 {
        records := records + [token];
      }
      read := read + [line];
      rest := AfterLine(rest);
    }
    ScanEnds(b, read);
    return Some(records);
  }

  lemma {:induction false} TooLongStays(a: seq<Bytes>, b: seq<Bytes>)
    requires RecordsOf(a).None?
    ensures RecordsOf(a + b).None?
  {
    if |a| > 0 && |a[0]| < MAX_TOKEN {
      assert (a + b)[1..] == a[1..] + b;
      TooLongStays(a[1..], b);
    }
  }

  /** `count` records in what has been scanned. */
  ghost predicate Counted(b: Bytes, read: seq<Bytes>, rest: Bytes, count: nat) {
    Scanned(b, read, rest) && RecordsOf(read).Some? && |RecordsOf(read).value| == count
  }

  lemma CountLine(b: Bytes, read: seq<Bytes>, rest: Bytes, count: nat)
    requires Counted(b, read, rest, count) && |rest| > 0
    ensures var line := rest[..FirstNewline(rest)];
      if |line| >= MAX_TOKEN then Contents(b) == None
      else Counted(b, read + [line], AfterLine(rest), if |DropCR(line)| > 0 then count + 1 else count)
  {
    var line := rest[..FirstNewline(rest)];
    RecordsOfSnoc(read, line);
    ScanLine(b, read, rest);
    if |line| >= MAX_TOKEN {
      TooLongStays(read + [line], Lines(AfterLine(rest)));
    }
  }

  lemma CountEnds(b: Bytes, read: seq<Bytes>, rest: Bytes, count: nat)
    requires Counted(b, read, rest, count) && |rest| == 0
    ensures Contents(b).Some? && |Contents(b).value| == count
  {
    assert rest == [];
    ScanEnds(b, read);
  }

  /** Reader.RecordCount agrees with ReadAll on every file. */
  method RecordCount(b: Bytes) returns (count: Option<nat>)
    ensures count.None? <==> Contents(b).None?
    ensures count.Some? ==> count.value == |Contents(b).value|
  {
    var n: nat, rest := 0, b;
    ghost var read: seq<Bytes> := [];
    while |rest| > 0
      invariant Counted(b, read, rest, n)
      decreases |rest|
    {
      var line := rest[..FirstNewline(rest)];
      CountLine(b, read, rest, n);
      if |line| >= MAX_TOKEN {
        return None;
      }
      if |DropCR(line)| > 0 {
        n := n + 1;
      }
      read := read + [line];
      rest := AfterLine(rest);
    }
    CountEnds(b, read, rest, n);
    return Some(n);
  }

  // ---------------------------------------------------------------- framing

  /** What appending `records` one after another puts into an empty file. */
  function Joined(records: seq<Bytes>): Bytes {
    if |records| == 0 then [] else Joined(records[..|records| - 1]) + records[|records| - 1] + [NEWLINE]
  }

  predicate NewlineFree(r: Bytes) {
    NEWLINE !in r
  }

  /** A record that survives: not blank, no newline inside, no carriage return at its end, not too long. */
  predicate Framed(r: Bytes) {
    && 0 < |r| < MAX_TOKEN
    && NewlineFree(r)
    && r[|r| - 1] != CARRIAGE_RETURN
  }

  /** The same in numbers: shorter than the 16 MiB buffer of the scanner, without byte 10, not ending in byte 13. */
  lemma FramedIs(r: Bytes)
    ensures Framed(r) <==> 1 <= |r| <= 16_777_215 && 10 !in r && r[|r| - 1] != 13
  {
  }

  lemma FirstNewlineIs(b: Bytes, i: nat)
    requires i <= |b| && (i < |b| ==> b[i] == NEWLINE) && forall j :: 0 <= j < i ==> b[j] != NEWLINE
    ensures FirstNewline(b) == i
  {
  }

  lemma FirstLine(r: Bytes, rest: Bytes)
    requires NewlineFree(r)
    ensures Lines(r + [NEWLINE] + rest) == [r] + Lines(rest)
  {
    var b := r + [NEWLINE] + rest;
    FirstNewlineIs(b, |r|);
    assert b[..|r|] == r && b[|r| + 1..] == rest;
  }

  lemma Assoc<T>(a: seq<T>, b: seq<T>, c: seq<T>, d: seq<T>)
    ensures a + b + c + d == a + (b + c + d)
  {
  }

  lemma LastMoves<T>(s: seq<T>, t: seq<T>)
    requires |s| > 0
    ensures s[..|s| - 1] + ([s[|s| - 1]] + t) == s + t
  {
  }

  /** Newline-free records come back as the lines of the file, whatever unterminated bytes follow. */
  lemma {:induction false} LinesOfJoined(records: seq<Bytes>, tail: Bytes)
    requires forall r :: r in records ==> NewlineFree(r)
    ensures Lines(Joined(records) + tail) == records + Lines(tail)
    decreases |records|
  {
    if |records| == 0 {
      assert [] + tail == tail;
    } else {
      var init, last := records[..|records| - 1], records[|records| - 1];
      Assoc(Joined(init), last, [NEWLINE], tail);
      LinesOfJoined(init, last + [NEWLINE] + tail);
      FirstLine(last, tail);
      LastMoves(records, Lines(tail));
    }
  }

  lemma {:induction false} LinesAreNewlineFree(b: Bytes)
    ensures forall l :: l in Lines(b) ==> NewlineFree(l)
    decreases |b|
  {
    if |b| > 0 {
      LinesAreNewlineFree(AfterLine(b));
    }
  }

  lemma {:induction false} ReadRecordsAre(lines: seq<Bytes>)
    requires RecordsOf(lines).Some? && forall l :: l in lines ==> NewlineFree(l)
    ensures forall r :: r in RecordsOf(lines).value ==> 0 < |r| < MAX_TOKEN && NewlineFree(r)
  {
    if |lines| > 0 {
      ReadRecordsAre(lines[1..]);
      assert NewlineFree(lines[0]);
    }
  }

  function Total(records: seq<Bytes>): nat {
    if |records| == 0 then 0 else |records[0]| + Total(records[1..])
  }

  lemma KeptTotal(line: Bytes, rest: seq<Bytes>)
    ensures Total(Kept(line) + rest) <= |line| + Total(rest)
    ensures Total(Kept(line) + rest) == |line| + Total(rest) ==> |line| == 0 || line[|line| - 1] != CARRIAGE_RETURN
  {
    if |DropCR(line)| > 0 {
      assert ([DropCR(line)] + rest)[1..] == rest;
    } else {
      assert Kept(line) + rest == rest;
    }
  }

  /** Dropped bytes show in the total. */
  lemma {:induction false} ReadTotal(lines: seq<Bytes>)
    requires RecordsOf(lines).Some?
    ensures Total(RecordsOf(lines).value) <= Total(lines)
    ensures Total(RecordsOf(lines).value) == Total(lines) ==>
      forall l :: l in lines && |l| > 0 ==> l[|l| - 1] != CARRIAGE_RETURN
  {
    if |lines| > 0 {
      var rest := RecordsOf(lines[1..]).value;
      ReadTotal(lines[1..]);
      KeptTotal(lines[0], rest);
      if Total(RecordsOf(lines).value) == Total(lines) {
        forall l | l in lines && |l| > 0 ensures l[|l| - 1] != CARRIAGE_RETURN {
          assert l == lines[0] || l in lines[1..];
        }
      }
    }
  }

  lemma {:induction false} FramedRecordsRead(records: seq<Bytes>)
    requires forall r :: r in records ==> Framed(r)
    ensures RecordsOf(records) == Some(records)
  {
    if |records| > 0 {
      assert Framed(records[0]);
      FramedRecordsRead(records[1..]);
      assert records == [records[0]] + records[1..];
    }
  }

  /** Reading returns exactly what was appended if and only if every record is framed. */
  lemma RoundTrip(records: seq<Bytes>)
    ensures Contents(Joined(records)) == Some(records) <==> forall r :: r in records ==> Framed(r)
  {
    var b := Joined(records);
    assert b + [] == b;
    if forall r :: r in records ==> Framed(r) {
      LinesOfJoined(records, []);
      assert records + [] == records;
      FramedRecordsRead(records);
    }
    if Contents(b) == Some(records) {
      LinesAreNewlineFree(b);
      ReadRecordsAre(Lines(b));
      LinesOfJoined(records, []);
      assert records + [] == records;
      ReadTotal(records);
    }
  }

  lemma {:induction false} JoinedSplit(a: seq<Bytes>, b: seq<Bytes>)
    ensures Joined(a + b) == Joined(a) + Joined(b)
  {
    if |b| == 0 {
      assert a + b == a;
    } else {
      assert (a + b)[..|a + b| - 1] == a + b[..|b| - 1];
      JoinedSplit(a, b[..|b| - 1]);
    }
  }

  // ---------------------------------------------------------------- torn files

  /** The bytes of a file cut at `n` are whole records and a part of the next one. */
  lemma {:induction false} CutPoint(records: seq<Bytes>, n: nat)
    requires n <= |Joined(records)|
    ensures exists k: nat, m: nat :: CutAt(records, n, k, m)
  {
    if |records| == 0 {
      assert CutAt(records, n, 0, 0);
    } else {
      var init, last := records[..|records| - 1], records[|records| - 1];
      if n <= |Joined(init)| {
        CutPoint(init, n);
        var k: nat, m: nat :| CutAt(init, n, k, m);
        assert records[..k] == init[..k];
        if k < |init| {
          assert records[k] == init[k];
        }
        assert Joined(records)[..n] == Joined(init)[..n];
        assert CutAt(records, n, k, m);
      } else if n == |Joined(records)| {
        assert records[..|records|] == records;
        assert Joined(records)[..n] == Joined(records) + [];
        assert CutAt(records, n, |records|, 0);
      } else {
        assert CutAt(records, n, |init|, n - |Joined(init)|);
      }
    }
  }

  predicate CutAt(records: seq<Bytes>, n: nat, k: nat, m: nat)
    requires n <= |Joined(records)|
  {
    && k <= |records|
    && (k < |records| ==> m <= |records[k]|) && (k == |records| ==> m == 0)
    && Joined(records)[..n] == Joined(records[..k]) + (if k < |records| then records[k][..m] else [])
  }

  /** A file cut at any byte reads as some of its records and at most one partial record after them. */
  lemma TornFile(records: seq<Bytes>, n: nat)
    requires n <= |Joined(records)| && forall r :: r in records ==> Framed(r)
    ensures exists k, part ::
      && 0 <= k <= |records|
      && Contents(Joined(records)[..n]) == Some(records[..k] + part)
      && (part == [] || (k < |records| && exists m :: 0 < m <= |records[k]| && part == [DropCR(records[k][..m])]))
  {
    CutPoint(records, n);
    var k: nat, m: nat :| CutAt(records, n, k, m);
    var tail := if k < |records| then records[k][..m] else [];
    assert k < |records| ==> Framed(records[k]);
    assert NewlineFree(tail) && |tail| < MAX_TOKEN;
    ReadWithTail(records[..k], tail);
    var part := Kept(tail);
    assert Contents(Joined(records)[..n]) == Some(records[..k] + part);
    assert part == [] || (k < |records| && 0 < m <= |records[k]| && part == [DropCR(records[k][..m])]);
  }

  /** Framed records followed by some bytes of a further line. */
  lemma ReadWithTail(records: seq<Bytes>, tail: Bytes)
    requires forall r :: r in records ==> Framed(r)
    requires NewlineFree(tail) && |tail| < MAX_TOKEN
    ensures Contents(Joined(records) + tail) == Some(records + Kept(tail))
  {
    assert Lines(Joined(records) + tail) == records + Lines(tail) by {
      LinesOfJoined(records, tail);
    }
    RecordsWithTail(records, tail);
  }

  lemma RecordsWithTail(records: seq<Bytes>, tail: Bytes)
    requires forall r :: r in records ==> Framed(r)
    requires NewlineFree(tail) && |tail| < MAX_TOKEN
    ensures RecordsOf(records + Lines(tail)) == Some(records + Kept(tail))
  {
    FramedRecordsRead(records);
    if |tail| == 0 {
      assert Lines(tail) == [] && Kept(tail) == [] && records + [] == records;
    } else {
      FirstNewlineIs(tail, |tail|);
      OneLine(tail);
      RecordsOfSnoc(records, tail);
    }
  }

  lemma OneLine(b: Bytes)
    requires |b| > 0 && FirstNewline(b) == |b|
    ensures Lines(b) == [b]
  {
    var none: Bytes := [];
    assert b[..|b|] == b && AfterLine(b) == none && Lines(none) == [];
  }

  /**
    What comes after a cut: the next record is glued to the fragment and lost, reading as one line
    with it, and all records before and after are read as they are.
   */
  lemma GluedRecord(records: seq<Bytes>, fragment: Bytes, next: Bytes, more: seq<Bytes>)
    requires (forall r :: r in records ==> Framed(r)) && Framed(next) && forall r :: r in more ==> Framed(r)
    requires NewlineFree(fragment) && |fragment| > 0
    ensures var read := Contents(Joined(records) + fragment + Joined([next] + more));
      if |fragment + next| >= MAX_TOKEN then read == None
      else read == Some(records + [fragment + next] + more) && fragment + next != next
  {
    var line := fragment + next;
    var file := Joined(records) + fragment + Joined([next] + more);
    assert line[|line| - 1] == next[|next| - 1];
    JoinedSplit([next], more);
    assert [next][..0] == [] && Joined([next]) == next + [NEWLINE];
    RegroupFile(Joined(records), fragment, next, [NEWLINE], Joined(more));
    assert file == Joined(records) + (line + [NEWLINE] + Joined(more));
    LinesOfJoined(records, line + [NEWLINE] + Joined(more));
    FirstLine(line, Joined(more));
    LinesOfFramed(more);
    assert Lines(file) == records + ([line] + more);
    LineBetween(records, line, more);
  }

  lemma RegroupFile<T>(a: seq<T>, b: seq<T>, c: seq<T>, d: seq<T>, e: seq<T>)
    ensures a + b + (c + d + e) == a + (b + c + d + e)
  {
  }

  lemma LinesOfFramed(records: seq<Bytes>)
    requires forall r :: r in records ==> Framed(r)
    ensures Lines(Joined(records)) == records
  {
    LinesOfJoined(records, []);
    EmptyTail(Joined(records));
    EmptyTail(records);
    var none: Bytes := [];
    assert Lines(none) == [];
  }

  lemma {:induction false} LineBetween(records: seq<Bytes>, line: Bytes, more: seq<Bytes>)
    requires (forall r :: r in records ==> Framed(r)) && forall r :: r in more ==> Framed(r)
    requires |line| > 0 && line[|line| - 1] != CARRIAGE_RETURN
    ensures RecordsOf(records + ([line] + more))
      == if |line| >= MAX_TOKEN then None else Some(records + [line] + more)
  {
    if |records| == 0 {
      assert records + ([line] + more) == [line] + more && ([line] + more)[1..] == more;
      assert records + [line] + more == [line] + more && Kept(line) == [line];
      FramedRecordsRead(more);
    } else {
      var all := records + ([line] + more);
      assert all[0] == records[0] && all[1..] == records[1..] + ([line] + more);
      assert Framed(records[0]);
      LineBetween(records[1..], line, more);
      assert [records[0]] + (records[1..] + [line] + more) == records + [line] + more;
    }
  }

  // ---------------------------------------------------------------- locations

  datatype Location = Location(path: string, offset: nat, size: nat)

  /** Reader.ReadAt: up to `size` bytes from `offset`, fewer at the end of the file. */
  function ReadAt(b: Bytes, offset: nat, size: nat): Bytes {
    if offset >= |b| then [] else if offset + size <= |b| then b[offset..offset + size] else b[offset..]
  }

  // ---------------------------------------------------------------- rotation

  function PadTo3(n: nat): (p: string)
    ensures |p| > 0 && forall k :: 0 <= k < |p| ==> '0' <= p[k] <= '9'
  {
    var s := Decimal(n);
    if |s| == 1 then "00" + s else if |s| == 2 then "0" + s else s
  }

  /** Generation 0 is the day file itself, generation i its i-th rotation. */
  function Generation(base: string, i: nat): string {
    if i == 0 then base else base + "_" + PadTo3(i)
  }

  lemma PadValue(n: nat)
    ensures DigitPrefix(PadTo3(n)) == PadTo3(n) && DigitsValue(PadTo3(n)) == n
  {
    var s := Decimal(n);
    DigitPrefixOfDigits(PadTo3(n));
    DecimalValue(n);
    if |s| == 1 {
      LeadingZero(s);
      assert "00" + s == "0" + ("0" + s);
      LeadingZero("0" + s);
    } else if |s| == 2 {
      LeadingZero(s);
    }
  }

  lemma {:induction false} NoLeadingZero(n: nat)
    requires n > 0
    ensures Decimal(n)[0] != '0'
  {
    if n >= 10 {
      NoLeadingZero(n / 10);
      assert Decimal(n)[0] == Decimal(n / 10)[0];
    }
  }

  /** The suffix of a rotation: its number, with zeros in front up to three digits and no further. */
  lemma RotationSuffix(base: string, i: nat)
    requires i > 0
    ensures exists digits ::
      (&& Generation(base, i) == base + "_" + digits
       && |digits| >= 3 && DigitPrefix(digits) == digits && DigitsValue(digits) == i && (|digits| > 3 ==> digits[0] != '0'))
  {
    PadValue(i);
    NoLeadingZero(i);
    assert Generation(base, i) == base + "_" + PadTo3(i);
  }

  lemma {:induction false} LeadingZero(s: string)
    requires forall i :: 0 <= i < |s| ==> '0' <= s[i] <= '9'
    ensures DigitsValue("0" + s) == DigitsValue(s)
  {
    if s == "" {
      assert ("0" + s)[..0] == "";
    } else {
      assert ("0" + s)[..|s|] == "0" + s[..|s| - 1];
      LeadingZero(s[..|s| - 1]);
    }
  }

  /** Different generations have different names. */
  lemma GenerationsDiffer(base: string, i: nat, j: nat)
    requires Generation(base, i) == Generation(base, j)
    ensures i == j
  {
    PadValue(i);
    PadValue(j);
    assert i == 0 <==> |Generation(base, i)| == |base|;
    assert j == 0 <==> |Generation(base, j)| == |base|;
    if i > 0 {
      assert Generation(base, i)[|base| + 1..] == PadTo3(i);
      assert Generation(base, j)[|base| + 1..] == PadTo3(j);
    }
  }

  predicate HasSuffix(s: string, suffix: string) {
    |suffix| <= |s| && s[|s| - |suffix|..] == suffix
  }

  /** The scanner's test on names sees a day file but none of its rotations. */
  lemma RotationsAreInvisible(base: string, i: nat)
    requires HasSuffix(base, ".jsonl")
    ensures HasSuffix(Generation(base, i), ".jsonl") <==> i == 0
  {
    if i > 0 {
      var s, p := Generation(base, i), PadTo3(i);
      assert s[|s| - 1] == p[|p| - 1];
      assert '0' <= p[|p| - 1] <= '9';
      assert ".jsonl"[5] == 'l';
      assert s[|s| - 6..][5] == s[|s| - 1];
    }
  }

  type FileMap = map<string, Bytes>

  function Size(files: FileMap, name: string): nat {
    if name in files then |files[name]| else 0
  }

  predicate Full(files: FileMap, name: string, limit: int) {
    name in files && |files[name]| >= limit
  }

  /** The generation an append goes to: the first that is missing or not full. */
  ghost predicate IsTarget(files: FileMap, base: string, limit: int, i: nat) {
    && !Full(files, Generation(base, i), limit)
    && forall j: nat :: j < i ==> Full(files, Generation(base, j), limit)
  }

  /** The names of the first `n` generations. */
  ghost function NamesUpTo(base: string, n: nat): set<string> {
    if n == 0 then {} else NamesUpTo(base, n - 1) + {Generation(base, n - 1)}
  }

  lemma {:induction false} NamesAreGenerations(base: string, n: nat, name: string)
    requires name in NamesUpTo(base, n)
    ensures exists j: nat :: j < n && name == Generation(base, j)
  {
    if name != Generation(base, n - 1) {
      NamesAreGenerations(base, n - 1, name);
    }
  }

  lemma {:induction false} NamesAreDistinct(base: string, n: nat)
    ensures |NamesUpTo(base, n)| == n
  {
    if n > 0 {
      NamesAreDistinct(base, n - 1);
      var last := Generation(base, n - 1);
      if last in NamesUpTo(base, n - 1) {
        NamesAreGenerations(base, n - 1, last);
        var j: nat :| j < n - 1 && last == Generation(base, j);
        GenerationsDiffer(base, j, n - 1);
      }
    }
  }

  /** The generations before `n` are as many files. */
  lemma GenerationCount(files: FileMap, base: string, n: nat)
    requires forall j: nat :: j < n ==> Generation(base, j) in files
    ensures n <= |files|
  {
    NamesAreDistinct(base, n);
    forall name | name in NamesUpTo(base, n) ensures name in files.Keys {
      NamesAreGenerations(base, n, name);
    }
    SubsetSize(NamesUpTo(base, n), files.Keys);
  }

  class Writer {
    var files: FileMap
    const maxShardSize: int

    constructor (maxShardSize: int)
      ensures files == map[] && this.maxShardSize == maxShardSize
    {
      this.maxShardSize := maxShardSize;
      files := map[];
    }

    /** rotateIfNeeded. The search ends: it only passes over files that exist. */
    method RotateIfNeeded(base: string) returns (target: string, ghost generation: nat)
      requires maxShardSize > 0
      ensures target == Generation(base, generation) && IsTarget(files, base, maxShardSize, generation)
      ensures !Full(files, target, maxShardSize)
    {
      if base !in files {
        return base, 0;
      }
      if |files[base]| < maxShardSize {
        return base, 0;
      }
      var i := 1;
      while true
        invariant i >= 1
        invariant forall j: nat :: j < i ==> Full(files, Generation(base, j), maxShardSize)
        decreases |files| - i
      {
        GenerationCount(files, base, i);
        var candidate := base + "_" + PadTo3(i);
        if candidate !in files || |files[candidate]| < maxShardSize {
          return candidate, i;
        }
        if i == |files| {
          GenerationCount(files, base, i + 1);
        }
        i := i + 1;
      }
    }

    /** Writer.Append: the line goes to the end of the target file, and the location is where it went. */
    method Append(base: string, data: Bytes) returns (loc: Location, ghost generation: nat)
      modifies this
      ensures maxShardSize <= 0 ==> generation == 0
      ensures maxShardSize > 0 ==> IsTarget(old(files), base, maxShardSize, generation)
      ensures maxShardSize > 0 ==> AppendStep(maxShardSize, old(files), (base, data), files)
      ensures loc == Location(Generation(base, generation), Size(old(files), loc.path), |data| + 1)
      ensures files == Appended(old(files), loc.path, data)
    {
      var target := base;
      generation := 0;
      if maxShardSize > 0 {
        target, generation := RotateIfNeeded(base);
      }
      var offset := Size(files, target);
      var line := data + [NEWLINE];
      files := files[target := (if target in files then files[target] else []) + line];
      loc := Location(target, offset, |line|);
    }
  }

  function Appended(files: FileMap, name: string, data: Bytes): FileMap {
    files[name := (if name in files then files[name] else []) + (data + [NEWLINE])]
  }

  /** Appends to any files, each to some target. */
  function AppendedAll(files: FileMap, appends: seq<(string, Bytes)>): FileMap {
    if |appends| == 0 then files
    else
      var (name, data) := appends[|appends| - 1];
      Appended(AppendedAll(files, appends[..|appends| - 1]), name, data)
  }

  lemma {:induction false} FilesOnlyGrow(files: FileMap, appends: seq<(string, Bytes)>, name: string)
    requires name in files
    ensures name in AppendedAll(files, appends) && files[name] <= AppendedAll(files, appends)[name]
  {
    if |appends| > 0 {
      FilesOnlyGrow(files, appends[..|appends| - 1], name);
    }
  }

  /** The location of an append reads back its own line, whatever is appended later and where. */
  lemma {:induction false} LocationsStay(files: FileMap, name: string, data: Bytes, later: seq<(string, Bytes)>)
    ensures var all := AppendedAll(Appended(files, name, data), later);
      name in all && ReadAt(all[name], Size(files, name), |data| + 1) == data + [NEWLINE]
  {
    FilesOnlyGrow(Appended(files, name, data), later, name);
    var one, all := Appended(files, name, data)[name], AppendedAll(Appended(files, name, data), later)[name];
    assert all[..|one|] == one;
    assert all[Size(files, name)..Size(files, name) + |data| + 1] == one[Size(files, name)..];
  }

  // ---------------------------------------------------------------- the generations of one day

  /** Generations 0 .. n-1 exist, no others, and all but the last are full. */
  ghost predicate Chain(files: FileMap, base: string, limit: int, n: nat) {
    && (forall i: nat :: Generation(base, i) in files <==> i < n)
    && (forall i: nat :: i + 1 < n ==> Full(files, Generation(base, i), limit))
  }

  /** The bytes of the first `n` generations, one after another. */
  function ChainBytes(files: FileMap, base: string, n: nat): Bytes {
    if n == 0 then []
    else ChainBytes(files, base, n - 1) + (if Generation(base, n - 1) in files then files[Generation(base, n - 1)] else [])
  }

  lemma {:induction false} ChainBytesFrame(files: FileMap, base: string, n: nat, i: nat, data: Bytes)
    requires n <= i
    ensures ChainBytes(Appended(files, Generation(base, i), data), base, n) == ChainBytes(files, base, n)
  {
    if n > 0 {
      ChainBytesFrame(files, base, n - 1, i, data);
      if Generation(base, n - 1) == Generation(base, i) {
        GenerationsDiffer(base, n - 1, i);
      }
    }
  }

  lemma TargetIsLastOrNext(files: FileMap, base: string, limit: int, n: nat, i: nat)
    requires Chain(files, base, limit, n) && IsTarget(files, base, limit, i)
    ensures i == n || i + 1 == n
  {
    assert !Full(files, Generation(base, n), limit);
    assert i + 1 < n ==> Full(files, Generation(base, i), limit);
  }

  lemma AppendExtendsChain(files: FileMap, base: string, limit: int, n: nat, i: nat, data: Bytes)
    requires limit > 0 && Chain(files, base, limit, n) && IsTarget(files, base, limit, i) && (i == n || i + 1 == n)
    ensures Chain(Appended(files, Generation(base, i), data), base, limit, if i == n then n + 1 else n)
  {
    var after, m := Appended(files, Generation(base, i), data), if i == n then n + 1 else n;
    forall j: nat ensures Generation(base, j) in after <==> j < m {
      if Generation(base, j) == Generation(base, i) {
        GenerationsDiffer(base, j, i);
      }
    }
    forall j: nat | j + 1 < m ensures Full(after, Generation(base, j), limit) {
      assert Full(files, Generation(base, j), limit);
    }
  }

  /**
    Under a fixed limit an append either extends the last generation or starts the next one, so the
    generations stay full but for the last and, put together, are the lines in the order appended.
   */
  lemma AppendKeepsChain(files: FileMap, base: string, limit: int, n: nat, i: nat, data: Bytes)
    requires limit > 0 && Chain(files, base, limit, n) && IsTarget(files, base, limit, i)
    ensures i == n || i + 1 == n
    ensures var after, m := Appended(files, Generation(base, i), data), if i == n then n + 1 else n;
      && Chain(after, base, limit, m)
      && ChainBytes(after, base, m) == ChainBytes(files, base, n) + (data + [NEWLINE])
  {
    TargetIsLastOrNext(files, base, limit, n, i);
    AppendExtendsChain(files, base, limit, n, i, data);
    assert n == i + 1 <==> Generation(base, i) in files;
    AppendedBytes(files, base, n, i, data);
  }

  lemma AppendedBytes(files: FileMap, base: string, n: nat, i: nat, data: Bytes)
    requires i == n || i + 1 == n
    requires n == i + 1 <==> Generation(base, i) in files
    ensures ChainBytes(Appended(files, Generation(base, i), data), base, i + 1) == ChainBytes(files, base, n) + (data + [NEWLINE])
  {
    ChainBytesFrame(files, base, i, i, data);
    var line, was := data + [NEWLINE], if Generation(base, i) in files then files[Generation(base, i)] else [];
    AssocThree(ChainBytes(files, base, i), was, line);
    EmptyTail(ChainBytes(files, base, i));
  }

  lemma EmptyTail<T>(a: seq<T>)
    ensures a + [] == a
  {
  }

  /** One call of Append under a limit, to the day file `append.0`. */
  ghost predicate AppendStep(limit: int, before: FileMap, append: (string, Bytes), after: FileMap) {
    exists i: nat :: IsTarget(before, append.0, limit, i) && after == Appended(before, Generation(append.0, i), append.1)
  }

  /** The directory after each of a series of appends, to day files of any kind and in any order. */
  ghost predicate IsWriting(limit: int, appends: seq<(string, Bytes)>, states: seq<FileMap>) {
    && |states| == |appends| + 1
    && forall n :: 0 <= n < |appends| ==> AppendStep(limit, states[n], appends[n], states[n + 1])
  }

  predicate ToDayFiles(appends: seq<(string, Bytes)>) {
    forall n :: 0 <= n < |appends| ==> HasSuffix(appends[n].0, ".jsonl")
  }

  /** The records appended to one day, in order. */
  function AppendedTo(appends: seq<(string, Bytes)>, base: string): seq<Bytes> {
    if |appends| == 0 then []
    else
      var last := appends[|appends| - 1];
      AppendedTo(appends[..|appends| - 1], base) + (if last.0 == base then [last.1] else [])
  }

  /** Different day files share no generation. */
  lemma DaysAreApart(base: string, i: nat, other: string, j: nat)
    requires HasSuffix(base, ".jsonl") && HasSuffix(other, ".jsonl") && base != other
    ensures Generation(base, i) != Generation(other, j)
  {
    RotationsAreInvisible(base, i);
    RotationsAreInvisible(other, j);
    if i > 0 && j > 0 && Generation(base, i) == Generation(other, j) {
      SameNumber(base, PadTo3(i), other, PadTo3(j));
    }
  }

  /** A name splits at its last underscore. */
  lemma SameNumber(base: string, number: string, other: string, digits: string)
    requires base + "_" + number == other + "_" + digits
    requires (forall k :: 0 <= k < |number| ==> '0' <= number[k] <= '9') && forall k :: 0 <= k < |digits| ==> '0' <= digits[k] <= '9'
    ensures base == other
  {
    var name := base + "_" + number;
    assert name[|base|] == '_' && name[|other|] == '_';
    assert forall k :: |base| < k < |name| ==> name[k] == number[k - |base| - 1];
    assert forall k :: |other| < k < |name| ==> name[k] == digits[k - |other| - 1];
    assert |base| == |other|;
    assert name[..|base|] == base && name[..|other|] == other;
  }

  /** `n` generations hold all the records, and the day file the first `k` of them. */
  ghost predicate DayHolds(files: FileMap, base: string, limit: int, records: seq<Bytes>, n: nat, k: nat) {
    && Chain(files, base, limit, n) && ChainBytes(files, base, n) == Joined(records)
    && (n == 0 <==> records == [])
    && k <= |records| && (if base in files then files[base] else []) == Joined(records[..k])
    && (k < |records| <==> n > 1)
    && (k < |records| ==> |Joined(records[..k])| >= limit)
    && (0 < k ==> |Joined(records[..k - 1])| < limit)
  }

  lemma JoinedLast(records: seq<Bytes>)
    requires |records| > 0
    ensures Joined(records) == Joined(records[..|records| - 1]) + (records[|records| - 1] + [NEWLINE])
  {
  }

  /** The next append to a day that is still in its first file. */
  lemma DayGrowsFirst(mid: FileMap, base: string, limit: int, records: seq<Bytes>, n: nat, k: nat)
    requires |records| > 0 && limit > 0 && DayHolds(mid, base, limit, records[..|records| - 1], n, k)
    requires IsTarget(mid, base, limit, 0)
    ensures DayHolds(Appended(mid, base, records[|records| - 1]), base, limit, records, 1, |records|)
  {
    var init, last := records[..|records| - 1], records[|records| - 1];
    AppendKeepsChain(mid, base, limit, n, 0, last);
    JoinedLast(records);
    assert Generation(base, 0) == base && (Generation(base, 0) in mid <==> 0 < n);
    assert k == |init| && init[..k] == init;
    assert records[..|records|] == records;
  }

  /** The next append to a day that has been rotated, or is now. */
  lemma DayGrowsLater(mid: FileMap, base: string, limit: int, records: seq<Bytes>, n: nat, k: nat, i: nat)
    requires |records| > 0 && limit > 0 && DayHolds(mid, base, limit, records[..|records| - 1], n, k)
    requires IsTarget(mid, base, limit, i) && i > 0
    ensures DayHolds(Appended(mid, Generation(base, i), records[|records| - 1]), base, limit, records, if i == n then n + 1 else n, k)
  {
    var init, last := records[..|records| - 1], records[|records| - 1];
    var after, m := Appended(mid, Generation(base, i), last), if i == n then n + 1 else n;
    assert Chain(after, base, limit, m) && ChainBytes(after, base, m) == Joined(records) && m > 1 by {
      AppendKeepsChain(mid, base, limit, n, i, last);
      JoinedLast(records);
    }
    assert base in mid && |mid[base]| >= limit && base in after && after[base] == mid[base] by {
      assert Full(mid, Generation(base, 0), limit) && Generation(base, 0) == base;
      if Generation(base, i) == Generation(base, 0) {
        GenerationsDiffer(base, i, 0);
      }
    }
    PrefixOfInit(records, k);
    assert init[..|init|] == init;
  }

  lemma PrefixOfInit<T>(s: seq<T>, k: nat)
    requires k < |s|
    ensures s[..k] == s[..|s| - 1][..k]
    ensures k > 0 ==> s[..k - 1] == s[..|s| - 1][..k - 1]
  {
  }

  lemma DayGrows(mid: FileMap, base: string, limit: int, records: seq<Bytes>, n: nat, k: nat, i: nat)
      returns (n': nat, k': nat)
    requires |records| > 0 && limit > 0 && DayHolds(mid, base, limit, records[..|records| - 1], n, k)
    requires IsTarget(mid, base, limit, i)
    ensures DayHolds(Appended(mid, Generation(base, i), records[|records| - 1]), base, limit, records, n', k')
  {
    if i == 0 {
      DayGrowsFirst(mid, base, limit, records, n, k);
      n', k' := 1, |records|;
    } else {
      DayGrowsLater(mid, base, limit, records, n, k, i);
      n', k' := if i == n then n + 1 else n, k;
    }
  }

  lemma DayStarts(before: FileMap, base: string, limit: int)
    requires Chain(before, base, limit, 0)
    ensures DayHolds(before, base, limit, [], 0, 0)
  {
    assert Generation(base, 0) !in before;
    var none: seq<Bytes> := [];
    assert none[..0] == [];
  }

  lemma {:induction false} ChainBytesApart(files: FileMap, base: string, n: nat, name: string, data: Bytes)
    requires forall j: nat :: Generation(base, j) != name
    ensures ChainBytes(Appended(files, name, data), base, n) == ChainBytes(files, base, n)
  {
    if n > 0 {
      ChainBytesApart(files, base, n - 1, name, data);
    }
  }

  /** An append to another day. */
  lemma DayStays(files: FileMap, base: string, limit: int, records: seq<Bytes>, n: nat, k: nat, name: string, data: Bytes)
    requires DayHolds(files, base, limit, records, n, k)
    requires forall j: nat :: Generation(base, j) != name
    ensures DayHolds(Appended(files, name, data), base, limit, records, n, k)
  {
    ChainBytesApart(files, base, n, name, data);
    assert Generation(base, 0) == base;
    var after := Appended(files, name, data);
    forall j: nat ensures Generation(base, j) in after <==> Generation(base, j) in files {
    }
    forall j: nat | j + 1 < n ensures Full(after, Generation(base, j), limit) {
      assert Full(files, Generation(base, j), limit);
    }
  }

  lemma OneAppend(before: FileMap, append: (string, Bytes), after: FileMap, base: string, limit: int, records: seq<Bytes>, n: nat, k: nat)
      returns (n': nat, k': nat)
    requires limit > 0 && AppendStep(limit, before, append, after)
    requires HasSuffix(append.0, ".jsonl") && HasSuffix(base, ".jsonl")
    requires DayHolds(before, base, limit, records, n, k)
    ensures DayHolds(after, base, limit, records + (if append.0 == base then [append.1] else []), n', k')
  {
    var i: nat :| IsTarget(before, append.0, limit, i) && after == Appended(before, Generation(append.0, i), append.1);
    if append.0 == base {
      var all := records + [append.1];
      assert all[..|all| - 1] == records;
      n', k' := DayGrows(before, base, limit, all, n, k, i);
    } else {
      forall j: nat ensures Generation(base, j) != Generation(append.0, i) {
        DaysAreApart(base, j, append.0, i);
      }
      DayStays(before, base, limit, records, n, k, Generation(append.0, i), append.1);
      assert records + [] == records;
      n', k' := n, k;
    }
  }

  /**
    All the generations of a day hold all its records, and the day file alone the first ones,
    whatever is appended to other days in between.
   */
  lemma {:induction false} DayOfRecords(limit: int, appends: seq<(string, Bytes)>, states: seq<FileMap>, base: string, m: nat)
      returns (n: nat, k: nat)
    requires limit > 0 && IsWriting(limit, appends, states) && ToDayFiles(appends) && HasSuffix(base, ".jsonl")
    requires Chain(states[0], base, limit, 0) && m <= |appends|
    ensures DayHolds(states[m], base, limit, AppendedTo(appends[..m], base), n, k)
  {
    if m == 0 {
      DayStarts(states[0], base, limit);
      n, k := 0, 0;
    } else {
      n, k := DayOfRecords(limit, appends, states, base, m - 1);
      AppendedToLast(appends, base, m);
      n, k := NextDay(limit, appends, states, base, m, AppendedTo(appends[..m - 1], base), n, k);
    }
  }

  lemma AppendedToLast(appends: seq<(string, Bytes)>, base: string, m: nat)
    requires 0 < m <= |appends|
    ensures AppendedTo(appends[..m], base)
      == AppendedTo(appends[..m - 1], base) + (if appends[m - 1].0 == base then [appends[m - 1].1] else [])
  {
    assert appends[..m][..m - 1] == appends[..m - 1];
  }

  lemma NextDay(limit: int, appends: seq<(string, Bytes)>, states: seq<FileMap>, base: string, m: nat, records: seq<Bytes>, n: nat, k: nat)
      returns (n': nat, k': nat)
    requires limit > 0 && IsWriting(limit, appends, states) && ToDayFiles(appends) && HasSuffix(base, ".jsonl")
    requires 0 < m <= |appends| && DayHolds(states[m - 1], base, limit, records, n, k)
    ensures DayHolds(states[m], base, limit, records + (if appends[m - 1].0 == base then [appends[m - 1].1] else []), n', k')
  {
    assert AppendStep(limit, states[m - 1], appends[m - 1], states[m - 1 + 1]);
    n', k' := OneAppend(states[m - 1], appends[m - 1], states[m], base, limit, records, n, k);
  }

  lemma DayFileHolds(files: FileMap, base: string, limit: int, records: seq<Bytes>, n: nat, k: nat)
    requires DayHolds(files, base, limit, records, n, k) && records != []
    ensures base in files && k <= |records| && files[base] == Joined(records[..k])
    ensures k < |records| ==> |Joined(records[..k])| >= limit
    ensures 0 < k ==> |Joined(records[..k - 1])| < limit
  {
    assert Generation(base, 0) in files;
  }

  /**
    What a rebuild can see of a day, after any appends to any days. The scanner passes over rotated
    files, so it sees every record of a day exactly when the day file was still below the limit
    before its last append.
   */
  lemma RotationHidesRecords(limit: int, appends: seq<(string, Bytes)>, states: seq<FileMap>, base: string)
    requires limit > 0 && IsWriting(limit, appends, states) && ToDayFiles(appends)
    requires HasSuffix(base, ".jsonl") && Chain(states[0], base, limit, 0)
    requires AppendedTo(appends, base) != [] && forall r :: r in AppendedTo(appends, base) ==> Framed(r)
    ensures SeenExactly(states[|appends|], base, limit, AppendedTo(appends, base))
  {
    var n, k := DayOfRecords(limit, appends, states, base, |appends|);
    assert appends[..|appends|] == appends;
    DaySeen(states[|appends|], base, limit, AppendedTo(appends, base), n, k);
  }

  /** The day file shows all of `records` exactly when those before the last stayed below the limit. */
  ghost predicate SeenExactly(files: FileMap, base: string, limit: int, records: seq<Bytes>)
    requires records != []
  {
    base in files && (Contents(files[base]) == Some(records) <==> |Joined(records[..|records| - 1])| < limit)
  }

  lemma DaySeen(files: FileMap, base: string, limit: int, records: seq<Bytes>, n: nat, k: nat)
    requires DayHolds(files, base, limit, records, n, k)
    requires records != [] && forall r :: r in records ==> Framed(r)
    ensures SeenExactly(files, base, limit, records)
  {
    DayFileHolds(files, base, limit, records, n, k);
    SeenWhenBelow(records, limit, k);
  }

  lemma SeenWhenBelow(records: seq<Bytes>, limit: int, k: nat)
    requires records != [] && forall r :: r in records ==> Framed(r)
    requires k <= |records|
    requires k < |records| ==> |Joined(records[..k])| >= limit
    requires 0 < k ==> |Joined(records[..k - 1])| < limit
    ensures Contents(Joined(records[..k])) == Some(records) <==> |Joined(records[..|records| - 1])| < limit
  {
    FirstRecordsRead(records, k);
    if k == |records| {
      assert records[..k] == records;
    } else {
      PrefixIsShorter(records, k);
      assert |records[..k]| != |records|;
    }
  }

  lemma PrefixIsShorter(records: seq<Bytes>, k: nat)
    requires k < |records|
    ensures |Joined(records[..k])| <= |Joined(records[..|records| - 1])|
  {
    var init := records[..|records| - 1];
    assert init == records[..k] + init[k..];
    JoinedSplit(records[..k], init[k..]);
  }

  lemma FirstRecordsRead(records: seq<Bytes>, k: nat)
    requires k <= |records| && forall r :: r in records ==> Framed(r)
    ensures Contents(Joined(records[..k])) == Some(records[..k])
  {
    RoundTrip(records[..k]);
  }
}
