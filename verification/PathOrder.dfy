/**
  Why replaying files in the order of their path texts is replaying them in the order of their
  days: shard paths spell the date with a fixed number of digits, largest unit first.
 */
module PathOrder {
  import opened Domain

  datatype Date = Date(year: nat, month: nat, day: nat)

  predicate DateBefore(a: Date, b: Date) {
    || a.year < b.year
    || (a.year == b.year && a.month < b.month)
    || (a.year == b.year && a.month == b.month && a.day < b.day)
  }

  /** Dates that the layout 2006-01-02 writes with ten characters. */
  predicate Writable(d: Date) {
    d.year < 10000 && d.month < 100 && d.day < 100
  }

  /** Go's `<` on strings. */
  predicate TextBefore(s: string, t: string) {
    if t == "" then false
    else if s == "" then true
    else s[0] < t[0] || (s[0] == t[0] && TextBefore(s[1..], t[1..]))
  }

  function Power(w: nat): nat {
    if w == 0 then 1 else 10 * Power(w - 1)
  }

  /** `n` in exactly `w` digits. */
  function Padded(n: nat, w: nat): (s: string)
    ensures |s| == w
  {
    if w == 0 then "" else Padded(n / 10, w - 1) + [Digit(n % 10)]
  }

  function YearMonth(d: Date): string {
    Padded(d.year, 4) + ("-" + Padded(d.month, 2))
  }

  /** shardPath: <root>/shards/<type>/<year-month>/<date>.jsonl, `directory` being all before the year. */
  function ShardPath(directory: string, d: Date): string {
    directory + (YearMonth(d) + ("/" + (YearMonth(d) + ("-" + (Padded(d.day, 2) + ".jsonl")))))
  }

  /** Texts that begin with parts of the same length compare by those parts first. */
  lemma {:induction false} PartsFirst(a: string, s: string, b: string, t: string)
    requires |a| == |b|
    ensures TextBefore(a + s, b + t) <==> TextBefore(a, b) || (a == b && TextBefore(s, t))
  {
    if a == "" {
      assert a + s == s && b + t == t;
    } else {
      assert (a + s)[1..] == a[1..] + s && (b + t)[1..] == b[1..] + t;
      assert a == b <==> a[0] == b[0] && a[1..] == b[1..];
      PartsFirst(a[1..], s, b[1..], t);
    }
  }

  lemma {:induction false} NotBeforeItself(s: string)
    ensures !TextBefore(s, s)
  {
    if s != "" {
      NotBeforeItself(s[1..]);
    }
  }

  lemma {:induction false} PaddedOrder(m: nat, n: nat, w: nat)
    requires m < Power(w) && n < Power(w)
    ensures TextBefore(Padded(m, w), Padded(n, w)) <==> m < n
    ensures Padded(m, w) == Padded(n, w) <==> m == n
  {
    if w > 0 {
      PaddedOrder(m / 10, n / 10, w - 1);
      PartsFirst(Padded(m / 10, w - 1), [Digit(m % 10)], Padded(n / 10, w - 1), [Digit(n % 10)]);
      assert Padded(m, w)[..w - 1] == Padded(m / 10, w - 1) && Padded(n, w)[..w - 1] == Padded(n / 10, w - 1);
      assert Padded(m, w)[w - 1] == Digit(m % 10) && Padded(n, w)[w - 1] == Digit(n % 10);
    }
  }

  lemma SamePrefix(a: string, s: string, t: string)
    ensures TextBefore(a + s, a + t) <==> TextBefore(s, t)
  {
    PartsFirst(a, s, a, t);
    NotBeforeItself(a);
  }

  lemma YearMonthOrder(a: Date, b: Date)
    requires Writable(a) && Writable(b)
    ensures TextBefore(YearMonth(a), YearMonth(b)) <==> a.year < b.year || (a.year == b.year && a.month < b.month)
    ensures YearMonth(a) == YearMonth(b) <==> a.year == b.year && a.month == b.month
  {
    Powers();
    PaddedOrder(a.year, b.year, 4);
    PaddedOrder(a.month, b.month, 2);
    PartsFirst(Padded(a.year, 4), "-" + Padded(a.month, 2), Padded(b.year, 4), "-" + Padded(b.month, 2));
    SamePrefix("-", Padded(a.month, 2), Padded(b.month, 2));
    assert YearMonth(a)[..4] == Padded(a.year, 4) && YearMonth(b)[..4] == Padded(b.year, 4);
    assert YearMonth(a)[5..] == Padded(a.month, 2) && YearMonth(b)[5..] == Padded(b.month, 2);
  }

  lemma Powers()
    ensures Power(2) == 100 && Power(4) == 10000
  {
    assert Power(1) == 10 && Power(2) == 100 && Power(3) == 1000;
  }

  lemma DayPartOrder(a: Date, b: Date)
    requires Writable(a) && Writable(b)
    ensures TextBefore("-" + (Padded(a.day, 2) + ".jsonl"), "-" + (Padded(b.day, 2) + ".jsonl")) <==> a.day < b.day
  {
    Powers();
    PaddedOrder(a.day, b.day, 2);
    SamePrefix("-", Padded(a.day, 2) + ".jsonl", Padded(b.day, 2) + ".jsonl");
    PartsFirst(Padded(a.day, 2), ".jsonl", Padded(b.day, 2), ".jsonl");
    NotBeforeItself(".jsonl");
  }

  /** Within one directory the paths are in text order exactly when their dates are in time order. */
  lemma PathTextOrder(directory: string, a: Date, b: Date)
    requires Writable(a) && Writable(b)
    ensures TextBefore(ShardPath(directory, a), ShardPath(directory, b)) <==> DateBefore(a, b)
  {
    var aDay, bDay := "-" + (Padded(a.day, 2) + ".jsonl"), "-" + (Padded(b.day, 2) + ".jsonl");
    SamePrefix(directory, YearMonth(a) + ("/" + (YearMonth(a) + aDay)), YearMonth(b) + ("/" + (YearMonth(b) + bDay)));
    PartsFirst(YearMonth(a), "/" + (YearMonth(a) + aDay), YearMonth(b), "/" + (YearMonth(b) + bDay));
    SamePrefix("/", YearMonth(a) + aDay, YearMonth(b) + bDay);
    PartsFirst(YearMonth(a), aDay, YearMonth(b), bDay);
    YearMonthOrder(a, b);
    DayPartOrder(a, b);
  }
}
