/**
  Choosing the rule that routes a case. `IsChoice` says what the chosen rule is in terms of
  the rules alone; the adjudicator's filter-and-sort is proved to find it.
 */
module Dispatch {
  import opened Domain

  predicate Eligible(r: Rule, c: Case) {
    IsActiveAt(r, c.registeredAt) && Satisfies(c, r)
  }

  /** Higher priority first, then higher version. */
  predicate Beats(a: Rule, b: Rule) {
    a.priority > b.priority || (a.priority == b.priority && a.version > b.version)
  }

  predicate DistinctVersions(rules: set<Rule>) {
    forall a, b :: a in rules && b in rules && a.version == b.version ==> a == b
  }

  predicate IsChoice(rules: set<Rule>, c: Case, r: Rule) {
    && r in rules && Eligible(r, c)
    && forall q :: q in rules && Eligible(q, c) && q != r ==> Beats(r, q)
  }

  /** The rule that routes `c`, if one does. */
  ghost function Choice(rules: set<Rule>, c: Case): (o: Option<Rule>)
    ensures o.Some? ==> IsChoice(rules, c, o.value)
    ensures o.None? ==> forall r :: !IsChoice(rules, c, r)
  {
    if r :| IsChoice(rules, c, r) then Some(r) else None
  }

  lemma ChoiceIs(rules: set<Rule>, c: Case, r: Rule)
    requires IsChoice(rules, c, r)
    ensures Choice(rules, c) == Some(r)
  {
    var o := Choice(rules, c);
    assert o.Some? && IsChoice(rules, c, o.value);
  }

  function Elements<T>(s: seq<T>): set<T> {
    set x | x in s
  }

  // ---------------------------------------------------------------- ranking

  ghost predicate Ranked(s: seq<Rule>) {
    forall i, j :: 0 <= i < j < |s| ==> !Beats(s[j], s[i])
  }

  /** Insertion into a ranked list. */
  function InsertRanked(r: Rule, s: seq<Rule>): (t: seq<Rule>)
    ensures multiset(t) == multiset(s) + multiset{r}
  {
    if s == [] || Beats(r, s[0]) then [r] + s
    else
      assert s == [s[0]] + s[1..];
      [s[0]] + InsertRanked(r, s[1..])
  }

  lemma {:induction false} InsertKeepsRanked(r: Rule, s: seq<Rule>)
    requires Ranked(s)
    ensures Ranked(InsertRanked(r, s))
    ensures forall x :: x in InsertRanked(r, s) <==> x == r || x in s
  {
    if s == [] || Beats(r, s[0]) {
    } else {
      InsertKeepsRanked(r, s[1..]);
      var t := InsertRanked(r, s[1..]);
      assert s == [s[0]] + s[1..];
      forall j | 0 <= j < |t| ensures !Beats(t[j], s[0]) {
        assert t[j] in t;
      }
    }
  }

  /** sort.Slice with the adjudicator's comparison. Equal elements may land in any order. */
  method SortByRank(matched: seq<Rule>) returns (sorted: seq<Rule>)
    ensures Ranked(sorted)
    ensures multiset(sorted) == multiset(matched)
    ensures forall x :: x in sorted <==> x in matched
  {
    sorted := [];
    for i := 0 to |matched|
      invariant Ranked(sorted)
      invariant multiset(sorted) == multiset(matched[..i])
      invariant forall x :: x in sorted <==> x in matched[..i]
    {
      InsertKeepsRanked(matched[i], sorted);
      assert matched[..i + 1] == matched[..i] + [matched[i]];
      sorted := InsertRanked(matched[i], sorted);
    }
    assert matched[..|matched|] == matched;
  }

  // ---------------------------------------------------------------- adjudication

  function ReferralFor(r: Rule, c: Case, uuid: string, now: Time): Referral {
    Referral(uuid, c.id, r.lead, r.co, r.version, now, "system", true)
  }

  /**
    Adjudicator.Adjudicate. It fails exactly when no rule is eligible; otherwise no eligible
    rule beats the one it names, and with distinct versions that rule is the unique choice.
    The fallback loop over default rules never contributes, since a default rule that is
    active has matched already.
   */
  method Adjudicate(c: Case, rules: seq<Rule>, uuid: string, now: Time) returns (o: Option<Referral>)
    ensures o.None? <==> forall r :: r in rules ==> !Eligible(r, c)
    ensures o.Some? ==>
      exists r :: && r in rules && Eligible(r, c) && o.value == ReferralFor(r, c, uuid, now)
                  && forall q :: q in rules && Eligible(q, c) ==> !Beats(q, r)
    ensures DistinctVersions(Elements(rules)) ==>
      o == match Choice(Elements(rules), c)
           case None => None
           case Some(r) => Some(ReferralFor(r, c, uuid, now))
  {
    var matched := [];
    for i := 0 to |rules|
      invariant forall x :: x in matched <==> x in rules[..i] && Eligible(x, c)
    {
      if IsActiveAt(rules[i], c.registeredAt) {
        var m := Matches(rules[i], c);
        if m {
          matched := matched + [rules[i]];
        }
      }
    }
    assert rules[..|rules|] == rules;
    if |matched| == 0 {
      assert forall r :: r in rules ==> !Eligible(r, c) by {
        forall r | r in rules ensures !Eligible(r, c) {
          assert r !in matched;
        }
      }
      for i := 0 to |rules|
        invariant matched == []
      {
        var rule := rules[i];
        assert rule in rules && !Eligible(rule, c);
        if IsActiveAt(rule, c.registeredAt) && rule.isDefault {
          matched := matched + [rule];
          break;
        }
      }
    }
    if |matched| == 0 {
      return None;
    }
    var sorted := SortByRank(matched);
    assert matched[0] in matched;
    assert sorted != [];
    var chosen := sorted[0];
    assert chosen in rules && Eligible(chosen, c);
    forall q | q in rules && Eligible(q, c)
      ensures !Beats(q, chosen)
    {
      assert q in matched && q in sorted;
    }
    if DistinctVersions(Elements(rules)) {
      assert IsChoice(Elements(rules), c, chosen);
      ChoiceIs(Elements(rules), c, chosen);
    }
    return Some(ReferralFor(chosen, c, uuid, now));
  }

  /** With distinct versions a choice exists exactly when some rule is eligible. */
  lemma {:induction false} ChoiceExists(rules: set<Rule>, c: Case)
    requires DistinctVersions(rules)
    ensures Choice(rules, c).Some? <==> exists r :: r in rules && Eligible(r, c)
  {
    if r0 :| r0 in rules && Eligible(r0, c) {
      var best := BestOf(rules, c, r0);
      ChoiceIs(rules, c, best);
    }
  }

  lemma {:induction false} BestOf(rules: set<Rule>, c: Case, r0: Rule) returns (best: Rule)
    requires DistinctVersions(rules) && r0 in rules && Eligible(r0, c)
    ensures IsChoice(rules, c, best)
    decreases rules
  {
    var rest := rules - {r0};
    if r1 :| r1 in rest && Eligible(r1, c) {
      var b := BestOf(rest, c, r1);
      best := if Beats(r0, b) then r0 else b;
    } else {
      best := r0;
    }
  }

  /** The choice does not depend on the order, or the repetition, of the rules offered. */
  lemma ChoiceIgnoresOrder(s: seq<Rule>, t: seq<Rule>, c: Case)
    requires multiset(s) == multiset(t)
    ensures Choice(Elements(s), c) == Choice(Elements(t), c)
  {
    forall x ensures x in s <==> x in t {
      assert x in multiset(s) <==> x in multiset(t);
    }
    assert Elements(s) == Elements(t);
  }

  /** Over a list ranked as the index returns it, the choice is the first eligible rule. */
  lemma ChoiceIsFirstMatch(s: seq<Rule>, c: Case, i: nat)
    requires Ranked(s) && DistinctVersions(Elements(s))
    requires forall j, k :: 0 <= j < k < |s| ==> s[j] != s[k]
    requires i < |s| && Eligible(s[i], c)
    requires forall j :: 0 <= j < i ==> !Eligible(s[j], c)
    ensures Choice(Elements(s), c) == Some(s[i])
  {
    forall q | q in Elements(s) && Eligible(q, c) && q != s[i]
      ensures Beats(s[i], q)
    {
      var k :| 0 <= k < |s| && s[k] == q;
      assert i < k && !Beats(s[k], s[i]);
    }
    assert IsChoice(Elements(s), c, s[i]);
    ChoiceIs(Elements(s), c, s[i]);
  }

  /** A rule that took effect after a case was registered is never chosen for it. */
  lemma ChoiceIsNotNewer(rules: set<Rule>, c: Case)
    ensures Choice(rules, c).Some? ==> Choice(rules, c).value.effectiveFrom <= c.registeredAt
  {
  }
}
