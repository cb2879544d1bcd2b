/** Walking a series of rising dates from its start, as every question about a schedule does. */
module DateWalk {

  /** Occurrence dates by index, the number of occurrences when positive, and the last date allowed. */
  datatype Series = Series(at: int -> int, count: int, last: int)

  predicate Rises(s: Series, i: int) { s.at(i) < s.at(i + 1) }

  ghost predicate Rising(s: Series) { forall i :: Rises(s, i) }

  lemma {:induction false} Later(s: Series, i: int, j: int)
    requires Rising(s) && i < j
    ensures s.at(i) < s.at(j)
    decreases j - i
  {
    assert Rises(s, j - 1);
    if i < j - 1 {
      Later(s, i, j - 1);
    }
  }

  /** Occurrence i exists: within the count and not past the last date. */
  predicate Occurs(s: Series, i: int) {
    0 <= i && (s.count > 0 ==> i < s.count) && s.at(i) <= s.last
  }

  ghost predicate Scheduled(s: Series, i: int, date: int) { Occurs(s, i) && s.at(i) == date }

  /** The series runs through exactly the dates of a rule. */
  ghost predicate Numbers(s: Series, rule: int -> bool) {
    && (forall i :: 0 <= i ==> rule(s.at(i)))
    && (forall d :: rule(d) ==> exists i :: 0 <= i && s.at(i) == d)
  }

  ghost function UpTo(rule: int -> bool, from: int, last: int): set<int> { set d: int | from <= d <= last && rule(d) }

  lemma RuleDateIsEarlier(s: Series, rule: int -> bool, i: int, d: int)
    requires Rising(s) && Numbers(s, rule) && 0 <= i && rule(d) && d <= s.at(i)
    ensures d == s.at(i) || (i > 0 && d <= s.at(i - 1))
  {
    var k :| 0 <= k && s.at(k) == d;
    if k > i {
      Later(s, i, k);
    } else if k < i - 1 {
      Later(s, k, i - 1);
    }
  }

  /** Counting the dates of the rule counts the occurrences. */
  lemma {:induction false} CountUpTo(s: Series, rule: int -> bool, from: int, i: int)
    requires Rising(s) && Numbers(s, rule) && from <= s.at(0) && 0 <= i
    ensures |UpTo(rule, from, s.at(i))| == i + 1
  {
    forall d | d in UpTo(rule, from, s.at(i)) ensures d == s.at(i) || (i > 0 && d in UpTo(rule, from, s.at(i - 1))) {
      RuleDateIsEarlier(s, rule, i, d);
    }
    if i == 0 {
      assert UpTo(rule, from, s.at(0)) == {s.at(0)};
    } else {
      Later(s, i - 1, i);
      Later(s, 0, i);
      assert UpTo(rule, from, s.at(i)) == UpTo(rule, from, s.at(i - 1)) + {s.at(i)};
      CountUpTo(s, rule, from, i - 1);
    }
  }

  /** The dates from occurrence i on that fall in a window. */
  function Dates(s: Series, from: int, to: int, i: nat): seq<int>
    requires Rising(s)
    decreases s.last + 1 - s.at(i)
  {
    if !Occurs(s, i) || s.at(i) > to then []
    else
      assert Rises(s, i);
      (if s.at(i) >= from then [s.at(i)] else []) + Dates(s, from, to, i + 1)
  }

  /** A window's dates are exactly the scheduled ones in it. */
  lemma {:induction false} DatesAreScheduled(s: Series, from: int, to: int, i: nat, date: int)
    requires Rising(s)
    ensures date in Dates(s, from, to, i) <==> from <= date <= to && exists k :: i <= k && Scheduled(s, k, date)
    decreases s.last + 1 - s.at(i)
  {
    forall k | i < k ensures s.at(i) < s.at(k) {
      Later(s, i, k);
    }
    if Occurs(s, i) && s.at(i) <= to {
      assert Rises(s, i);
      DatesAreScheduled(s, from, to, i + 1, date);
      if k :| i <= k && Scheduled(s, k, date) {
        assert k == i || i + 1 <= k;
      }
      if s.at(i) == date {
        assert Scheduled(s, i, date);
      }
    }
  }

  predicate Ascending(dates: seq<int>) { forall i, j :: 0 <= i < j < |dates| ==> dates[i] < dates[j] }

  lemma {:induction false} DatesAscend(s: Series, from: int, to: int, i: nat)
    requires Rising(s)
    ensures Ascending(Dates(s, from, to, i))
    ensures forall d :: d in Dates(s, from, to, i) ==> d >= s.at(i)
    decreases s.last + 1 - s.at(i)
  {
    if Occurs(s, i) && s.at(i) <= to {
      assert Rises(s, i);
      DatesAscend(s, from, to, i + 1);
      var rest := Dates(s, from, to, i + 1);
      assert forall k :: 0 <= k < |rest| ==> rest[k] in rest;
    }
  }

  lemma {:induction false} LowerBoundIsMoot(s: Series, from: int, from': int, to: int, i: nat)
    requires Rising(s) && s.at(i) >= from && s.at(i) >= from'
    ensures Dates(s, from, to, i) == Dates(s, from', to, i)
    decreases s.last + 1 - s.at(i)
  {
    if Occurs(s, i) && s.at(i) <= to {
      assert Rises(s, i);
      LowerBoundIsMoot(s, from, from', to, i + 1);
    }
  }

  lemma {:induction false} WindowsAddUp(s: Series, a: int, b: int, c: int, i: nat)
    requires Rising(s) && a <= b + 1 && b <= c
    ensures Dates(s, a, b, i) + Dates(s, b + 1, c, i) == Dates(s, a, c, i)
    decreases s.last + 1 - s.at(i)
  {
    if Occurs(s, i) {
      assert Rises(s, i);
      if s.at(i) <= b {
        WindowsAddUp(s, a, b, c, i + 1);
        var head := if s.at(i) >= a then [s.at(i)] else [];
        assert head + Dates(s, a, b, i + 1) + Dates(s, b + 1, c, i + 1) == head + Dates(s, a, c, i + 1);
      } else {
        LowerBoundIsMoot(s, a, b + 1, c, i);
      }
    }
  }

  /** Collect what falls into a window until the series or the window ends, giving up past the cap. */
  method Collect(s: Series, from: int, to: int, cap: nat) returns (dates: seq<int>, complete: bool)
    requires Rising(s)
    ensures complete <==> |Dates(s, from, to, 0)| <= cap
    ensures complete ==> dates == Dates(s, from, to, 0)
  {
    var index: nat := 0;
    dates := [];
    ghost var all := Dates(s, from, to, 0);
    while Occurs(s, index) && s.at(index) <= to
      invariant |dates| <= cap
      invariant all == dates + Dates(s, from, to, index)
      decreases s.last + 1 - s.at(index)
    {
      assert Rises(s, index);
      if s.at(index) >= from {
        ghost var head, rest := [s.at(index)], Dates(s, from, to, index + 1);
        assert Dates(s, from, to, index) == head + rest;
        assert dates + (head + rest) == dates + head + rest;
        if |dates| >= cap {
          return dates, false;
        }
        dates := dates + [s.at(index)];
      }
      index := index + 1;
    }
    complete := true;
  }

  /** date is the least one scheduled after the cutoff, and found says whether there is one. */
  ghost predicate IsNext(s: Series, cutoff: int, found: bool, date: int) {
    && (found ==> date > cutoff && exists i :: Scheduled(s, i, date))
    && (forall i :: Occurs(s, i) && s.at(i) > cutoff ==> found && date <= s.at(i))
  }

  method FirstAfter(s: Series, cutoff: int) returns (found: bool, date: int)
    requires Rising(s)
    ensures IsNext(s, cutoff, found, if found then date else 0)
  {
    var index: nat := 0;
    while Occurs(s, index) && s.at(index) <= cutoff
      invariant forall i :: 0 <= i < index ==> s.at(i) <= cutoff
      decreases s.last + 1 - s.at(index)
    {
      assert Rises(s, index);
      index := index + 1;
    }
    forall i | Occurs(s, i) && s.at(i) > cutoff ensures Occurs(s, index) && s.at(index) <= s.at(i) {
      if index < i {
        Later(s, index, i);
      }
    }
    found, date := Occurs(s, index), s.at(index);
    if found {
      assert Scheduled(s, index, date);
    }
  }
}
