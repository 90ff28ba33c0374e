/**
 * JavaScript's ordering of strings: `a < b` and the default `sort()` compare
 * character by character, and a proper prefix comes first.
 */
module StringOrder {
  /** `a < b` on strings. */
  predicate Less(a: string, b: string)
    decreases |a|
  {
    if |a| == 0 then |b| > 0
    else if |b| == 0 then false
    else if a[0] != b[0] then a[0] < b[0]
    else Less(a[1..], b[1..])
  }

  /** No string is below itself. */
  lemma {:induction false} LessIrreflexive(a: string)
    ensures !Less(a, a)
    decreases |a|
  {
    if |a| > 0 {
      LessIrreflexive(a[1..]);
    }
  }

  /** Two different strings are ordered one way, and never both ways. */
  lemma {:induction false} LessTrichotomy(a: string, b: string)
    ensures a == b || Less(a, b) || Less(b, a)
    ensures !(Less(a, b) && Less(b, a))
    decreases |a|
  {
    if |a| > 0 && |b| > 0 && a[0] == b[0] {
      LessTrichotomy(a[1..], b[1..]);
      assert a == [a[0]] + a[1..] && b == [b[0]] + b[1..];
    }
  }

  /** The order is transitive. */
  lemma {:induction false} LessTransitive(a: string, b: string, c: string)
    requires Less(a, b) && Less(b, c)
    ensures Less(a, c)
    decreases |a|
  {
    if |a| > 0 && a[0] == b[0] && b[0] == c[0] {
      LessTransitive(a[1..], b[1..], c[1..]);
    }
  }
}

/**
 * The usage page (src/pages/UsagePage/UsagePage.tsx): the rows the usage
 * report returns are grouped by day, days in ascending order, and each
 * day's rows are shown sorted by zone and then by user.
 */
module UsagePage {
  import opened Sequences
  import opened StringOrder
  import opened Usage

  /** One day's section of the page. */
  datatype DayGroup = DayGroup(day: string, usages: seq<UsageRow>)

  /** `userZoneDayUsages.filter((u) => u.day === day)` */
  function UsagesOn(usages: seq<UsageRow>, day: string): (r: seq<UsageRow>)
    ensures forall i | 0 <= i < |r| :: r[i].day == day
    ensures |r| <= |usages|
  {
    if usages == [] then []
    else
      var front := UsagesOn(usages[..|usages| - 1], day);
      if usages[|usages| - 1].day == day then front + [usages[|usages| - 1]] else front
  }

  /**
   * Filtering two runs of rows filters the first run and then the second,
   * so the filter keeps the input order and every row of the day, once.
   */
  lemma {:induction false} UsagesOnConcat(a: seq<UsageRow>, b: seq<UsageRow>, day: string)
    ensures UsagesOn(a + b, day) == UsagesOn(a, day) + UsagesOn(b, day)
    decreases |b|
  {
    if b == [] {
      assert a + b == a;
    } else {
      var front, last := b[..|b| - 1], b[|b| - 1];
      var tail := if last.day == day then [last] else [];
      var x, y := UsagesOn(a, day), UsagesOn(front, day);
      calc {
        UsagesOn(a + b, day);
        { assert (a + b)[..|a + b| - 1] == a + front && (a + b)[|a + b| - 1] == last; }
        UsagesOn(a + front, day) + tail;
        { UsagesOnConcat(a, front, day); }
        (x + y) + tail;
        x + (y + tail);
      }
    }
  }

  /** A single row is kept exactly when it is of the day. */
  lemma UsagesOnSingle(u: UsageRow, day: string)
    ensures UsagesOn([u], day) == if u.day == day then [u] else []
  {
    assert [u][..0] == [];
  }

  /** Every row of a given day is kept by the filter for that day. */
  lemma {:induction false} UsagesOnKeeps(usages: seq<UsageRow>, i: int)
    requires 0 <= i < |usages|
    ensures usages[i] in UsagesOn(usages, usages[i].day)
  {
    if i < |usages| - 1 {
      UsagesOnKeeps(usages[..|usages| - 1], i);
    }
  }

  /** The groups for the given days, in the order of the days. */
  function GroupsFor(usages: seq<UsageRow>, days: seq<string>): (r: seq<DayGroup>)
    ensures |r| == |days|
    ensures forall k | 0 <= k < |r| :: r[k] == DayGroup(days[k], UsagesOn(usages, days[k]))
  {
    if days == [] then []
    else
      var d := days[|days| - 1];
      GroupsFor(usages, days[..|days| - 1]) + [DayGroup(d, UsagesOn(usages, d))]
  }

  /** The number of rows shown over all groups. */
  function GroupSizes(groups: seq<DayGroup>): nat {
    if groups == [] then 0
    else GroupSizes(groups[..|groups| - 1]) + |groups[|groups| - 1].usages|
  }

  /** One more input row adds one row to each group of its day. */
  lemma {:induction false} GroupSizesAppend(usages: seq<UsageRow>, u: UsageRow, days: seq<string>)
    ensures GroupSizes(GroupsFor(usages + [u], days)) == GroupSizes(GroupsFor(usages, days)) + multiset(days)[u.day]
  {
    if days != [] {
      var front := days[..|days| - 1];
      var d := days[|days| - 1];
      GroupSizesAppend(usages, u, front);
      assert (usages + [u])[..|usages|] == usages;
      assert days == front + [d];
      assert GroupsFor(usages + [u], days)[..|front|] == GroupsFor(usages + [u], front);
      assert GroupsFor(usages, days)[..|front|] == GroupsFor(usages, front);
    }
  }

  /**
   * With the days distinct and covering every row's day, each row lands in
   * exactly one group, so the groups together hold as many rows as the input.
   */
  lemma {:induction false} GroupSizesCount(usages: seq<UsageRow>, days: seq<string>)
    requires Distinct(days)
    requires forall i | 0 <= i < |usages| :: usages[i].day in days
    ensures GroupSizes(GroupsFor(usages, days)) == |usages|
  {
    if usages == [] {
      EmptyGroups(days);
    } else {
      var front := usages[..|usages| - 1];
      var u := usages[|usages| - 1];
      assert forall i | 0 <= i < |front| :: front[i] == usages[i];
      GroupSizesCount(front, days);
      assert usages == front + [u];
      GroupSizesAppend(front, u, days);
      DistinctByCount(days);
      assert multiset(days)[u.day] == 1;
    }
  }

  /** Without rows every group is empty. */
  lemma {:induction false} EmptyGroups(days: seq<string>)
    ensures GroupSizes(GroupsFor([], days)) == 0
  {
    if days != [] {
      EmptyGroups(days[..|days| - 1]);
    }
  }

  /** Non-strictly ascending under the string order. */
  predicate Ascending(s: seq<string>) {
    forall i, j | 0 <= i < j < |s| :: !Less(s[j], s[i])
  }

  /** Insert one day into an ascending list. */
  function InsertDay(d: string, s: seq<string>): (r: seq<string>)
    requires Ascending(s)
    ensures Ascending(r)
    ensures multiset(r) == multiset(s) + multiset{d}
  {
    if s == [] then [d]
    else if !Less(s[0], d) then
      AscendingFront(d, s);
      [d] + s
    else
      var rest := InsertDay(d, s[1..]);
      assert s == [s[0]] + s[1..];
      InsertedAfter(s[0], d, s[1..], rest);
      [s[0]] + rest
  }

  /** `d` may go in front of an ascending list that starts no lower than `d`. */
  lemma AscendingFront(d: string, s: seq<string>)
    requires Ascending(s) && |s| > 0 && !Less(s[0], d)
    ensures Ascending([d] + s)
  {
    var r := [d] + s;
    forall i, j | 0 <= i < j < |r| ensures !Less(r[j], r[i]) {
      if i == 0 {
        LessTrichotomy(s[0], d);
        LessTrichotomy(s[j - 1], s[0]);
        if Less(s[j - 1], d) && Less(d, s[0]) {
          LessTransitive(s[j - 1], d, s[0]);
        }
      }
    }
  }

  /** `x` may go in front of the result of inserting `d` after it. */
  lemma InsertedAfter(x: string, d: string, s: seq<string>, rest: seq<string>)
    requires Ascending([x] + s) && Less(x, d)
    requires Ascending(rest) && multiset(rest) == multiset(s) + multiset{d}
    ensures Ascending([x] + rest)
  {
    var r := [x] + rest;
    forall i, j | 0 <= i < j < |r| ensures !Less(r[j], r[i]) {
      if i == 0 {
        NotBelowFront(x, d, s, rest, rest[j - 1]);
      }
    }
  }

  /** No entry of `rest` is below `x`. */
  lemma NotBelowFront(x: string, d: string, s: seq<string>, rest: seq<string>, y: string)
    requires Ascending([x] + s) && Less(x, d)
    requires multiset(rest) == multiset(s) + multiset{d}
    requires y in rest
    ensures !Less(y, x)
  {
    assert y in multiset(rest);
    if y == d {
      LessTrichotomy(x, d);
    } else {
      assert multiset(rest)[y] == multiset(s)[y];
      assert y in s;
      var k :| 0 <= k < |s| && s[k] == y;
      assert ([x] + s)[k + 1] == y && ([x] + s)[0] == x;
      assert !Less(([x] + s)[k + 1], ([x] + s)[0]);
    }
  }

  /** The default `sort()` of a list of days. */
  function SortDays(s: seq<string>): (r: seq<string>)
    ensures Ascending(r)
    ensures multiset(r) == multiset(s)
  {
    if s == [] then []
    else
      assert s == s[..|s| - 1] + [s[|s| - 1]];
      InsertDay(s[|s| - 1], SortDays(s[..|s| - 1]))
  }

  /** Sorting distinct days leaves them strictly ascending. */
  lemma SortedDistinctDays(s: seq<string>)
    requires Distinct(s)
    ensures var r := SortDays(s);
      && (forall i, j | 0 <= i < j < |r| :: Less(r[i], r[j]))
      && (forall x :: x in r <==> x in s)
      && Distinct(r)
  {
    var r := SortDays(s);
    DistinctByCount(s);
    CountGivesDistinct(r);
    forall i, j | 0 <= i < j < |r| ensures Less(r[i], r[j]) {
      LessTrichotomy(r[i], r[j]);
    }
    SortDaysMembers(s);
  }

  /** Sorting keeps exactly the days it was given. */
  lemma SortDaysMembers(s: seq<string>)
    ensures forall x :: x in SortDays(s) <==> x in s
  {
    var r := SortDays(s);
    forall x ensures x in r <==> x in s {
      assert x in r <==> x in multiset(r);
      assert x in s <==> x in multiset(s);
    }
  }

  /** Some row is of `day` (searched from the end, in step with `DaysInOrder`). */
  predicate HasRow(usages: seq<UsageRow>, day: string) {
    |usages| > 0 && (usages[|usages| - 1].day == day || HasRow(usages[..|usages| - 1], day))
  }

  /** The row at `i` witnesses its day. */
  lemma {:induction false} HasRowAt(usages: seq<UsageRow>, i: int)
    requires 0 <= i < |usages|
    ensures HasRow(usages, usages[i].day)
  {
    if i < |usages| - 1 {
      HasRowAt(usages[..|usages| - 1], i);
    }
  }

  /** A day that has a row has a non-empty filter. */
  lemma {:induction false} HasRowKept(usages: seq<UsageRow>, day: string)
    requires HasRow(usages, day)
    ensures |UsagesOn(usages, day)| > 0
  {
    if usages[|usages| - 1].day != day {
      HasRowKept(usages[..|usages| - 1], day);
    }
  }

  /** The rows' distinct days in the order they were first added to the `Set`, as `Array.from` lists them. */
  function DaysInOrder(usages: seq<UsageRow>): seq<string> {
    if usages == [] then []
    else
      var front := DaysInOrder(usages[..|usages| - 1]);
      var d := usages[|usages| - 1].day;
      if d in front then front else front + [d]
  }

  /** Each day of a row is listed once, and only days of rows are listed. */
  lemma {:induction false} DaysInOrderShape(usages: seq<UsageRow>)
    ensures Distinct(DaysInOrder(usages))
    ensures forall x :: x in DaysInOrder(usages) <==> HasRow(usages, x)
  {
    if usages != [] {
      DaysInOrderShape(usages[..|usages| - 1]);
    }
  }

  /** What `allDays` computes: the groups of the sorted distinct days. */
  function DayGroups(usages: seq<UsageRow>): seq<DayGroup> {
    GroupsFor(usages, SortDays(DaysInOrder(usages)))
  }

  /** The loop of `allDays` that adds every row's day to a `Set`. */
  method CollectDays(usages: seq<UsageRow>) returns (order: seq<string>)
    ensures order == DaysInOrder(usages)
  {
    var seen: set<string> := {};
    order := [];
    for n := 0 to |usages|
      invariant order == DaysInOrder(usages[..n])
      invariant forall x :: x in seen <==> x in order
    {
      var d := usages[n].day;
      assert usages[..n + 1][..n] == usages[..n];
      if d !in seen {
        seen := seen + {d};
        order := order + [d];
      }
    }
    assert usages[..|usages|] == usages;
  }

  /** `allDays`: collect the days, sort them, and filter the rows of each day. */
  method AllDays(usages: seq<UsageRow>) returns (groups: seq<DayGroup>)
    ensures groups == DayGroups(usages)
  {
    var order := CollectDays(usages);
    var days := SortDays(order);
    groups := GroupsFor(usages, days);
  }

  /** Some group is for `day`. */
  predicate HasGroup(groups: seq<DayGroup>, day: string) {
    exists k :: 0 <= k < |groups| && groups[k].day == day
  }

  /** The groups' days are strictly ascending, so no day has two groups. */
  lemma DayGroupsAscending(usages: seq<UsageRow>)
    ensures var groups := DayGroups(usages);
      forall k, l | 0 <= k < l < |groups| :: Less(groups[k].day, groups[l].day)
  {
    DaysInOrderShape(usages);
    SortedDistinctDays(DaysInOrder(usages));
  }

  /** There is a group for a day exactly when some row is of that day. */
  lemma DayGroupsCoverDays(usages: seq<UsageRow>, day: string)
    ensures HasGroup(DayGroups(usages), day) <==> HasRow(usages, day)
  {
    var order := DaysInOrder(usages);
    var days := SortDays(order);
    DaysInOrderShape(usages);
    SortDaysMembers(order);
    var groups := GroupsFor(usages, days);
    assert groups == DayGroups(usages);
    if HasGroup(groups, day) {
      var k :| 0 <= k < |groups| && groups[k].day == day;
      assert days[k] == day;
    }
    if day in days {
      var k :| 0 <= k < |days| && days[k] == day;
      assert groups[k].day == day;
    }
  }

  /** Each group holds the rows of its day in input order, and at least one of them. */
  lemma DayGroupsContents(usages: seq<UsageRow>)
    ensures var groups := DayGroups(usages);
      forall k | 0 <= k < |groups| :: groups[k].usages == UsagesOn(usages, groups[k].day) && |groups[k].usages| > 0
  {
    var days := SortDays(DaysInOrder(usages));
    DaysInOrderShape(usages);
    SortedDistinctDays(DaysInOrder(usages));
    forall k | 0 <= k < |days| ensures |UsagesOn(usages, days[k])| > 0 {
      HasRowKept(usages, days[k]);
    }
  }

  /** A row is in a group exactly when the group is for the row's day. */
  lemma DayGroupsPartition(usages: seq<UsageRow>, i: int, k: int)
    requires 0 <= i < |usages|
    requires 0 <= k < |DayGroups(usages)|
    ensures usages[i] in DayGroups(usages)[k].usages <==> DayGroups(usages)[k].day == usages[i].day
  {
    var groups := DayGroups(usages);
    if groups[k].day == usages[i].day {
      UsagesOnKeeps(usages, i);
    }
  }

  /** Every row is shown once: the groups together hold as many rows as the input. */
  lemma DayGroupsSizes(usages: seq<UsageRow>)
    ensures GroupSizes(DayGroups(usages)) == |usages|
  {
    var days := SortDays(DaysInOrder(usages));
    DaysInOrderShape(usages);
    SortedDistinctDays(DaysInOrder(usages));
    forall i | 0 <= i < |usages| ensures usages[i].day in days {
      HasRowAt(usages, i);
    }
    GroupSizesCount(usages, days);
  }

  /** The comparator passed to `sort` in `UsageDay`: by zone, then by user. */
  function Compare(a: UsageRow, b: UsageRow): (r: int)
    ensures -1 <= r <= 1
  {
    if Less(a.zoneName, b.zoneName) then -1
    else if Less(b.zoneName, a.zoneName) then 1
    else if Less(a.userId, b.userId) then -1
    else if Less(b.userId, a.userId) then 1
    else 0
  }

  /** The comparator puts `a` first exactly when its zone, or else its user, is lower. */
  lemma CompareOrders(a: UsageRow, b: UsageRow)
    ensures Compare(a, b) < 0 <==>
      Less(a.zoneName, b.zoneName) || (a.zoneName == b.zoneName && Less(a.userId, b.userId))
    ensures Compare(a, b) == 0 <==> a.zoneName == b.zoneName && a.userId == b.userId
  {
    LessTrichotomy(a.zoneName, b.zoneName);
    LessTrichotomy(a.userId, b.userId);
    LessIrreflexive(a.zoneName);
  }

  /** Swapping the arguments negates the result. */
  lemma CompareAntisymmetric(a: UsageRow, b: UsageRow)
    ensures Compare(b, a) == -Compare(a, b)
  {
    LessTrichotomy(a.zoneName, b.zoneName);
    LessTrichotomy(a.userId, b.userId);
  }

  /** "Not after" is transitive, so the comparator is a consistent order for `sort`. */
  lemma CompareTransitive(a: UsageRow, b: UsageRow, c: UsageRow)
    requires Compare(a, b) <= 0 && Compare(b, c) <= 0
    ensures Compare(a, c) <= 0
  {
    CompareOrders(a, b);
    CompareOrders(b, c);
    CompareOrders(a, c);
    if Less(a.zoneName, b.zoneName) && Less(b.zoneName, c.zoneName) {
      LessTransitive(a.zoneName, b.zoneName, c.zoneName);
    }
    if a.zoneName == c.zoneName && Less(a.userId, b.userId) && Less(b.userId, c.userId) {
      LessTransitive(a.userId, b.userId, c.userId);
    }
    if a.zoneName == c.zoneName && a.zoneName != b.zoneName {
      LessTrichotomy(a.zoneName, b.zoneName);
    }
  }

  /** Every row comes no later in the comparator's order than any row after it. */
  predicate SortedByCompare(s: seq<UsageRow>) {
    forall i, j | 0 <= i < j < |s| :: Compare(s[i], s[j]) <= 0
  }

  /**
   * `UsageDay`'s sort: copy the day's rows (`slice()`) and sort the copy in
   * place with the comparator, leaving the given rows as they were.
   */
  method SortUsages(usages: array<UsageRow>) returns (x: array<UsageRow>)
    ensures fresh(x)
    ensures SortedByCompare(x[..])
    ensures multiset(x[..]) == multiset(usages[..])
    ensures usages[..] == old(usages[..])
  {
    x := new UsageRow[usages.Length](i requires 0 <= i < usages.Length reads usages => usages[i]);
    assert x[..] == usages[..];
    if x.Length == 0 {
      return;
    }
    var i := 1;
    while i < x.Length
      invariant 1 <= i <= x.Length
      invariant SortedByCompare(x[..i])
      invariant multiset(x[..]) == multiset(usages[..])
    {
      InsertAt(x, i);
      i := i + 1;
    }
    assert x[..] == x[..i];
  }

  /** The first `n` rows are in order, leaving out the one at `j`. */
  predicate SortedExcept(s: seq<UsageRow>, n: int, j: int)
    requires n <= |s|
  {
    forall k, l | 0 <= k < l < n && k != j && l != j :: Compare(s[k], s[l]) <= 0
  }

  /** The row at `j` comes no later than any row after it among the first `n`. */
  predicate NoLaterBelow(s: seq<UsageRow>, n: int, j: int)
    requires 0 <= j < n <= |s|
  {
    forall l | j < l < n :: Compare(s[j], s[l]) <= 0
  }

  /** Swapping the row at `j` with an earlier row that should follow it moves the gap down by one. */
  lemma SwapDown(s: seq<UsageRow>, n: int, j: int)
    requires 0 < j < n <= |s|
    requires SortedExcept(s, n, j) && NoLaterBelow(s, n, j)
    requires Compare(s[j - 1], s[j]) > 0
    ensures SortedExcept(s[j - 1 := s[j]][j := s[j - 1]], n, j - 1)
    ensures NoLaterBelow(s[j - 1 := s[j]][j := s[j - 1]], n, j - 1)
  {
    var t := s[j - 1 := s[j]][j := s[j - 1]];
    CompareAntisymmetric(s[j - 1], s[j]);
    forall l | j - 1 < l < n ensures Compare(t[j - 1], t[l]) <= 0 {
      if l > j {
        assert t[l] == s[l];
      }
    }
    forall k, l | 0 <= k < l < n && k != j - 1 && l != j - 1 ensures Compare(t[k], t[l]) <= 0 {
      if k == j {
        assert t[k] == s[j - 1] && t[l] == s[l];
      } else if l == j {
        assert t[k] == s[k] && t[l] == s[j - 1];
      }
    }
  }

  /** Swapping two neighbours permutes the rows. */
  lemma SwapPermutes(s: seq<UsageRow>, j: int)
    requires 0 < j < |s|
    ensures multiset(s[j - 1 := s[j]][j := s[j - 1]]) == multiset(s)
  {
    var t := s[j - 1 := s[j]][j := s[j - 1]];
    assert s == s[..j - 1] + [s[j - 1], s[j]] + s[j + 1..];
    assert t == s[..j - 1] + [s[j], s[j - 1]] + s[j + 1..];
  }

  /** Once the row at `j` follows its left neighbour, the first `n` rows are in order. */
  lemma Settled(s: seq<UsageRow>, n: int, j: int)
    requires 0 <= j < n <= |s|
    requires SortedExcept(s, n, j) && NoLaterBelow(s, n, j)
    requires j == 0 || Compare(s[j - 1], s[j]) <= 0
    ensures SortedByCompare(s[..n])
  {
    forall k, l | 0 <= k < l < n ensures Compare(s[k], s[l]) <= 0 {
      if l == j && k < j - 1 {
        CompareTransitive(s[k], s[j - 1], s[j]);
      }
    }
  }

  /** Swap `x[j]` with its left neighbour. */
  method SwapAt(x: array<UsageRow>, j: int)
    requires 0 < j < x.Length
    modifies x
    ensures x[..] == old(x[..])[j - 1 := old(x[j])][j := old(x[j - 1])]
  {
    x[j - 1], x[j] := x[j], x[j - 1];
  }

  /** Move `x[i]` down past every row before it that should follow it, permuting `x`. */
  method InsertAt(x: array<UsageRow>, i: int)
    requires 1 <= i < x.Length
    requires SortedByCompare(x[..i])
    modifies x
    ensures SortedByCompare(x[..i + 1])
    ensures multiset(x[..]) == multiset(old(x[..]))
  {
    var j := i;
    while j > 0 && Compare(x[j - 1], x[j]) > 0
      invariant 0 <= j <= i
      invariant SortedExcept(x[..], i + 1, j) && NoLaterBelow(x[..], i + 1, j)
      invariant multiset(x[..]) == multiset(old(x[..]))
    {
      ghost var s := x[..];
      SwapDown(s, i + 1, j);
      SwapPermutes(s, j);
      SwapAt(x, j);
      j := j - 1;
    }
    Settled(x[..], i + 1, j);
  }
}
