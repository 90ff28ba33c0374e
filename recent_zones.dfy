/**
 * The home page's most-recently-used zones (`reportRecentZone` and
 * `assertListOfStrings` in src/pages/HomePage/HomePage.tsx). The browser's
 * stored list is the field of a `RecentZoneList`; reporting a zone removes
 * it from the list, puts it in front and keeps the first ten entries.
 */
module RecentZones {
  import opened Wrappers
  import opened Sequences

  /** How many zones the list keeps. */
  const MaxRecentZones: int := 10

  /** `list.filter((name) => name !== zoneName)` */
  function Without(list: seq<string>, zoneName: string): (r: seq<string>)
    ensures zoneName !in r
    ensures |r| <= |list|
  {
    if list == [] then []
    else
      var front := Without(list[..|list| - 1], zoneName);
      if list[|list| - 1] == zoneName then front else front + [list[|list| - 1]]
  }

  /** Every other name occurs as often as before. */
  lemma {:induction false} WithoutCounts(list: seq<string>, zoneName: string)
    ensures forall x | x != zoneName :: multiset(Without(list, zoneName))[x] == multiset(list)[x]
  {
    if list != [] {
      var front := list[..|list| - 1];
      WithoutCounts(front, zoneName);
      assert list == front + [list[|list| - 1]];
    }
  }

  /**
   * Filtering two runs of names filters the first run and then the second,
   * so the remaining names keep their old order.
   */
  lemma {:induction false} WithoutConcat(a: seq<string>, b: seq<string>, zoneName: string)
    ensures Without(a + b, zoneName) == Without(a, zoneName) + Without(b, zoneName)
    decreases |b|
  {
    if b == [] {
      assert a + b == a;
    } else {
      var front, last := b[..|b| - 1], b[|b| - 1];
      var tail := if last == zoneName then [] else [last];
      var x, y := Without(a, zoneName), Without(front, zoneName);
      calc {
        Without(a + b, zoneName);
        { assert (a + b)[..|a + b| - 1] == a + front && (a + b)[|a + b| - 1] == last; }
        Without(a + front, zoneName) + tail;
        { WithoutConcat(a, front, zoneName); }
        (x + y) + tail;
        x + (y + tail);
      }
    }
  }

  /** A single name is kept exactly when it is not the reported zone. */
  lemma WithoutSingle(name: string, zoneName: string)
    ensures Without([name], zoneName) == if name == zoneName then [] else [name]
  {
    assert [name][..0] == [];
  }

  /** `list.slice(0, n)` */
  function Take(list: seq<string>, n: nat): (r: seq<string>)
    ensures |r| == if |list| <= n then |list| else n
    ensures r == list[..|r|]
  {
    if |list| <= n then list else list[..n]
  }

  /** The list after reporting `zoneName`. */
  function Reported(list: seq<string>, zoneName: string): seq<string> {
    Take([zoneName] + Without(list, zoneName), MaxRecentZones)
  }

  /**
   * What a report promises: the zone comes first and occurs nowhere else,
   * at most ten entries remain, and the rest are the first nine other
   * entries of the old list in their old order.
   */
  lemma ReportedShape(list: seq<string>, zoneName: string)
    ensures var r := Reported(list, zoneName);
      && |r| >= 1 && r[0] == zoneName
      && |r| <= MaxRecentZones
      && r[1..] == Take(Without(list, zoneName), MaxRecentZones - 1)
      && multiset(r)[zoneName] == 1
  {
    var w := Without(list, zoneName);
    var r := Reported(list, zoneName);
    var full := [zoneName] + w;
    assert r == full[..|r|];
    assert r[1..] == w[..|r| - 1];
    assert r == [zoneName] + r[1..];
    assert zoneName !in r[1..];
    assert multiset(r) == multiset{zoneName} + multiset(r[1..]);
  }

  /** Reporting the same zone twice in a row is reporting it once. */
  lemma ReportIsIdempotent(list: seq<string>, zoneName: string)
    ensures Reported(Reported(list, zoneName), zoneName) == Reported(list, zoneName)
  {
    var r := Reported(list, zoneName);
    ReportedShape(list, zoneName);
    assert r == [zoneName] + r[1..];
    assert zoneName !in r[1..];
    WithoutAbsent(r[1..], zoneName);
    WithoutFront(zoneName, r[1..]);
  }

  /** Removing an absent name changes nothing. */
  lemma {:induction false} WithoutAbsent(list: seq<string>, zoneName: string)
    requires zoneName !in list
    ensures Without(list, zoneName) == list
  {
    if list != [] {
      var front := list[..|list| - 1];
      assert zoneName !in front by {
        assert forall x | x in front :: x in list;
      }
      WithoutAbsent(front, zoneName);
      assert list == front + [list[|list| - 1]];
    }
  }

  /** Removing the name drops a leading copy of it. */
  lemma {:induction false} WithoutFront(zoneName: string, list: seq<string>)
    ensures Without([zoneName] + list, zoneName) == Without(list, zoneName)
  {
    if list != [] {
      var l := [zoneName] + list;
      var front, last := list[..|list| - 1], list[|list| - 1];
      assert l[..|l| - 1] == [zoneName] + front;
      assert l[|l| - 1] == last;
      WithoutFront(zoneName, front);
      assert Without(l, zoneName) == if last == zoneName then Without(front, zoneName) else Without(front, zoneName) + [last];
    } else {
      assert [zoneName] + list == [zoneName];
      assert [zoneName][..0] == [];
    }
  }

  /** A list without repeats stays without repeats. */
  lemma ReportKeepsDistinct(list: seq<string>, zoneName: string)
    requires Distinct(list)
    ensures Distinct(Reported(list, zoneName))
  {
    var w := Without(list, zoneName);
    WithoutCounts(list, zoneName);
    DistinctByCount(list);
    assert forall x | x != zoneName :: multiset(w)[x] <= 1;
    var full := [zoneName] + w;
    assert forall x :: multiset(full)[x] <= 1 by {
      assert multiset(full) == multiset{zoneName} + multiset(w);
    }
    CountGivesDistinct(full);
    var r := Reported(list, zoneName);
    assert r == full[..|r|];
  }

  /** The browser's stored list of recent zones. */
  class RecentZoneList {
    var recentZones: seq<string>

    /** The list never holds a zone twice, nor more than ten zones. */
    predicate Valid()
      reads this
    {
      Distinct(recentZones) && |recentZones| <= MaxRecentZones
    }

    constructor()
      ensures recentZones == [] && Valid()
    {
      recentZones := [];
    }

    /** `reportRecentZone`, step by step on the list. */
    method ReportRecentZone(zoneName: string)
      modifies this
      ensures recentZones == Reported(old(recentZones), zoneName)
      ensures old(Valid()) ==> Valid()
    {
      ghost var before := recentZones;
      var list := recentZones;
      list := Without(list, zoneName);
      list := [zoneName] + list;
      list := Take(list, MaxRecentZones);
      recentZones := list;
      if Distinct(before) {
        ReportKeepsDistinct(before, zoneName);
      }
    }
  }

  /** A parsed JSON value, as far as the check below looks at it. */
  datatype Json = JString(s: string) | JArray(items: seq<Json>) | JOther

  /** `assertListOfStrings`: the value is an array of strings, or the first failure's message. */
  method AssertListOfStrings(x: Json) returns (r: Outcome<string>)
    ensures r.Pass? <==> x.JArray? && forall i | 0 <= i < |x.items| :: x.items[i].JString?
    ensures !x.JArray? ==> r == Fail("Expected array")
    ensures x.JArray? && r.Fail? ==> r == Fail("Expected string")
  {
    if !x.JArray? {
      return Fail("Expected array");
    }
    var i := 0;
    while i < |x.items|
      invariant 0 <= i <= |x.items|
      invariant forall j | 0 <= j < i :: x.items[j].JString?
    {
      if !x.items[i].JString? {
        return Fail("Expected string");
      }
      i := i + 1;
    }
    return Pass;
  }
}
