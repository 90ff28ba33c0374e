/** Facts about sequences without repeated entries. */
module Sequences {
  /** No entry occurs twice. */
  predicate Distinct<T(==)>(list: seq<T>) {
    forall i, j | 0 <= i < j < |list| :: list[i] != list[j]
  }

  /** Without repeats, every entry occurs at most once. */
  lemma {:induction false} DistinctByCount<T>(list: seq<T>)
    requires Distinct(list)
    ensures forall x :: multiset(list)[x] <= 1
  {
    if list != [] {
      var front := list[..|list| - 1];
      var last := list[|list| - 1];
      DistinctByCount(front);
      assert list == front + [last];
      assert last !in front;
    }
  }

  /** Every entry occurring at most once means no repeats. */
  lemma CountGivesDistinct<T>(list: seq<T>)
    requires forall x :: multiset(list)[x] <= 1
    ensures Distinct(list)
  {
    forall i, j | 0 <= i < j < |list| ensures list[i] != list[j] {
      assert list == list[..j] + list[j..];
      assert list[i] in list[..j] && list[j] in list[j..];
      assert multiset(list) == multiset(list[..j]) + multiset(list[j..]);
      assert multiset(list[..j])[list[i]] >= 1 && multiset(list[j..])[list[j]] >= 1;
      assert multiset(list)[list[i]] <= 1 && multiset(list)[list[j]] <= 1;
    }
  }
}
