/** The sort step of the fallback scheduler (src/lib/scheduler.ts:135-157):
    a copy of the task list sorted with Classify.Compare. The model fixes the
    sort to a stable insertion sort, given once as a function and once as the
    in-place array algorithm that the function specifies. */
module Sorting {
  import opened Classify

  /** Inserts `x` at the end of `sorted` and moves it left past every element
      that the comparator puts after it. */
  function Insert(sorted: seq<string>, x: string): (r: seq<string>)
    ensures |r| == |sorted| + 1
  {
    if sorted == [] || Compare(sorted[|sorted| - 1], x) <= 0 then sorted + [x]
    else Insert(sorted[..|sorted| - 1], x) + [sorted[|sorted| - 1]]
  }

  /** Insertion sort: the sorted prefix grows by one element at a time. */
  function InsertionSort(s: seq<string>): (r: seq<string>)
    ensures |r| == |s|
  {
    if s == [] then [] else Insert(InsertionSort(s[..|s| - 1]), s[|s| - 1])
  }

  /** Inserting adds exactly one occurrence of `x` and changes nothing else. */
  lemma {:induction false} InsertPermutes(sorted: seq<string>, x: string)
    ensures multiset(Insert(sorted, x)) == multiset(sorted) + multiset{x}
  {
    if sorted != [] && Compare(sorted[|sorted| - 1], x) > 0 {
      var init := sorted[..|sorted| - 1];
      assert sorted == init + [sorted[|sorted| - 1]];
      InsertPermutes(init, x);
    }
  }

  /** The insertion sort returns a permutation of its input. */
  lemma {:induction false} SortPermutes(s: seq<string>)
    ensures multiset(InsertionSort(s)) == multiset(s)
  {
    if s != [] {
      var init := s[..|s| - 1];
      assert s == init + [s[|s| - 1]];
      SortPermutes(init);
      InsertPermutes(InsertionSort(init), s[|s| - 1]);
    }
  }

  /** Tasks are in non-decreasing Rank order. */
  predicate SortedByRank(s: seq<string>) {
    forall i, j :: 0 <= i < j < |s| ==> Rank(s[i]) <= Rank(s[j])
  }

  /** The tasks of Rank `k`, in their order in `s`. */
  function WithRank(s: seq<string>, k: nat): seq<string> {
    if s == [] then []
    else WithRank(s[..|s| - 1], k) + (if Rank(s[|s| - 1]) == k then [s[|s| - 1]] else [])
  }

  lemma {:induction false} WithRankAppend(s: seq<string>, x: string, k: nat)
    ensures WithRank(s + [x], k) == WithRank(s, k) + WithRank([x], k)
  {
    assert (s + [x])[..|s|] == s;
    assert [x][..0] == [];
  }

  lemma {:induction false} WithRankSingle(x: string, k: nat)
    ensures WithRank([x], k) == if Rank(x) == k then [x] else []
  {
    assert [x][..0] == [];
  }

  /** Moving `x` left past a task of another Rank does not change the order
      within any Rank. */
  lemma {:induction false} WithRankPastLarger(ins: seq<string>, init: seq<string>, x: string, last: string, k: nat)
    requires Rank(last) != Rank(x)
    requires WithRank(ins, k) == WithRank(init, k) + WithRank([x], k)
    ensures WithRank(ins + [last], k) == WithRank(init + [last], k) + WithRank([x], k)
  {
    WithRankAppend(ins, last, k);
    WithRankAppend(init, last, k);
    WithRankSingle(x, k);
    WithRankSingle(last, k);
  }

  /** The elements of `Insert(sorted, x)` are those of `sorted` and `x`. */
  lemma {:induction false} InsertMembers(sorted: seq<string>, x: string, a: string)
    ensures a in Insert(sorted, x) <==> a in sorted || a == x
  {
    InsertPermutes(sorted, x);
    assert a in Insert(sorted, x) <==> a in multiset(Insert(sorted, x));
    assert a in sorted <==> a in multiset(sorted);
  }

  /** The elements of `InsertionSort(s)` are those of `s`. */
  lemma {:induction false} SortMembers(s: seq<string>, a: string)
    ensures a in InsertionSort(s) <==> a in s
  {
    SortPermutes(s);
    assert a in InsertionSort(s) <==> a in multiset(InsertionSort(s));
    assert a in s <==> a in multiset(s);
  }

  /** A task of Rank at least that of every task in a sorted list may be
      appended without breaking the order. */
  lemma {:induction false} SortedAppend(s: seq<string>, y: string)
    requires SortedByRank(s)
    requires forall i :: 0 <= i < |s| ==> Rank(s[i]) <= Rank(y)
    ensures SortedByRank(s + [y])
  {
    var t := s + [y];
    forall i, j | 0 <= i < j < |t| ensures Rank(t[i]) <= Rank(t[j]) {
      assert t[i] == s[i];
    }
  }

  /** With the comparator ordering `x` against `sorted` by Rank, inserting
      keeps the list sorted by Rank and places `x` after every task of its
      own Rank. */
  lemma {:induction false} InsertSortedStable(sorted: seq<string>, x: string)
    requires SortedByRank(sorted)
    requires forall a :: a in sorted ==> Agree(a, x)
    ensures SortedByRank(Insert(sorted, x))
    ensures forall k :: WithRank(Insert(sorted, x), k) == WithRank(sorted, k) + WithRank([x], k)
  {
    var n := |sorted|;
    if sorted == [] || Compare(sorted[n - 1], x) <= 0 {
      assert SortedByRank(sorted + [x]) by {
        if sorted != [] {
          CompareIsRankOrder(sorted[n - 1], x);
        }
        SortedAppend(sorted, x);
      }
      forall k ensures WithRank(Insert(sorted, x), k) == WithRank(sorted, k) + WithRank([x], k) {
        WithRankAppend(sorted, x, k);
      }
    } else {
      var init := sorted[..n - 1];
      assert SortedByRank(init) && forall a :: a in init ==> Agree(a, x);
      InsertSortedStable(init, x);
      InsertPastLast(sorted, x);
    }
  }

  /** The step of InsertSortedStable where `x` moves left past the last task:
      what holds for the shorter list carries over. */
  lemma {:induction false} InsertPastLast(sorted: seq<string>, x: string)
    requires SortedByRank(sorted) && sorted != []
    requires Agree(sorted[|sorted| - 1], x) && Compare(sorted[|sorted| - 1], x) > 0
    requires SortedByRank(Insert(sorted[..|sorted| - 1], x))
    requires forall k :: WithRank(Insert(sorted[..|sorted| - 1], x), k) == WithRank(sorted[..|sorted| - 1], k) + WithRank([x], k)
    ensures SortedByRank(Insert(sorted, x))
    ensures forall k :: WithRank(Insert(sorted, x), k) == WithRank(sorted, k) + WithRank([x], k)
  {
    var n := |sorted|;
    var last := sorted[n - 1];
    var init := sorted[..n - 1];
    assert Rank(last) > Rank(x) by {
      CompareIsRankOrder(last, x);
    }
    assert sorted == init + [last];
    var ins := Insert(init, x);
    assert Insert(sorted, x) == ins + [last];
    assert SortedByRank(ins + [last]) by {
      forall i | 0 <= i < |ins| ensures Rank(ins[i]) <= Rank(last) {
        InsertMembers(init, x, ins[i]);
        if ins[i] != x {
          var j :| 0 <= j < |init| && init[j] == ins[i];
          assert sorted[j] == ins[i];
        }
      }
      SortedAppend(ins, last);
    }
    forall k ensures WithRank(Insert(sorted, x), k) == WithRank(sorted, k) + WithRank([x], k) {
      WithRankPastLarger(ins, init, x, last, k);
    }
  }

  /** Under a comparator that agrees with Rank, the insertion sort orders the
      tasks by Rank and keeps the input order among tasks of equal Rank. */
  lemma {:induction false} SortSortedStable(s: seq<string>)
    requires RankConsistent(s)
    ensures SortedByRank(InsertionSort(s))
    ensures forall k :: WithRank(InsertionSort(s), k) == WithRank(s, k)
  {
    if s != [] {
      var n := |s|;
      var init := s[..n - 1];
      var x := s[n - 1];
      assert s == init + [x];
      assert RankConsistent(init);
      SortSortedStable(init);
      var sortedInit := InsertionSort(init);
      forall a | a in sortedInit ensures Agree(a, x) {
        SortMembers(init, a);
      }
      InsertSortedStable(sortedInit, x);
      forall k ensures WithRank(InsertionSort(s), k) == WithRank(s, k) {
        WithRankAppend(init, x, k);
      }
    }
  }

  /** What a stable sort by Rank promises: every priority task before every
      other task, and non-family before family within the same priority. */
  lemma SortedByRankOrder(s: seq<string>, i: int, j: int)
    requires SortedByRank(s) && 0 <= i < j < |s|
    ensures IsPriority(s[j]) ==> IsPriority(s[i])
    ensures IsPriority(s[i]) == IsPriority(s[j]) && IsFamily(s[i]) ==> IsFamily(s[j])
  {
  }

  /** One step of the inner loop: `x` moves left past a neighbour that the
      comparator puts after it. */
  lemma InsertStep(prefix: seq<string>, j: nat, x: string)
    requires 0 < j <= |prefix| && Compare(prefix[j - 1], x) > 0
    ensures Insert(prefix[..j], x) + prefix[j..] == Insert(prefix[..j - 1], x) + prefix[j - 1..]
  {
    assert prefix[..j][..j - 1] == prefix[..j - 1];
    assert prefix[j - 1..] == [prefix[j - 1]] + prefix[j..];
  }

  /** The inner loop stops where `x` belongs. */
  lemma InsertStop(prefix: seq<string>, j: nat, x: string)
    requires j <= |prefix| && (j == 0 || Compare(prefix[j - 1], x) <= 0)
    requires Insert(prefix, x) == Insert(prefix[..j], x) + prefix[j..]
    ensures Insert(prefix, x) == prefix[..j] + [x] + prefix[j..]
  {
  }

  /** Swapping `x` with its left neighbour moves the split point left. */
  lemma {:induction false} SwapStep(prefix: seq<string>, j: nat, x: string, rest: seq<string>)
    requires 0 < j <= |prefix|
    ensures (prefix[..j] + [x] + prefix[j..] + rest)[j - 1 := x][j := prefix[j - 1]] ==
      prefix[..j - 1] + [x] + prefix[j - 1..] + rest
  {
  }

  /** Sorting a prefix one element longer inserts that element into the
      sorted shorter prefix. */
  lemma {:induction false} SortPrefixStep(s: seq<string>, i: nat)
    requires i < |s|
    ensures InsertionSort(s[..i + 1]) == Insert(InsertionSort(s[..i]), s[i])
  {
    assert s[..i + 1][..i] == s[..i];
  }

  /** Moves `a[i]` left into the sorted prefix `a[..i]`, swapping it with
      its left neighbour while the comparator puts it first. */
  method InsertAt(a: array<string>, i: nat)
    requires i < a.Length
    modifies a
    ensures a[..i + 1] == Insert(old(a[..i]), old(a[i]))
    ensures a[i + 1..] == old(a[i + 1..])
  {
    ghost var prefix := a[..i];
    ghost var rest := a[i + 1..];
    var x := a[i];
    var j := i;
    assert a[..] == prefix[..j] + [x] + prefix[j..] + rest by {
      assert prefix[..j] == prefix && prefix[j..] == [];
      assert a[..] == a[..i] + [a[i]] + a[i + 1..];
    }
    assert Insert(prefix, x) == Insert(prefix[..j], x) + prefix[j..] by {
      assert prefix[..j] == prefix && prefix[j..] == [];
    }
    while j > 0 && Compare(a[j - 1], a[j]) > 0
      invariant 0 <= j <= i
      invariant a[..] == prefix[..j] + [x] + prefix[j..] + rest
      invariant Insert(prefix, x) == Insert(prefix[..j], x) + prefix[j..]
    {
      assert a[j - 1] == prefix[j - 1] && a[j] == x by {
        assert a[..][j - 1] == a[j - 1] && a[..][j] == a[j];
      }
      InsertStep(prefix, j, x);
      a[j - 1], a[j] := a[j], a[j - 1];
      SwapStep(prefix, j, x, rest);
      j := j - 1;
    }
    assert a[..] == Insert(prefix, x) + rest by {
      assert j > 0 ==> a[j - 1] == prefix[j - 1] && a[j] == x by {
        if j > 0 {
          assert a[..][j - 1] == a[j - 1] && a[..][j] == a[j];
        }
      }
      InsertStop(prefix, j, x);
    }
    assert a[..][..i + 1] == a[..i + 1] && a[..][i + 1..] == a[i + 1..];
  }

  /** Copies the tasks into an array and sorts the copy in place, one
      insertion per element. */
  method SortTasks(tasks: seq<string>) returns (sorted: seq<string>)
    ensures sorted == InsertionSort(tasks)
  {
    var a := new string[|tasks|](i requires 0 <= i < |tasks| => tasks[i]);
    var i := 0;
    while i < a.Length
      invariant 0 <= i <= a.Length
      invariant a[..i] == InsertionSort(tasks[..i])
      invariant a[i..] == tasks[i..]
    {
      InsertAt(a, i);
      SortPrefixStep(tasks, i);
      i := i + 1;
    }
    sorted := a[..];
    assert tasks[..a.Length] == tasks;
  }
}
