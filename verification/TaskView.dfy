/**
 * The list the task page renders: the fetched tasks filtered by completion
 * status, then sorted on `createdAt` by the page's comparator. The sort is
 * `Array.prototype.sort`, which ECMA-262 requires to be stable; here it is
 * a stable insertion sort, and any stable sort by that comparator is shown
 * to produce the same list.
 */
module TaskView {
  import opened Tasks

  datatype StatusFilter = All | Completed | NotCompleted
  datatype SortOrder = Asc | Desc

  /** The filter callback: which tasks a status filter keeps. */
  predicate Keeps(filter: StatusFilter, task: Task): (r: bool)
    ensures filter == All ==> r
    ensures filter != All ==> (r <==> task.completed == (filter == Completed))
  {
    match filter
    case Completed => task.completed
    case NotCompleted => !task.completed
    case All => true
  }

  /** `tasks.filter(...)`: keeps, in order, exactly the tasks the callback accepts. */
  function FilterTasks(tasks: seq<Task>, filter: StatusFilter): (r: seq<Task>)
    ensures forall t :: multiset(r)[t] == if Keeps(filter, t) then multiset(tasks)[t] else 0
    ensures |r| <= |tasks|
  {
    if |tasks| == 0 then []
    else
      assert tasks == [tasks[0]] + tasks[1..];
      (if Keeps(filter, tasks[0]) then [tasks[0]] else []) + FilterTasks(tasks[1..], filter)
  }

  /** Filter `all` returns the list itself. */
  lemma {:induction false} FilterAllIsIdentity(tasks: seq<Task>)
    ensures FilterTasks(tasks, All) == tasks
  {
    if |tasks| > 0 {
      FilterAllIsIdentity(tasks[1..]);
      FilterCons(tasks[0], tasks[1..], All);
      assert tasks == [tasks[0]] + tasks[1..];
    }
  }

  /**
   * `completed` and `notCompleted` split the list: every task lands in
   * exactly one of them, with its multiplicity, and nothing else does.
   */
  lemma FilterPartitions(tasks: seq<Task>)
    ensures multiset(FilterTasks(tasks, Completed)) + multiset(FilterTasks(tasks, NotCompleted)) == multiset(tasks)
    ensures multiset(FilterTasks(tasks, Completed)) * multiset(FilterTasks(tasks, NotCompleted)) == multiset{}
    ensures |FilterTasks(tasks, Completed)| + |FilterTasks(tasks, NotCompleted)| == |tasks|
  {
    var c, n := multiset(FilterTasks(tasks, Completed)), multiset(FilterTasks(tasks, NotCompleted));
    forall t ensures (c + n)[t] == multiset(tasks)[t] && (c * n)[t] == 0 {
      if t.completed {
        assert n[t] == 0;
      } else {
        assert c[t] == 0;
      }
    }
    assert c + n == multiset(tasks);
    assert c * n == multiset{};
    assert |c + n| == |multiset(tasks)|;
  }

  /**
   * The filter keeps the input order: filtering a concatenation filters each
   * part and concatenates, so every kept task stays where it was relative to
   * the others.
   */
  lemma {:induction false} FilterDistributes(a: seq<Task>, b: seq<Task>, filter: StatusFilter)
    ensures FilterTasks(a + b, filter) == FilterTasks(a, filter) + FilterTasks(b, filter)
  {
    if |a| == 0 {
      assert a + b == b;
    } else {
      SplitHead(a, b);
      FilterDistributes(a[1..], b, filter);
      FilterDistributesStep(a[0], a[1..], b, filter);
    }
  }

  lemma FilterDistributesStep(x: Task, rest: seq<Task>, b: seq<Task>, filter: StatusFilter)
    requires FilterTasks(rest + b, filter) == FilterTasks(rest, filter) + FilterTasks(b, filter)
    ensures FilterTasks([x] + (rest + b), filter) == FilterTasks([x] + rest, filter) + FilterTasks(b, filter)
  {
    FilterCons(x, rest, filter);
    FilterCons(x, rest + b, filter);
    ConcatIsAssociative(if Keeps(filter, x) then [x] else [], FilterTasks(rest, filter), FilterTasks(b, filter));
  }

  lemma SplitHead(a: seq<Task>, b: seq<Task>)
    requires |a| > 0
    ensures a == [a[0]] + a[1..] && a + b == [a[0]] + (a[1..] + b)
  {
    assert a == [a[0]] + a[1..];
    ConcatIsAssociative([a[0]], a[1..], b);
  }

  lemma ConcatIsAssociative(x: seq<Task>, y: seq<Task>, z: seq<Task>)
    ensures x + (y + z) == (x + y) + z
  {
    assert forall i :: 0 <= i < |x| + |y| + |z| ==> (x + (y + z))[i] == ((x + y) + z)[i];
  }

  lemma FilterCons(x: Task, s: seq<Task>, filter: StatusFilter)
    ensures FilterTasks([x] + s, filter) == (if Keeps(filter, x) then [x] else []) + FilterTasks(s, filter)
  {
    assert ([x] + s)[1..] == s;
  }

  /**
   * The comparator `(a, b) => dateA - dateB` for `asc` and `dateB - dateA`
   * for `desc`, over integer timestamps.
   */
  function Compare(order: SortOrder, a: Task, b: Task): (r: int)
    ensures r == 0 <==> a.createdAt == b.createdAt
    ensures order == Asc ==> (r < 0 <==> a.createdAt < b.createdAt)
    ensures order == Desc ==> (r < 0 <==> b.createdAt < a.createdAt)
  {
    match order
    case Asc => a.createdAt - b.createdAt
    case Desc => b.createdAt - a.createdAt
  }

  /** `a` may come before `b`: the comparator does not put `b` first. */
  predicate InOrder(order: SortOrder, a: Task, b: Task) {
    Compare(order, a, b) <= 0
  }

  /** Non-decreasing `createdAt` for `asc`, non-increasing for `desc`. */
  predicate Sorted(order: SortOrder, s: seq<Task>) {
    forall i, j :: 0 <= i < j < |s| ==> InOrder(order, s[i], s[j])
  }

  /** The tasks of `s` created at time `key`, in their order in `s`. */
  function WithKey(s: seq<Task>, key: int): seq<Task> {
    if |s| == 0 then []
    else (if s[0].createdAt == key then [s[0]] else []) + WithKey(s[1..], key)
  }

  /**
   * Stability: tasks with equal `createdAt` (the comparator returns 0) keep
   * their relative order.
   */
  ghost predicate StablePermutation(s: seq<Task>, r: seq<Task>) {
    forall key :: WithKey(r, key) == WithKey(s, key)
  }

  lemma {:induction false} WithKeyMembership(s: seq<Task>, key: int, t: Task)
    ensures t in WithKey(s, key) <==> t in s && t.createdAt == key
  {
    if |s| > 0 {
      WithKeyMembership(s[1..], key, t);
      assert s == [s[0]] + s[1..];
    }
  }

  /** Places `x` before the first element it may precede; after all it may not. */
  function Insert(order: SortOrder, x: Task, s: seq<Task>): (r: seq<Task>)
    ensures multiset(r) == multiset(s) + multiset{x}
  {
    if |s| == 0 then [x]
    else if InOrder(order, x, s[0]) then [x] + s
    else
      assert s == [s[0]] + s[1..];
      [s[0]] + Insert(order, x, s[1..])
  }

  lemma {:induction false} InsertKeepsSorted(order: SortOrder, x: Task, s: seq<Task>)
    requires Sorted(order, s)
    ensures Sorted(order, Insert(order, x, s))
  {
    if |s| > 0 && !InOrder(order, x, s[0]) {
      var rest := Insert(order, x, s[1..]);
      InsertKeepsSorted(order, x, s[1..]);
      forall j | 0 <= j < |rest| ensures InOrder(order, s[0], rest[j]) {
        assert rest[j] in multiset(s[1..]) + multiset{x};
        if rest[j] != x {
          var i :| 0 <= i < |s[1..]| && s[1..][i] == rest[j];
          assert s[1 + i] == rest[j];
        }
      }
      SortedCons(order, s[0], rest);
    }
  }

  /** Putting in front of a sorted list an element that may precede all of it keeps it sorted. */
  lemma SortedCons(order: SortOrder, y: Task, r: seq<Task>)
    requires Sorted(order, r)
    requires forall j :: 0 <= j < |r| ==> InOrder(order, y, r[j])
    ensures Sorted(order, [y] + r)
  {
    var s := [y] + r;
    forall i, j | 0 <= i < j < |s| ensures InOrder(order, s[i], s[j]) {
      assert s[j] == r[j - 1];
      if i > 0 {
        assert s[i] == r[i - 1];
      }
    }
  }

  /** `.sort(comparator)`: a stable insertion sort. */
  function SortTasks(order: SortOrder, s: seq<Task>): (r: seq<Task>)
    ensures multiset(r) == multiset(s)
    ensures Sorted(order, r)
  {
    if |s| == 0 then []
    else
      assert s == [s[0]] + s[1..];
      InsertKeepsSorted(order, s[0], SortTasks(order, s[1..]));
      Insert(order, s[0], SortTasks(order, s[1..]))
  }

  lemma WithKeyCons(a: Task, t: seq<Task>, key: int)
    ensures WithKey([a] + t, key) == (if a.createdAt == key then [a] else []) + WithKey(t, key)
  {
    assert ([a] + t)[1..] == t;
  }

  /** One step of `Insert` past `s[0]` keeps the ties: `x` and `s[0]` cannot tie there. */
  lemma InsertTiesStep(order: SortOrder, x: Task, s: seq<Task>, rest: seq<Task>, key: int)
    requires |s| > 0 && !InOrder(order, x, s[0])
    requires WithKey(rest, key) == (if x.createdAt == key then [x] else []) + WithKey(s[1..], key)
    ensures WithKey([s[0]] + rest, key) == (if x.createdAt == key then [x] else []) + WithKey(s, key)
  {
    WithKeyCons(s[0], rest, key);
    assert s == [s[0]] + s[1..];
    WithKeyCons(s[0], s[1..], key);
    var tail := WithKey(s[1..], key);
    if x.createdAt == key {
      assert s[0].createdAt != key;
      assert WithKey(s, key) == tail;
    } else {
      assert WithKey(rest, key) == tail;
    }
  }

  lemma {:induction false} InsertKeepsTies(order: SortOrder, x: Task, s: seq<Task>, key: int)
    ensures WithKey(Insert(order, x, s), key) == (if x.createdAt == key then [x] else []) + WithKey(s, key)
  {
    if |s| == 0 {
      WithKeyCons(x, [], key);
    } else if InOrder(order, x, s[0]) {
      WithKeyCons(x, s, key);
    } else {
      InsertKeepsTies(order, x, s[1..], key);
      InsertTiesStep(order, x, s, Insert(order, x, s[1..]), key);
    }
  }

  /** The sort is stable: ties keep the order they had in the input. */
  lemma {:induction false} SortIsStable(order: SortOrder, s: seq<Task>)
    ensures StablePermutation(s, SortTasks(order, s))
  {
    if |s| > 0 {
      SortIsStable(order, s[1..]);
      forall key ensures WithKey(SortTasks(order, s), key) == WithKey(s, key) {
        InsertKeepsTies(order, s[0], SortTasks(order, s[1..]), key);
      }
    }
  }

  lemma {:induction false} WithKeyEmpty(s: seq<Task>)
    ensures s == [] <==> forall key :: WithKey(s, key) == []
  {
    if |s| > 0 {
      WithKeyMembership(s, s[0].createdAt, s[0]);
    }
  }

  /**
   * A sorted list is determined by its per-timestamp subsequences: two sorted
   * lists with the same ties in the same order are equal.
   */
  lemma {:induction false} SortedIsDeterminedByTies(order: SortOrder, r1: seq<Task>, r2: seq<Task>)
    requires Sorted(order, r1) && Sorted(order, r2)
    requires forall key :: WithKey(r1, key) == WithKey(r2, key)
    ensures r1 == r2
    decreases |r1|
  {
    WithKeyEmpty(r1);
    WithKeyEmpty(r2);
    if |r1| > 0 {
      var a, b := r1[0], r2[0];
      WithKeyMembership(r2, b.createdAt, b);
      WithKeyMembership(r1, b.createdAt, b);
      WithKeyMembership(r1, a.createdAt, a);
      WithKeyMembership(r2, a.createdAt, a);
      assert InOrder(order, a, b) by {
        if a != b {
          var j :| 0 <= j < |r1| && r1[j] == b;
        }
      }
      assert InOrder(order, b, a) by {
        if a != b {
          var j :| 0 <= j < |r2| && r2[j] == a;
        }
      }
      var k := a.createdAt;
      assert b.createdAt == k;
      var t1, t2 := WithKey(r1[1..], k), WithKey(r2[1..], k);
      assert WithKey(r1, k) == [a] + t1 && WithKey(r2, k) == [b] + t2;
      assert ([a] + t1)[0] == ([b] + t2)[0] && ([a] + t1)[1..] == ([b] + t2)[1..];
      forall key ensures WithKey(r1[1..], key) == WithKey(r2[1..], key) {
        if key != k {
          assert WithKey(r1, key) == WithKey(r1[1..], key);
          assert WithKey(r2, key) == WithKey(r2[1..], key);
        }
      }
      SortedIsDeterminedByTies(order, r1[1..], r2[1..]);
      assert r1 == [a] + r1[1..];
      assert r2 == [b] + r2[1..];
    }
  }

  /**
   * Any stable sort by the page's comparator returns exactly `SortTasks`, so
   * the model's insertion sort stands for whatever algorithm the JavaScript
   * engine uses.
   */
  lemma StableSortIsUnique(order: SortOrder, s: seq<Task>, r: seq<Task>)
    requires Sorted(order, r) && StablePermutation(s, r)
    ensures r == SortTasks(order, s)
  {
    SortIsStable(order, s);
    SortedIsDeterminedByTies(order, r, SortTasks(order, s));
  }

  /** `filteredAndSortedTasks`: filter first, then sort the filtered copy. */
  function FilteredAndSorted(tasks: seq<Task>, filter: StatusFilter, order: SortOrder): (r: seq<Task>)
    ensures multiset(r) == multiset(FilterTasks(tasks, filter))
    ensures Sorted(order, r)
    ensures forall t :: t in r <==> t in tasks && Keeps(filter, t)
  {
    var kept := FilterTasks(tasks, filter);
    var r := SortTasks(order, kept);
    assert forall t :: t in r <==> t in multiset(kept);
    r
  }

  /** The rendered list keeps the filter's order among tasks created at the same time. */
  /** Filtering and then taking the tasks of one timestamp is taking them and then filtering. */
  lemma {:induction false} FilterKeepsTies(tasks: seq<Task>, filter: StatusFilter, key: int)
    ensures WithKey(FilterTasks(tasks, filter), key) == FilterTasks(WithKey(tasks, key), filter)
  {
    if |tasks| > 0 {
      SplitHead(tasks, []);
      FilterKeepsTies(tasks[1..], filter, key);
      FilterKeepsTiesStep(tasks[0], tasks[1..], filter, key);
    }
  }

  lemma FilterKeepsTiesStep(x: Task, rest: seq<Task>, filter: StatusFilter, key: int)
    requires WithKey(FilterTasks(rest, filter), key) == FilterTasks(WithKey(rest, key), filter)
    ensures WithKey(FilterTasks([x] + rest, filter), key) == FilterTasks(WithKey([x] + rest, key), filter)
  {
    var fr, wr := FilterTasks(rest, filter), WithKey(rest, key);
    FilterCons(x, rest, filter);
    WithKeyCons(x, rest, key);
    if Keeps(filter, x) {
      WithKeyCons(x, fr, key);
      if x.createdAt == key {
        FilterCons(x, wr, filter);
      } else {
        assert [] + wr == wr;
      }
    } else {
      assert [] + fr == fr;
      if x.createdAt == key {
        FilterCons(x, wr, filter);
        assert [] + FilterTasks(wr, filter) == FilterTasks(wr, filter);
      } else {
        assert [] + wr == wr;
      }
    }
  }

  /**
   * Among tasks created at the same time, the rendered list keeps the order
   * they have in the filtered list, and so the order they have in `tasks`.
   */
  lemma ViewKeepsFilterOrderOnTies(tasks: seq<Task>, filter: StatusFilter, order: SortOrder)
    ensures StablePermutation(FilterTasks(tasks, filter), FilteredAndSorted(tasks, filter, order))
    ensures forall key :: WithKey(FilteredAndSorted(tasks, filter, order), key) == FilterTasks(WithKey(tasks, key), filter)
  {
    SortIsStable(order, FilterTasks(tasks, filter));
    forall key ensures WithKey(FilteredAndSorted(tasks, filter, order), key) == FilterTasks(WithKey(tasks, key), filter) {
      FilterKeepsTies(tasks, filter, key);
    }
  }

  function Reverse(s: seq<Task>): (r: seq<Task>)
    ensures |r| == |s|
    ensures forall i :: 0 <= i < |s| ==> r[i] == s[|s| - 1 - i]
  {
    if |s| == 0 then [] else Reverse(s[1..]) + [s[0]]
  }

  /** No two tasks share a `createdAt`. */
  predicate DistinctTimes(s: seq<Task>) {
    forall i, j :: 0 <= i < j < |s| ==> s[i].createdAt != s[j].createdAt
  }

  lemma {:induction false} WithKeyConcat(a: seq<Task>, b: seq<Task>, key: int)
    ensures WithKey(a + b, key) == WithKey(a, key) + WithKey(b, key)
  {
    if |a| > 0 {
      WithKeyConcat(a[1..], b, key);
      assert (a + b)[1..] == a[1..] + b;
    } else {
      assert a + b == b;
    }
  }

  lemma {:induction false} WithKeyReverse(s: seq<Task>, key: int)
    ensures WithKey(Reverse(s), key) == Reverse(WithKey(s, key))
  {
    if |s| > 0 {
      var x, w := s[0], WithKey(s[1..], key);
      WithKeyReverse(s[1..], key);
      assert Reverse(s) == Reverse(s[1..]) + [x];
      WithKeyConcat(Reverse(s[1..]), [x], key);
      assert WithKey([x], key) == if x.createdAt == key then [x] else [];
      if x.createdAt == key {
        assert WithKey(s, key) == [x] + w;
        assert ([x] + w)[1..] == w;
        assert Reverse([x] + w) == Reverse(w) + [x];
      } else {
        assert WithKey(s, key) == w;
      }
    }
  }

  lemma {:induction false} WithKeyAbsent(s: seq<Task>, key: int)
    requires forall i :: 0 <= i < |s| ==> s[i].createdAt != key
    ensures WithKey(s, key) == []
  {
    if |s| > 0 {
      WithKeyAbsent(s[1..], key);
    }
  }

  lemma {:induction false} DistinctTimesHaveNoTies(s: seq<Task>, key: int)
    requires DistinctTimes(s)
    ensures |WithKey(s, key)| <= 1
  {
    if |s| > 0 {
      DistinctTimesHaveNoTies(s[1..], key);
      if s[0].createdAt == key {
        var rest := s[1..];
        forall i | 0 <= i < |rest| ensures rest[i].createdAt != key {
          assert rest[i] == s[i + 1];
        }
        WithKeyAbsent(rest, key);
      }
    }
  }

  /**
   * With pairwise distinct timestamps, oldest-first is newest-first read
   * backwards.
   */
  lemma DescIsReversedAsc(s: seq<Task>)
    requires DistinctTimes(s)
    ensures SortTasks(Desc, s) == Reverse(SortTasks(Asc, s))
  {
    var asc := SortTasks(Asc, s);
    var r := Reverse(asc);
    assert Sorted(Desc, r);
    SortIsStable(Asc, s);
    forall key ensures WithKey(r, key) == WithKey(s, key) {
      WithKeyReverse(asc, key);
      DistinctTimesHaveNoTies(s, key);
      var w := WithKey(asc, key);
      assert Reverse(w) == w;
    }
    StableSortIsUnique(Desc, s, r);
  }
}
