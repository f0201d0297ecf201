/** filterTasks (lib/api/taskService.ts): a stable filter with three
    independent optional criteria. */
module TaskFilter {
  import opened Types
  import opened Text
  import opened Seqs

  /** The callback of filterTasks. A present `status` or `priority` list
      constrains even when empty, because an array is truthy; `search`
      constrains only when non-empty, because the empty string is falsy;
      `assignee` is never consulted. */
  predicate Matches(t: Task, f: FilterOptions)
  {
    && (f.status.Some? ==> t.status in f.status.value)
    && (f.priority.Some? ==> t.priority in f.priority.value)
    && (f.search.Some? && f.search.value != "" ==> Contains(Lower(t.title), Lower(f.search.value)))
  }

  /** Only the lower-cased title is compared, so the title's case does not
      matter; an empty query constrains as little as no query. */
  lemma MatchesIgnoresTitleCase(t: Task, f: FilterOptions)
    ensures Matches(t.(title := Lower(t.title)), f) == Matches(t, f)
    ensures Matches(t, f.(search := Some(""))) == Matches(t, f.(search := None))
  {
    LowerIdempotent(t.title);
  }

  /** A task found by a non-empty query has a title at least as long as
      the query, and every task passes a filter without criteria. */
  lemma MatchedQueryFitsTitle(t: Task, q: string)
    ensures q != "" && Matches(t, SearchOnly(q)) ==> |q| <= |t.title|
    ensures Matches(t, FilterOptions(None, None, None, None))
  {
    if q != "" && Matches(t, SearchOnly(q)) {
      var i :| OccursAt(Lower(t.title), Lower(q), i);
    }
  }

  /** `tasks.filter(Matches)`: exactly the matching tasks survive. */
  function FilterTasks(ts: seq<Task>, f: FilterOptions): (r: seq<Task>)
    ensures |r| <= |ts|
    ensures forall t :: t in r <==> t in ts && Matches(t, f)
  {
    if ts == [] then []
    else (if Matches(ts[0], f) then [ts[0]] else []) + FilterTasks(ts[1..], f)
  }

  /** Filters with only one criterion, as the views and the tests build them. */
  function StatusOnly(s: seq<Status>): FilterOptions
  {
    FilterOptions(Some(s), None, None, None)
  }

  function PriorityOnly(p: seq<Priority>): FilterOptions
  {
    FilterOptions(None, Some(p), None, None)
  }

  function SearchOnly(q: string): FilterOptions
  {
    FilterOptions(None, None, None, Some(q))
  }

  /** The surviving tasks keep their relative order. */
  lemma {:induction false} FilterIsSubsequence(ts: seq<Task>, f: FilterOptions)
    ensures IsSubsequence(FilterTasks(ts, f), ts)
    decreases |ts|
  {
    if ts != [] {
      FilterIsSubsequence(ts[1..], f);
      var rest := FilterTasks(ts[1..], f);
      if Matches(ts[0], f) {
        assert FilterTasks(ts, f) == [ts[0]] + rest;
        assert ([ts[0]] + rest)[1..] == rest;
      } else {
        assert FilterTasks(ts, f) == rest;
      }
    }
  }

  /** Duplicates are kept or dropped together: a matching task occurs in
      the result as often as in the input, a non-matching one never. */
  lemma {:induction false} FilterMultiplicity(ts: seq<Task>, f: FilterOptions, t: Task)
    ensures multiset(FilterTasks(ts, f))[t] == if Matches(t, f) then multiset(ts)[t] else 0
    decreases |ts|
  {
    if ts != [] {
      var head := if Matches(ts[0], f) then [ts[0]] else [];
      FilterMultiplicity(ts[1..], f, t);
      assert FilterTasks(ts, f) == head + FilterTasks(ts[1..], f);
      MultisetHeadTail(ts);
    }
  }

  /** Filtering distributes over concatenation. */
  lemma {:induction false} FilterAppend(a: seq<Task>, b: seq<Task>, f: FilterOptions)
    ensures FilterTasks(a + b, f) == FilterTasks(a, f) + FilterTasks(b, f)
    decreases |a|
  {
    if a != [] {
      var head := if Matches(a[0], f) then [a[0]] else [];
      var tail, rest := FilterTasks(a[1..], f), FilterTasks(b, f);
      FilterAppend(a[1..], b, f);
      AppendHeadTail(a, b);
      assert FilterTasks(a, f) == head + tail;
      calc {
        FilterTasks(a + b, f);
        head + FilterTasks(a[1..] + b, f);
        head + (tail + rest);
        { AppendAssoc(head, tail, rest); }
        (head + tail) + rest;
      }
    } else {
      assert a + b == b;
    }
  }

  /** With no status, no priority and no (or an empty) search, every task
      survives in place: `filterTasks(tasks, {})` is `tasks`, whatever the
      assignee. */
  lemma {:induction false} FilterWithoutCriteria(ts: seq<Task>, f: FilterOptions)
    requires f.status.None? && f.priority.None?
    requires f.search.None? || f.search.value == ""
    ensures FilterTasks(ts, f) == ts
    decreases |ts|
  {
    if ts != [] {
      FilterWithoutCriteria(ts[1..], f);
      assert ts == [ts[0]] + ts[1..];
    }
  }

  /** A present but empty status or priority list rejects every task. */
  lemma EmptyListRejectsAll(ts: seq<Task>, f: FilterOptions)
    requires f.status == Some([]) || f.priority == Some([])
    ensures FilterTasks(ts, f) == []
  {
  }

  /** The assignee field never changes the result. */
  lemma {:induction false} FilterIgnoresAssignee(ts: seq<Task>, f: FilterOptions, a: Option<string>)
    ensures FilterTasks(ts, f.(assignee := a)) == FilterTasks(ts, f)
    decreases |ts|
  {
    if ts != [] {
      FilterIgnoresAssignee(ts[1..], f, a);
    }
  }

  /** Filtering by two filters in turn keeps exactly the tasks both accept. */
  lemma {:induction false} FilterTwice(ts: seq<Task>, f: FilterOptions, g: FilterOptions, h: FilterOptions)
    requires forall t :: Matches(t, h) <==> Matches(t, f) && Matches(t, g)
    ensures FilterTasks(FilterTasks(ts, f), g) == FilterTasks(ts, h)
    decreases |ts|
  {
    if ts != [] {
      FilterTwice(ts[1..], f, g, h);
      var rest := FilterTasks(ts[1..], f);
      if Matches(ts[0], f) {
        assert FilterTasks(ts, f) == [ts[0]] + rest;
        FilterAppend([ts[0]], rest, g);
        assert [ts[0]][1..] == [];
        assert FilterTasks([ts[0]], g) == if Matches(ts[0], g) then [ts[0]] else [];
      } else {
        assert FilterTasks(ts, f) == rest;
      }
    }
  }

  /** Filtering by status and priority together equals filtering by status
      and then by priority, in either order, and keeps exactly the tasks
      that filtering by either alone keeps. */
  lemma StatusAndPriorityIsIntersection(ts: seq<Task>, s: seq<Status>, p: seq<Priority>)
    ensures var both := FilterTasks(ts, FilterOptions(Some(s), Some(p), None, None));
      && both == FilterTasks(FilterTasks(ts, StatusOnly(s)), PriorityOnly(p))
      && both == FilterTasks(FilterTasks(ts, PriorityOnly(p)), StatusOnly(s))
      && forall t :: t in both <==> t in FilterTasks(ts, StatusOnly(s)) && t in FilterTasks(ts, PriorityOnly(p))
  {
    var both := FilterOptions(Some(s), Some(p), None, None);
    FilterTwice(ts, StatusOnly(s), PriorityOnly(p), both);
    FilterTwice(ts, PriorityOnly(p), StatusOnly(s), both);
  }

  /** Filtering twice by the same criteria changes nothing more. */
  lemma FilterIdempotent(ts: seq<Task>, f: FilterOptions)
    ensures FilterTasks(FilterTasks(ts, f), f) == FilterTasks(ts, f)
  {
    FilterTwice(ts, f, f, f);
  }

  /** The search is case-insensitive: a query and its lower-cased form
      select the same tasks. */
  lemma SearchIgnoresQueryCase(ts: seq<Task>, q: string)
    ensures FilterTasks(ts, SearchOnly(q)) == FilterTasks(ts, SearchOnly(Lower(q)))
  {
    forall t ensures Matches(t, SearchOnly(Lower(q))) <==> Matches(t, SearchOnly(q)) && Matches(t, SearchOnly(q)) {
      LowerIdempotent(q);
    }
    FilterTwice(ts, SearchOnly(q), SearchOnly(q), SearchOnly(Lower(q)));
    FilterIdempotent(ts, SearchOnly(q));
  }

  /** `tasks.filter(task => task.status === s)`, the per-status selection
      the board and the list view show. */
  function WithStatus(ts: seq<Task>, s: Status): (r: seq<Task>)
    ensures |r| <= |ts|
    ensures forall t :: t in r <==> t in ts && t.status == s
  {
    if ts == [] then []
    else (if ts[0].status == s then [ts[0]] else []) + WithStatus(ts[1..], s)
  }

  /** One status column is what the store's filter keeps for that status
      alone. */
  lemma {:induction false} WithStatusIsStatusFilter(ts: seq<Task>, s: Status)
    ensures WithStatus(ts, s) == FilterTasks(ts, StatusOnly([s]))
    decreases |ts|
  {
    if ts != [] {
      WithStatusIsStatusFilter(ts[1..], s);
    }
  }

  /** Appending one task extends its own status's selection only. */
  lemma {:induction false} WithStatusSnoc(ts: seq<Task>, t: Task, s: Status)
    ensures WithStatus(ts + [t], s) == WithStatus(ts, s) + (if t.status == s then [t] else [])
    decreases |ts|
  {
    var last := if t.status == s then [t] else [];
    if ts == [] {
      assert ts + [t] == [t];
      assert [t][1..] == [];
    } else {
      var head := if ts[0].status == s then [ts[0]] else [];
      WithStatusSnoc(ts[1..], t, s);
      AppendHeadTail(ts, [t]);
      calc {
        WithStatus(ts + [t], s);
        head + WithStatus(ts[1..] + [t], s);
        head + (WithStatus(ts[1..], s) + last);
        { AppendAssoc(head, WithStatus(ts[1..], s), last); }
        (head + WithStatus(ts[1..], s)) + last;
        WithStatus(ts, s) + last;
      }
    }
  }

  /** The four status selections partition the list: every task lands in
      the selection of its own status only, so their sizes add up to the
      size of the list. */
  lemma {:induction false} StatusPartition(ts: seq<Task>)
    ensures |WithStatus(ts, Todo)| + |WithStatus(ts, InProgress)|
          + |WithStatus(ts, NeedReview)| + |WithStatus(ts, Done)| == |ts|
    decreases |ts|
  {
    if ts != [] {
      StatusPartition(ts[1..]);
    }
  }
}
