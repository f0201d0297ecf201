/** sortTasks (lib/api/taskService.ts): copies the list into a fresh array
    and sorts that copy with the comparator `aValue - bValue` (asc) or
    `bValue - aValue` (desc). Array.prototype.sort is stable, so equal
    keys keep their input order. The specification is a stable insertion
    sort on sequences; SortIsUnique shows that every stable ordering by
    the comparator equals it, so the choice of algorithm does not matter. */
module TaskSort {
  import opened Types
  import opened Seqs

  /** The rank used for priority: urgent=0, high=1, medium=2, low=3. */
  function PriorityRank(p: Priority): (r: int)
    ensures 0 <= r <= 3
    ensures r == 0 <==> p == Urgent
    ensures r == 3 <==> p == Low
  {
    match p
    case Urgent => 0
    case High => 1
    case Medium => 2
    case Low => 3
  }

  /** The value the comparator reads for a task. */
  function SortKey(t: Task, field: SortField): int
  {
    match field
    case DueDate => t.dueDate
    case CreatedAt => t.createdAt
    case PriorityField => PriorityRank(t.priority)
  }

  /** Ascending priority puts urgent first, then high, medium and low. */
  lemma UrgencyOrder()
    ensures PriorityRank(Urgent) < PriorityRank(High) < PriorityRank(Medium) < PriorityRank(Low)
  {
  }

  /** The comparator passed to `sort`: positive when `a` must come after
      `b`, zero when their keys tie. */
  function Compare(a: Task, b: Task, o: SortOptions): (r: int)
    ensures r == 0 <==> SortKey(a, o.field) == SortKey(b, o.field)
    ensures r <= 0 <==> KeyOrdered(a, b, o)
  {
    if o.direction == Asc then SortKey(a, o.field) - SortKey(b, o.field)
    else SortKey(b, o.field) - SortKey(a, o.field)
  }

  /** Swapping the arguments negates the comparator, and so does
      reversing the direction. */
  lemma CompareAntisymmetric(a: Task, b: Task, o: SortOptions)
    ensures Compare(a, b, o) == -Compare(b, a, o)
    ensures Compare(a, b, o.(direction := Desc)) == -Compare(a, b, o.(direction := Asc))
  {
  }

  /** Sorting by ascending priority puts an urgent task before any task
      that is not urgent, and descending priority puts it after. */
  lemma UrgentFirstAscending(a: Task, b: Task, d: Direction)
    requires a.priority == Urgent && b.priority != Urgent
    ensures Compare(a, b, SortOptions(PriorityField, d)) < 0 <==> d == Asc
  {
  }

  /** `a` may stand before `b` in the chosen direction. */
  predicate KeyOrdered(a: Task, b: Task, o: SortOptions)
  {
    if o.direction == Asc then SortKey(a, o.field) <= SortKey(b, o.field)
    else SortKey(a, o.field) >= SortKey(b, o.field)
  }

  /** Every pair of positions is in key order. */
  ghost predicate Sorted(s: seq<Task>, o: SortOptions)
  {
    forall i, j :: 0 <= i < j < |s| ==> KeyOrdered(s[i], s[j], o)
  }

  /** The tasks of `s` whose key is `k`, in order. */
  function WithKey(s: seq<Task>, field: SortField, k: int): (r: seq<Task>)
    ensures forall t :: t in r <==> t in s && SortKey(t, field) == k
  {
    if s == [] then []
    else (if SortKey(s[0], field) == k then [s[0]] else []) + WithKey(s[1..], field, k)
  }

  /** Equal keys keep their relative order: for every key value, the tasks
      carrying it appear in `r` in the same order as in `s`. */
  ghost predicate Stable(r: seq<Task>, s: seq<Task>, field: SortField)
  {
    forall k :: WithKey(r, field, k) == WithKey(s, field, k)
  }

  /** Inserts `x` after the last element that does not compare greater
      than it, scanning from the back as the array insertion does. */
  function Insert(s: seq<Task>, x: Task, o: SortOptions): seq<Task>
  {
    if s == [] || Compare(s[|s| - 1], x, o) <= 0 then s + [x]
    else Insert(s[..|s| - 1], x, o) + [s[|s| - 1]]
  }

  /** The specification of sortTasks: a stable insertion sort. */
  function SortTasks(s: seq<Task>, o: SortOptions): seq<Task>
  {
    if s == [] then [] else Insert(SortTasks(s[..|s| - 1], o), s[|s| - 1], o)
  }

  /** sortTasks as the source runs it: copy, then sort the copy in place. */
  method SortCopy(tasks: seq<Task>, o: SortOptions) returns (sorted: seq<Task>)
    ensures sorted == SortTasks(tasks, o)
  {
    var a := new Task[|tasks|](k requires 0 <= k < |tasks| => tasks[k]);
    var i := 0;
    while i < a.Length
      invariant 0 <= i <= a.Length
      invariant a[..i] == SortTasks(tasks[..i], o)
      invariant a[i..] == tasks[i..]
    {
      ghost var run := a[..i];
      ghost var rest := a[i + 1..];
      assert a[i] == tasks[i] && rest == tasks[i + 1..] by {
        assert a[i..][0] == tasks[i..][0];
        assert a[i..][1..] == tasks[i..][1..];
      }
      InsertLast(a, i, o);
      SortStep(tasks, i, o);
      i := i + 1;
    }
    assert a[..] == a[..a.Length];
    assert tasks[..a.Length] == tasks;
    sorted := a[..];
  }

  /** One more element of the input is one more insertion. */
  lemma SortStep(tasks: seq<Task>, i: nat, o: SortOptions)
    requires i < |tasks|
    ensures SortTasks(tasks[..i + 1], o) == Insert(SortTasks(tasks[..i], o), tasks[i], o)
  {
    assert tasks[..i + 1][..i] == tasks[..i];
  }

  /** Moves `a[i]` into the sorted run `a[..i]`, shifting the greater
      elements one place up. */
  method InsertLast(a: array<Task>, i: nat, o: SortOptions)
    requires i < a.Length
    modifies a
    ensures a[..i + 1] == Insert(old(a[..i]), old(a[i]), o)
    ensures a[i + 1..] == old(a[i + 1..])
  {
    ghost var prefix := a[..i];
    var x := a[i];
    var j := i;
    while j > 0 && Compare(a[j - 1], x, o) > 0
      invariant 0 <= j <= i
      invariant forall k :: 0 <= k < j ==> a[k] == prefix[k]
      invariant forall k :: j < k <= i ==> a[k] == prefix[k - 1]
      invariant a[i + 1..] == old(a[i + 1..])
      invariant forall k :: j <= k < i ==> Compare(prefix[k], x, o) > 0
    {
      a[j] := a[j - 1];
      j := j - 1;
    }
    a[j] := x;
    PlacedAt(a[..i + 1], prefix, j, x);
    InsertAt(prefix, j, x, o);
  }

  /** The array after the loop of InsertLast: the untouched run, then `x`,
      then the shifted run. */
  lemma PlacedAt<T>(s: seq<T>, prefix: seq<T>, j: nat, x: T)
    requires |s| == |prefix| + 1 && j <= |prefix|
    requires forall k :: 0 <= k < j ==> s[k] == prefix[k]
    requires s[j] == x
    requires forall k :: j < k < |s| ==> s[k] == prefix[k - 1]
    ensures s == prefix[..j] + [x] + prefix[j..]
  {
    var placed := prefix[..j] + [x] + prefix[j..];
    forall k | 0 <= k < |s|
      ensures s[k] == placed[k]
    {
      if k > j {
        assert placed[k] == prefix[j..][k - j - 1];
      }
    }
  }

  /** Insert puts `x` just behind the last element that does not compare
      greater than it, when every later element compares greater. */
  lemma {:induction false} InsertAt(prefix: seq<Task>, j: nat, x: Task, o: SortOptions)
    requires j <= |prefix|
    requires j == 0 || Compare(prefix[j - 1], x, o) <= 0
    requires forall k :: j <= k < |prefix| ==> Compare(prefix[k], x, o) > 0
    ensures Insert(prefix, x, o) == prefix[..j] + [x] + prefix[j..]
    decreases |prefix|
  {
    if j == |prefix| {
      assert prefix[..j] == prefix && prefix[j..] == [];
    } else {
      var init := prefix[..|prefix| - 1];
      var last := prefix[|prefix| - 1];
      assert j > 0 ==> init[j - 1] == prefix[j - 1];
      InsertAt(init, j, x, o);
      assert init[..j] == prefix[..j];
      assert prefix[j..] == init[j..] + [last];
    }
  }

  lemma {:induction false} WithKeyAppend(a: seq<Task>, b: seq<Task>, field: SortField, k: int)
    ensures WithKey(a + b, field, k) == WithKey(a, field, k) + WithKey(b, field, k)
    decreases |a|
  {
    if a == [] {
      assert a + b == b;
    } else {
      var head := if SortKey(a[0], field) == k then [a[0]] else [];
      WithKeyAppend(a[1..], b, field, k);
      AppendHeadTail(a, b);
      calc {
        WithKey(a + b, field, k);
        head + WithKey(a[1..] + b, field, k);
        head + (WithKey(a[1..], field, k) + WithKey(b, field, k));
        { AppendAssoc(head, WithKey(a[1..], field, k), WithKey(b, field, k)); }
        (head + WithKey(a[1..], field, k)) + WithKey(b, field, k);
      }
    }
  }

  /** A task occurs among those with key `k` as often as in the whole
      sequence when its key is `k`, and never otherwise. */
  lemma {:induction false} WithKeyMultiplicity(s: seq<Task>, field: SortField, k: int, t: Task)
    ensures multiset(WithKey(s, field, k))[t] == if SortKey(t, field) == k then multiset(s)[t] else 0
    decreases |s|
  {
    if s != [] {
      var head := if SortKey(s[0], field) == k then [s[0]] else [];
      WithKeyMultiplicity(s[1..], field, k, t);
      assert WithKey(s, field, k) == head + WithKey(s[1..], field, k);
      MultisetHeadTail(s);
    }
  }

  /** Insertion adds exactly `x`. */
  lemma {:induction false} InsertPermutes(s: seq<Task>, x: Task, o: SortOptions)
    ensures multiset(Insert(s, x, o)) == multiset(s) + multiset{x}
    decreases |s|
  {
    if s != [] && Compare(s[|s| - 1], x, o) > 0 {
      InsertPermutes(s[..|s| - 1], x, o);
      assert s == s[..|s| - 1] + [s[|s| - 1]];
    }
  }

  /** Insertion appends `x` to the tasks sharing its key and leaves the
      other keys' tasks as they were. */
  lemma {:induction false} InsertWithKey(s: seq<Task>, x: Task, o: SortOptions, k: int)
    ensures WithKey(Insert(s, x, o), o.field, k) == WithKey(s, o.field, k) + WithKey([x], o.field, k)
    decreases |s|
  {
    if s == [] || Compare(s[|s| - 1], x, o) <= 0 {
      WithKeyAppend(s, [x], o.field, k);
    } else {
      var init, last := s[..|s| - 1], s[|s| - 1];
      var wx, wl := WithKey([x], o.field, k), WithKey([last], o.field, k);
      InsertWithKey(init, x, o, k);
      WithKeyAppend(Insert(init, x, o), [last], o.field, k);
      assert s == init + [last];
      WithKeyAppend(init, [last], o.field, k);
      WithKeySingle(x, o.field, k);
      WithKeySingle(last, o.field, k);
      assert wx == [] || wl == [];
      calc {
        WithKey(Insert(s, x, o), o.field, k);
        WithKey(Insert(init, x, o) + [last], o.field, k);
        WithKey(Insert(init, x, o), o.field, k) + wl;
        (WithKey(init, o.field, k) + wx) + wl;
        { SwapAroundEmpty(WithKey(init, o.field, k), wx, wl); }
        (WithKey(init, o.field, k) + wl) + wx;
        WithKey(s, o.field, k) + wx;
      }
    }
  }

  /** Two appended pieces of which one is empty can be appended in
      either order. */
  lemma SwapAroundEmpty(a: seq<Task>, b: seq<Task>, c: seq<Task>)
    requires b == [] || c == []
    ensures (a + b) + c == (a + c) + b
  {
    if b == [] {
      assert a + b == a;
      assert (a + c) + b == a + c;
    } else {
      assert a + c == a;
      assert (a + b) + c == a + b;
    }
  }

  lemma WithKeySingle(t: Task, field: SortField, k: int)
    ensures WithKey([t], field, k) == if SortKey(t, field) == k then [t] else []
  {
    assert [t][1..] == [];
  }

  /** Insertion into a sorted sequence keeps it sorted. */
  lemma {:induction false} InsertSorted(s: seq<Task>, x: Task, o: SortOptions)
    requires Sorted(s, o)
    ensures Sorted(Insert(s, x, o), o)
    decreases |s|
  {
    if s == [] || Compare(s[|s| - 1], x, o) <= 0 {
      var r := s + [x];
      forall i, j | 0 <= i < j < |r|
        ensures KeyOrdered(r[i], r[j], o)
      {
        if j == |s| && i < |s| - 1 {
          assert KeyOrdered(s[i], s[|s| - 1], o);
        }
      }
    } else {
      var init, last := s[..|s| - 1], s[|s| - 1];
      assert Sorted(init, o);
      InsertSorted(init, x, o);
      InsertPermutes(init, x, o);
      var ins := Insert(init, x, o);
      var r := ins + [last];
      forall i, j | 0 <= i < j < |r|
        ensures KeyOrdered(r[i], r[j], o)
      {
        if j == |ins| {
          assert r[i] in multiset(ins);
          if r[i] != x {
            assert r[i] in init;
            var m :| 0 <= m < |init| && init[m] == r[i];
            assert KeyOrdered(s[m], s[|s| - 1], o);
          }
        }
      }
    }
  }

  /** What sortTasks promises: the result is a permutation of the input,
      in key order for the chosen direction, and stable. */
  lemma {:induction false} SortTasksCorrect(s: seq<Task>, o: SortOptions)
    ensures multiset(SortTasks(s, o)) == multiset(s)
    ensures Sorted(SortTasks(s, o), o)
    ensures Stable(SortTasks(s, o), s, o.field)
    decreases |s|
  {
    if s != [] {
      var init, last := s[..|s| - 1], s[|s| - 1];
      var prior := SortTasks(init, o);
      assert SortTasks(s, o) == Insert(prior, last, o);
      assert s == init + [last];
      SortTasksCorrect(init, o);
      InsertPermutes(prior, last, o);
      assert multiset(s) == multiset(init) + multiset{last};
      InsertSorted(prior, last, o);
      forall k
        ensures WithKey(Insert(prior, last, o), o.field, k) == WithKey(s, o.field, k)
      {
        InsertWithKey(prior, last, o, k);
        WithKeyAppend(init, [last], o.field, k);
      }
    }
  }

  /** A stable rearrangement is a permutation. */
  lemma StableIsPermutation(r: seq<Task>, s: seq<Task>, field: SortField)
    requires Stable(r, s, field)
    ensures multiset(r) == multiset(s)
  {
    forall t
      ensures multiset(r)[t] == multiset(s)[t]
    {
      var k := SortKey(t, field);
      WithKeyMultiplicity(r, field, k, t);
      WithKeyMultiplicity(s, field, k, t);
    }
  }

  /** Two sequences in key order that agree on the order of every key's
      tasks are equal. */
  lemma {:induction false} SortedStableUnique(r1: seq<Task>, r2: seq<Task>, o: SortOptions)
    requires Sorted(r1, o) && Sorted(r2, o)
    requires Stable(r1, r2, o.field)
    ensures r1 == r2
    decreases |r1|
  {
    var f := o.field;
    StableSameEmptiness(r1, r2, f);
    if r1 != [] {
      HeadKeysAgree(r1, r2, o);
      HeadsAndTailsAgree(r1, r2, f);
      assert Sorted(r1[1..], o) && Sorted(r2[1..], o);
      SortedStableUnique(r1[1..], r2[1..], o);
      assert r1 == [r1[0]] + r1[1..];
      assert r2 == [r2[0]] + r2[1..];
    }
  }

  /** Stability relates the empty sequence only to itself. */
  lemma StableSameEmptiness(r1: seq<Task>, r2: seq<Task>, f: SortField)
    requires Stable(r1, r2, f)
    ensures r1 == [] <==> r2 == []
  {
    if r1 != [] {
      assert r1[0] in WithKey(r1, f, SortKey(r1[0], f));
    }
    if r2 != [] {
      assert r2[0] in WithKey(r2, f, SortKey(r2[0], f));
    }
  }

  /** The first elements of two stable arrangements in key order carry the
      same key: the least one in the chosen direction. */
  lemma HeadKeysAgree(r1: seq<Task>, r2: seq<Task>, o: SortOptions)
    requires r1 != [] && r2 != []
    requires Sorted(r1, o) && Sorted(r2, o)
    requires Stable(r1, r2, o.field)
    ensures SortKey(r1[0], o.field) == SortKey(r2[0], o.field)
  {
    var f := o.field;
    var k1, k2 := SortKey(r1[0], f), SortKey(r2[0], f);
    assert r2[0] in WithKey(r2, f, k2);
    assert r2[0] in WithKey(r1, f, k2);
    var m :| 0 <= m < |r1| && r1[m] == r2[0];
    assert m == 0 || KeyOrdered(r1[0], r1[m], o);
    assert r1[0] in WithKey(r1, f, k1);
    assert r1[0] in WithKey(r2, f, k1);
    var n :| 0 <= n < |r2| && r2[n] == r1[0];
    assert n == 0 || KeyOrdered(r2[0], r2[n], o);
  }

  /** When the first elements share a key, stability forces them to be the
      same task and leaves the tails stable with respect to each other. */
  lemma HeadsAndTailsAgree(r1: seq<Task>, r2: seq<Task>, f: SortField)
    requires r1 != [] && r2 != []
    requires SortKey(r1[0], f) == SortKey(r2[0], f)
    requires Stable(r1, r2, f)
    ensures r1[0] == r2[0]
    ensures Stable(r1[1..], r2[1..], f)
  {
    var k1 := SortKey(r1[0], f);
    var w1, w2 := WithKey(r1[1..], f, k1), WithKey(r2[1..], f, k1);
    assert WithKey(r1, f, k1) == [r1[0]] + w1;
    assert WithKey(r2, f, k1) == [r2[0]] + w2;
    assert ([r1[0]] + w1)[0] == r1[0] && ([r2[0]] + w2)[0] == r2[0];
    assert ([r1[0]] + w1)[1..] == w1 && ([r2[0]] + w2)[1..] == w2;
    forall k
      ensures WithKey(r1[1..], f, k) == WithKey(r2[1..], f, k)
    {
      assert WithKey(r1, f, k) == WithKey(r2, f, k);
      if k != k1 {
        assert WithKey(r1, f, k) == WithKey(r1[1..], f, k);
        assert WithKey(r2, f, k) == WithKey(r2[1..], f, k);
      }
    }
  }

  /** Any stable arrangement of `s` in key order is SortTasks(s): the
      specification does not depend on the sorting algorithm. */
  lemma SortIsUnique(s: seq<Task>, o: SortOptions, r: seq<Task>)
    requires Sorted(r, o) && Stable(r, s, o.field)
    ensures r == SortTasks(s, o)
  {
    SortTasksCorrect(s, o);
    SortedStableUnique(r, SortTasks(s, o), o);
  }
}
