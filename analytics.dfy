/** The analytics page: the figures it derives from the collection on every
    render, and the loading flag of its one fetch. */
module Analytics {
  import opened Types
  import opened Remote
  import opened Seqs
  import opened Queries
  import Board
  import Table

  // ---------------------------------------------------------------------------
  // Counts

  /** The completed tasks, in collection order. */
  function CompletedTasks(tasks: seq<Task>): (r: seq<Task>)
    ensures forall i :: 0 <= i < |r| ==> r[i] in tasks && r[i].status == Some("Completed")
    ensures forall i :: 0 <= i < |tasks| && tasks[i].status == Some("Completed") ==> tasks[i] in r
  {
    HavingStatus(tasks, Completed.Value())
  }

  /** The completed list keeps collection order, so the first five completed
      tasks of a list are found in its front part first. */
  lemma CompletedOrder(a: seq<Task>, b: seq<Task>)
    ensures CompletedTasks(a + b) == CompletedTasks(a) + CompletedTasks(b)
  {
    HavingStatusOrder(a, b, Completed.Value());
  }

  /** The share of completed tasks as a whole percentage, rounded half up;
      0 for an empty collection. */
  function CompletionRate(tasks: seq<Task>): (rate: int)
    ensures 0 <= rate <= 100
    ensures |tasks| == 0 ==> rate == 0
    ensures |tasks| > 0 ==>
      |tasks| * (2 * rate - 1) <= 200 * |CompletedTasks(tasks)| < |tasks| * (2 * rate + 1)
  {
    var n, c := |tasks|, |CompletedTasks(tasks)|;
    if n == 0 then 0
    else
      var rate := (200 * c + n) / (2 * n);
      RateBounds(n, c, rate);
      rate
  }

  /** The rounded percentage lies within half a point of the exact one. */
  lemma RateBounds(n: int, c: int, rate: int)
    requires 0 <= c <= n && n > 0 && rate == (200 * c + n) / (2 * n)
    ensures 0 <= rate <= 100
    ensures n * (2 * rate - 1) <= 200 * c < n * (2 * rate + 1)
  {
    RoundingBounds(200 * c + n, 2 * n, rate);
    assert n * (2 * rate - 1) == 2 * n * rate - n;
    assert n * (2 * rate + 1) == 2 * n * (rate + 1) - n;
    assert 200 * c + n < 2 * n * 101;
  }

  /** What Euclidean division promises about a quotient. */
  lemma RoundingBounds(x: int, d: int, q: int)
    requires x >= 0 && d > 0 && q == x / d
    ensures 0 <= q
    ensures d * q <= x < d * (q + 1)
    ensures x < d * 101 ==> q <= 100
  {
  }

  /** Cancelling a positive factor on both sides of a comparison. */
  lemma CancelFactor(n: int, a: int, b: int)
    requires n > 0
    ensures n * a <= n * b ==> a <= b
    ensures n * a < n * b ==> a < b
  {
    if a > b {
      assert n * a - n * b == n * (a - b);
    }
    if a == b {
      assert n * a == n * b;
    }
  }

  /** Every task completed gives 100; none completed gives 0. */
  lemma CompletionRateEnds(tasks: seq<Task>)
    ensures (forall i :: 0 <= i < |tasks| ==> tasks[i].status == Some("Completed")) ==>
      CompletionRate(tasks) == (if |tasks| == 0 then 0 else 100)
    ensures (forall i :: 0 <= i < |tasks| ==> tasks[i].status != Some("Completed")) ==>
      CompletionRate(tasks) == 0
  {
    var n, c, rate := |tasks|, |CompletedTasks(tasks)|, CompletionRate(tasks);
    HavingStatusAll(tasks, Completed.Value());
    if n > 0 {
      if c == n {
        CancelFactor(n, 2 * rate - 1, 200);
        CancelFactor(n, 200, 2 * rate + 1);
      }
      if c == 0 {
        CancelFactor(n, 2 * rate - 1, 0);
      }
    }
  }

  datatype ChartEntry = ChartEntry(name: string, value: nat)

  /** One entry per status, in the enumeration's order, counting the tasks
      with exactly that status. */
  function TasksByStatus(tasks: seq<Task>): (entries: seq<ChartEntry>)
    ensures |entries| == |Statuses|
    ensures forall i :: 0 <= i < |entries| ==> entries[i].name == StatusValues()[i]
    ensures forall i :: 0 <= i < |entries| ==>
      entries[i].value == |HavingStatus(tasks, StatusValues()[i])|
  {
    seq(|Statuses|, i requires 0 <= i < |Statuses| =>
      ChartEntry(Statuses[i].Value(), |HavingStatus(tasks, Statuses[i].Value())|))
  }

  /** The High, Medium and Low entries, in that order, counting the tasks
      with exactly that priority. */
  function TasksByPriority(tasks: seq<Task>): (entries: seq<ChartEntry>)
    ensures |entries| == 3
    ensures entries[0] == ChartEntry("High", |HavingPriority(tasks, "High")|)
    ensures entries[1] == ChartEntry("Medium", |HavingPriority(tasks, "Medium")|)
    ensures entries[2] == ChartEntry("Low", |HavingPriority(tasks, "Low")|)
  {
    [ChartEntry("High", |HavingPriority(tasks, "High")|),
     ChartEntry("Medium", |HavingPriority(tasks, "Medium")|),
     ChartEntry("Low", |HavingPriority(tasks, "Low")|)]
  }

  function Sum4(tasks: seq<Task>): nat {
    |HavingStatus(tasks, StatusValues()[0])| + |HavingStatus(tasks, StatusValues()[1])| +
    |HavingStatus(tasks, StatusValues()[2])| + |HavingStatus(tasks, StatusValues()[3])|
  }

  /** The table's status guard, applied to a task. */
  predicate HasStatusValue(t: Task) {
    Table.IsValidStatus(t.status)
  }

  /** The four status counts add up to the number of tasks with a valid
      status. */
  lemma {:induction false} StatusCountsAdd(tasks: seq<Task>)
    ensures Sum4(tasks) == |Filter(HasStatusValue, tasks)|
  {
    if tasks != [] {
      StatusCountsAdd(tasks[1..]);
    }
  }

  /** The status chart counts each task at most once; it counts every task
      exactly when every status is an enumeration value. */
  lemma StatusTotal(tasks: seq<Task>)
    ensures var e := TasksByStatus(tasks);
      e[0].value + e[1].value + e[2].value + e[3].value <= |tasks|
    ensures var e := TasksByStatus(tasks);
      e[0].value + e[1].value + e[2].value + e[3].value == |tasks| <==>
      forall i :: 0 <= i < |tasks| ==> HasStatusValue(tasks[i])
  {
    StatusEnumeration();
    StatusCountsAdd(tasks);
    FilterKeepsAll(HasStatusValue, tasks);
  }

  /** The table's priority guard, applied to a task. */
  predicate HasKnownPriority(t: Task) {
    Table.IsValidPriority(t.priority)
  }

  function Sum3(tasks: seq<Task>): nat {
    |HavingPriority(tasks, "High")| + |HavingPriority(tasks, "Medium")| +
    |HavingPriority(tasks, "Low")|
  }

  /** The three priority counts add up to the number of tasks with a known
      priority. */
  lemma {:induction false} PriorityCountsAdd(tasks: seq<Task>)
    ensures Sum3(tasks) == |Filter(HasKnownPriority, tasks)|
  {
    if tasks != [] {
      PriorityCountsAdd(tasks[1..]);
    }
  }

  /** The priority chart counts each task at most once; it counts every task
      exactly when every priority is High, Medium or Low. */
  lemma PriorityTotal(tasks: seq<Task>)
    ensures var e := TasksByPriority(tasks);
      e[0].value + e[1].value + e[2].value <= |tasks|
    ensures var e := TasksByPriority(tasks);
      e[0].value + e[1].value + e[2].value == |tasks| <==>
      forall i :: 0 <= i < |tasks| ==> HasKnownPriority(tasks[i])
  {
    PriorityCountsAdd(tasks);
    FilterKeepsAll(HasKnownPriority, tasks);
  }

  /** The overdue card: the number of expired tasks. */
  function OverdueCount(tasks: seq<Task>): (n: nat)
    ensures n == TasksByStatus(tasks)[3].value
  {
    StatusEnumeration();
    |HavingStatus(tasks, Expired.Value())|
  }

  /** The completed list, the Completed entry of the status chart and the
      numerator of the completion rate count the same tasks; the status chart
      agrees column by column with the board. */
  lemma FiguresAgree(tasks: seq<Task>)
    ensures |CompletedTasks(tasks)| == TasksByStatus(tasks)[2].value
    ensures forall i :: 0 <= i < |Statuses| ==>
      TasksByStatus(tasks)[i].value == |Board.Columns(tasks)[i].tasks|
  {
    StatusEnumeration();
    Board.ColumnKeys();
  }

  // ---------------------------------------------------------------------------
  // Recently completed

  predicate SortedByDueDesc(s: seq<Task>) {
    forall i, j :: 0 <= i < j < |s| ==> s[i].dueDate >= s[j].dueDate
  }

  /** `t` placed into a sequence sorted latest first, before the first task
      due no later than it. */
  function Insert(t: Task, s: seq<Task>): (r: seq<Task>)
    requires SortedByDueDesc(s)
    ensures SortedByDueDesc(r)
    ensures multiset(r) == multiset(s) + multiset{t}
  {
    if s == [] || s[0].dueDate <= t.dueDate then
      PrependSorted(t, s);
      [t] + s
    else
      var rest := Insert(t, s[1..]);
      assert s == [s[0]] + s[1..];
      forall k | 0 <= k < |rest| ensures rest[k].dueDate <= s[0].dueDate {
        assert rest[k] in multiset(s[1..]) + multiset{t};
      }
      PrependSorted(s[0], rest);
      [s[0]] + rest
  }

  /** A task due no earlier than everything in a sorted sequence can head it. */
  lemma PrependSorted(x: Task, s: seq<Task>)
    requires SortedByDueDesc(s)
    requires forall k :: 0 <= k < |s| ==> s[k].dueDate <= x.dueDate
    ensures SortedByDueDesc([x] + s)
  {
    var r := [x] + s;
    forall i, j | 0 <= i < j < |r| ensures r[i].dueDate >= r[j].dueDate {
      assert r[j] == s[j - 1];
      if i > 0 {
        assert r[i] == s[i - 1];
      }
    }
  }

  /** Sorting by due date, latest first. */
  function SortByDueDesc(s: seq<Task>): (r: seq<Task>)
    ensures SortedByDueDesc(r)
    ensures multiset(r) == multiset(s)
  {
    if s == [] then []
    else
      assert s == [s[0]] + s[1..];
      Insert(s[0], SortByDueDesc(s[1..]))
  }

  /** The tasks of `s` due at exactly `d`, in their order in `s`. */
  function DueOn(s: seq<Task>, d: int): seq<Task> {
    if s == [] then [] else (if s[0].dueDate == d then [s[0]] else []) + DueOn(s[1..], d)
  }

  /** The due-date filter of a sequence with a task in front. */
  lemma {:induction false} DueOnCons(x: Task, s: seq<Task>, d: int)
    ensures DueOn([x] + s, d) == (if x.dueDate == d then [x] else []) + DueOn(s, d)
  {
    assert ([x] + s)[1..] == s;
  }

  /** Moving `t` behind a task due strictly later changes no due-date
      filter. */
  lemma {:induction false} SwapLater(x: Task, t: Task, rest: seq<Task>, s: seq<Task>, d: int)
    requires x.dueDate > t.dueDate
    requires DueOn(rest, d) == DueOn([t] + s, d)
    ensures DueOn([x] + rest, d) == DueOn([t] + ([x] + s), d)
  {
    var head := if x.dueDate == d then [x] else [];
    var mid := if t.dueDate == d then [t] else [];
    var tail := DueOn(s, d);
    DueOnCons(x, rest, d);
    DueOnCons(t, s, d);
    assert DueOn([x] + rest, d) == head + (mid + tail);
    DueOnCons(t, [x] + s, d);
    DueOnCons(x, s, d);
    assert DueOn([t] + ([x] + s), d) == mid + (head + tail);
    if head == [] {
      assert head + (mid + tail) == mid + tail == mid + (head + tail);
    } else {
      assert mid == [];
      assert head + (mid + tail) == head + tail == mid + (head + tail);
    }
  }

  /** Inserting puts `t` after nothing due at the same time: among the tasks
      due at any one date the order is that of `[t] + s`. */
  lemma {:induction false} InsertStable(t: Task, s: seq<Task>, d: int)
    requires SortedByDueDesc(s)
    ensures DueOn(Insert(t, s), d) == DueOn([t] + s, d)
  {
    if s != [] && s[0].dueDate > t.dueDate {
      var rest := Insert(t, s[1..]);
      assert Insert(t, s) == [s[0]] + rest;
      InsertStable(t, s[1..], d);
      SwapLater(s[0], t, rest, s[1..], d);
      assert [s[0]] + s[1..] == s;
    } else {
      assert Insert(t, s) == [t] + s;
    }
  }

  /** The sort is stable: tasks with equal due dates keep their order. */
  lemma {:induction false} SortIsStable(s: seq<Task>, d: int)
    ensures DueOn(SortByDueDesc(s), d) == DueOn(s, d)
  {
    if s != [] {
      SortIsStable(s[1..], d);
      var sorted := SortByDueDesc(s[1..]);
      InsertStable(s[0], sorted, d);
      assert ([s[0]] + sorted)[1..] == sorted;
    }
  }

  /** The recently completed table: the first five completed tasks in
      collection order, then sorted by due date, latest first. */
  function RecentCompleted(tasks: seq<Task>): (r: seq<Task>)
    ensures |r| <= 5
    ensures SortedByDueDesc(r)
    ensures var c := CompletedTasks(tasks);
      multiset(r) == multiset(c[..if |c| < 5 then |c| else 5])
  {
    var c := CompletedTasks(tasks);
    var firstFive := c[..if |c| < 5 then |c| else 5];
    var r := SortByDueDesc(firstFive);
    assert |r| == |multiset(r)|;
    r
  }

  /** Every row of the recent table is a completed task among the first five,
      so a later completed task never appears there, whatever its due date. */
  lemma RecentTakesFirstFive(tasks: seq<Task>)
    ensures var c := CompletedTasks(tasks);
      forall t :: t in RecentCompleted(tasks) ==> t in c[..if |c| < 5 then |c| else 5]
    ensures var c := CompletedTasks(tasks);
      |c| > 5 && c[5] !in c[..5] ==> c[5] !in RecentCompleted(tasks)
  {
    var c := CompletedTasks(tasks);
    var r := RecentCompleted(tasks);
    forall t | t in r ensures t in c[..if |c| < 5 then |c| else 5] {
      assert t in multiset(r);
    }
  }

  // ---------------------------------------------------------------------------
  // Loading

  datatype PageState = PageState(tasks: seq<Task>, loading: bool)

  /** The page starts without tasks, showing the spinner. */
  const Initial := PageState([], true)

  /** The page after its fetch resolved: the spinner goes away whatever the
      outcome; the tasks are replaced only by a successful reply. */
  function AfterFetch(s: PageState, reply: Outcome<seq<Task>>): (r: PageState)
    ensures !r.loading
    ensures r.tasks == if reply.Success? then reply.response else s.tasks
  {
    PageState(if reply.Success? then reply.response else s.tasks, false)
  }

  /** The page opens loading with no tasks; once its fetch has resolved it
      has stopped loading and shows the reply's tasks, or none at all after a
      failure. */
  lemma LoadingLifecycle(reply: Outcome<seq<Task>>)
    ensures Initial.loading && Initial.tasks == []
    ensures !AfterFetch(Initial, reply).loading
    ensures AfterFetch(Initial, reply).tasks == if reply.Success? then reply.response else []
  {
  }
}
