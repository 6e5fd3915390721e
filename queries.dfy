/** The exact-match filters over the task collection: the tasks whose status
    equals a given string, which the board and the analytics page both apply,
    and the tasks whose priority does, which the analytics page applies. */
module Queries {
  import opened Types
  import opened Seqs

  /** The tasks whose status is exactly `status`, in collection order; a task
      with no status matches no string. */
  function HavingStatus(tasks: seq<Task>, status: string): (r: seq<Task>)
    ensures |r| <= |tasks|
    ensures forall i :: 0 <= i < |r| ==> r[i] in tasks && r[i].status == Some(status)
    ensures forall i :: 0 <= i < |tasks| && tasks[i].status == Some(status) ==> tasks[i] in r
  {
    Filter((t: Task) => t.status == Some(status), tasks)
  }

  /** The tasks whose priority is exactly `priority`, in collection order. */
  function HavingPriority(tasks: seq<Task>, priority: string): (r: seq<Task>)
    ensures |r| <= |tasks|
    ensures forall i :: 0 <= i < |r| ==> r[i] in tasks && r[i].priority == priority
    ensures forall i :: 0 <= i < |tasks| && tasks[i].priority == priority ==> tasks[i] in r
  {
    Filter((t: Task) => t.priority == priority, tasks)
  }

  /** The status filter keeps the collection's order: filtering a
      concatenation concatenates the filtered parts. */
  lemma HavingStatusOrder(a: seq<Task>, b: seq<Task>, status: string)
    ensures HavingStatus(a + b, status) == HavingStatus(a, status) + HavingStatus(b, status)
  {
    FilterConcat((t: Task) => t.status == Some(status), a, b);
  }

  /** The priority filter keeps the collection's order: filtering a
      concatenation concatenates the filtered parts. */
  lemma HavingPriorityOrder(a: seq<Task>, b: seq<Task>, priority: string)
    ensures HavingPriority(a + b, priority) == HavingPriority(a, priority) + HavingPriority(b, priority)
  {
    FilterConcat((t: Task) => t.priority == priority, a, b);
  }

  /** The status filter keeps everything exactly when every task has that
      status, and keeps nothing when no task has it. */
  lemma HavingStatusAll(tasks: seq<Task>, status: string)
    ensures (forall i :: 0 <= i < |tasks| ==> tasks[i].status == Some(status)) <==>
      |HavingStatus(tasks, status)| == |tasks|
    ensures (forall i :: 0 <= i < |tasks| ==> tasks[i].status != Some(status)) <==>
      |HavingStatus(tasks, status)| == 0
  {
    FilterKeepsAll((t: Task) => t.status == Some(status), tasks);
    var r := HavingStatus(tasks, status);
    if |r| > 0 {
      assert r[0] in tasks;
    }
  }
}
