/** The kanban board page: the task collection it holds, the handlers that
    replace that collection once a request to the task service has resolved,
    and the projection of the collection onto the four status columns. */
module Board {
  import opened Types
  import opened Remote
  import opened Seqs
  import opened Queries

  /** The board's column keys, a literal list written beside the enumeration. */
  const TaskStatus: seq<string> := ["To Do", "Work In Progress", "Completed", "Expired"]

  /** The column keys are the enumeration's values in declaration order, so
      no two columns share a key. */
  lemma ColumnKeys()
    ensures TaskStatus == StatusValues()
    ensures forall i, j :: 0 <= i < j < |TaskStatus| ==> TaskStatus[i] != TaskStatus[j]
  {
    StatusEnumeration();
  }

  // ---------------------------------------------------------------------------
  // The board projection

  datatype ColumnView = ColumnView(status: string, tasks: seq<Task>)

  /** One column per key of the board, in the order of the key list. */
  function Columns(tasks: seq<Task>): (cols: seq<ColumnView>)
    ensures |cols| == |TaskStatus|
    ensures forall i :: 0 <= i < |cols| ==> cols[i].status == TaskStatus[i]
    ensures forall i :: 0 <= i < |cols| ==> cols[i].tasks == HavingStatus(tasks, TaskStatus[i])
  {
    seq(|TaskStatus|, i requires 0 <= i < |TaskStatus| =>
      ColumnView(TaskStatus[i], HavingStatus(tasks, TaskStatus[i])))
  }

  /** A task of the collection shows in the column of its status and in no
      other; a task whose status is absent or not an enumeration value shows
      in no column at all. */
  lemma ColumnPlacement(tasks: seq<Task>, t: Task)
    requires t in tasks
    ensures forall i :: 0 <= i < |TaskStatus| ==>
      (t in Columns(tasks)[i].tasks <==> t.status == Some(TaskStatus[i]))
    ensures forall i, j ::
      (0 <= i < |TaskStatus| && 0 <= j < |TaskStatus| &&
       t in Columns(tasks)[i].tasks && t in Columns(tasks)[j].tasks) ==> i == j
    ensures (exists i :: 0 <= i < |TaskStatus| && t in Columns(tasks)[i].tasks) <==>
      (t.status.Some? && IsStatusValue(t.status.value))
  {
    ColumnKeys();
    var cols := Columns(tasks);
    var k :| 0 <= k < |tasks| && tasks[k] == t;
    forall i | 0 <= i < |TaskStatus|
      ensures t in cols[i].tasks <==> t.status == Some(TaskStatus[i])
    {
      var col := cols[i].tasks;
      if t in col {
        var m :| 0 <= m < |col| && col[m] == t;
      }
    }
  }

  // ---------------------------------------------------------------------------
  // The new collections the handlers install

  /** The collection after a confirmed move: every task with the given id
      carries the new status, and nothing else changes. */
  function WithStatus(tasks: seq<Task>, id: int, status: string): (r: seq<Task>)
    ensures |r| == |tasks|
    ensures forall i :: 0 <= i < |r| && tasks[i].id == id ==>
      r[i] == tasks[i].(status := Some(status))
    ensures forall i :: 0 <= i < |r| && tasks[i].id != id ==> r[i] == tasks[i]
  {
    if tasks == [] then []
    else
      var t := tasks[0];
      [if t.id == id then t.(status := Some(status)) else t] + WithStatus(tasks[1..], id, status)
  }

  /** A stored task with a reply's present fields spread over it: each field
      the reply carries wins, each field it lacks keeps the stored value. */
  function Merge(t: Task, p: TaskPatch): (r: Task)
    ensures r.id == if p.id.Some? then p.id.value else t.id
    ensures r.title == if p.title.Some? then p.title.value else t.title
    ensures r.description == if p.description.Some? then p.description else t.description
    ensures r.status == if p.status.Some? then p.status else t.status
    ensures r.priority == if p.priority.Some? then p.priority.value else t.priority
    ensures r.startDate == if p.startDate.Some? then p.startDate.value else t.startDate
    ensures r.dueDate == if p.dueDate.Some? then p.dueDate.value else t.dueDate
  {
    Task(p.id.GetOr(t.id), p.title.GetOr(t.title),
         if p.description.Some? then p.description else t.description,
         if p.status.Some? then p.status else t.status,
         p.priority.GetOr(t.priority), p.startDate.GetOr(t.startDate),
         p.dueDate.GetOr(t.dueDate))
  }

  /** Spreading a reply that carries every field yields that reply's task; an
      empty reply leaves the task as it is; spreading the same reply twice is
      the same as spreading it once. */
  lemma MergeLaws(t: Task, u: Task, p: TaskPatch)
    ensures Merge(t, PatchOf(u)).id == u.id && Merge(t, PatchOf(u)).title == u.title
    ensures Merge(t, PatchOf(u)).priority == u.priority
    ensures u.description.Some? && u.status.Some? ==> Merge(t, PatchOf(u)) == u
    ensures Merge(t, EmptyPatch) == t
    ensures Merge(Merge(t, p), p) == Merge(t, p)
  {
  }

  /** The collection after a confirmed edit: every task with the given id has
      the reply spread over it, and every other task is untouched. */
  function UpdateById(tasks: seq<Task>, id: int, reply: TaskPatch): (r: seq<Task>)
    ensures |r| == |tasks|
    ensures forall i :: 0 <= i < |r| && tasks[i].id == id ==> r[i] == Merge(tasks[i], reply)
    ensures forall i :: 0 <= i < |r| && tasks[i].id != id ==> r[i] == tasks[i]
  {
    if tasks == [] then []
    else
      var t := tasks[0];
      [if t.id == id then Merge(t, reply) else t] + UpdateById(tasks[1..], id, reply)
  }

  /** A confirmed edit whose reply is the service's whole copy of the task
      leaves that copy in every place the id held, and nothing else changes. */
  lemma UpdateAdoptsReply(tasks: seq<Task>, id: int, u: Task)
    requires u.id == id && u.description.Some? && u.status.Some?
    ensures |UpdateById(tasks, id, PatchOf(u))| == |tasks|
    ensures forall i :: 0 <= i < |tasks| ==>
      UpdateById(tasks, id, PatchOf(u))[i] == if tasks[i].id == id then u else tasks[i]
  {
    forall i | 0 <= i < |tasks| && tasks[i].id == id
      ensures UpdateById(tasks, id, PatchOf(u))[i] == u
    {
      MergeLaws(tasks[i], u, PatchOf(u));
    }
  }

  /** The collection after a confirmed deletion: the tasks whose id differs,
      in their order. */
  function RemoveById(tasks: seq<Task>, id: int): (r: seq<Task>)
    ensures forall i :: 0 <= i < |r| ==> r[i] in tasks && r[i].id != id
    ensures forall i :: 0 <= i < |tasks| && tasks[i].id != id ==> tasks[i] in r
    ensures multiset(r) <= multiset(tasks)
  {
    FilterSubMultiset((t: Task) => t.id != id, tasks);
    Filter((t: Task) => t.id != id, tasks)
  }

  /** Deletion keeps the relative order of the remaining tasks. */
  lemma RemoveOrder(a: seq<Task>, b: seq<Task>, id: int)
    ensures RemoveById(a + b, id) == RemoveById(a, id) + RemoveById(b, id)
  {
    FilterConcat((t: Task) => t.id != id, a, b);
  }

  /** Deleting the task a confirmed create has just appended restores the
      collection, when no earlier task shares the new task's id. */
  lemma CreateThenDelete(tasks: seq<Task>, created: Task)
    requires forall i :: 0 <= i < |tasks| ==> tasks[i].id != created.id
    ensures RemoveById(tasks + [created], created.id) == tasks
  {
    RemoveOrder(tasks, [created], created.id);
    FilterKeepsAll((t: Task) => t.id != created.id, tasks);
  }

  /** A confirmed move shows every task with that id in the target column
      and, the keys being distinct, in no other column. */
  lemma MoveShowsInTargetColumn(tasks: seq<Task>, id: int, status: string)
    ensures forall i :: 0 <= i < |tasks| && tasks[i].id == id ==>
      WithStatus(tasks, id, status)[i] in HavingStatus(WithStatus(tasks, id, status), status)
    ensures forall other, t ::
      (other != status && t in HavingStatus(WithStatus(tasks, id, status), other)) ==> t.id != id
  {
    var moved := WithStatus(tasks, id, status);
    forall other, t | other != status && t in HavingStatus(moved, other)
      ensures t.id != id
    {
      var col := HavingStatus(moved, other);
      var m :| 0 <= m < |col| && col[m] == t;
      var k :| 0 <= k < |moved| && moved[k] == t;
    }
  }

  /** Two confirmed moves of the same id amount to the last one. */
  lemma MoveTwice(tasks: seq<Task>, id: int, first: string, second: string)
    ensures WithStatus(WithStatus(tasks, id, first), id, second) == WithStatus(tasks, id, second)
  {
  }

  /** Deleting after a confirmed move removes the same tasks as deleting
      without it. */
  lemma {:induction false} DeleteAfterMove(tasks: seq<Task>, id: int, status: string)
    ensures RemoveById(WithStatus(tasks, id, status), id) == RemoveById(tasks, id)
  {
    if tasks != [] {
      var moved := WithStatus(tasks, id, status);
      assert moved[1..] == WithStatus(tasks[1..], id, status);
      DeleteAfterMove(tasks[1..], id, status);
    }
  }

  /** The example of a one-task board moved from To Do to Completed. */
  lemma MoveScenario(t: Task)
    requires t.id == 1 && t.status == Some("To Do")
    ensures HavingStatus(WithStatus([t], 1, "Completed"), "Completed") == [t.(status := Some("Completed"))]
    ensures HavingStatus(WithStatus([t], 1, "Completed"), "To Do") == []
  {
  }

  // ---------------------------------------------------------------------------
  // The page state and its handlers

  /** The board page's state: the task collection, replaced by each handler
      only after its request has resolved successfully. */
  class TaskBoard {
    var tasks: seq<Task>

    /** The collection starts empty. */
    constructor ()
      ensures tasks == []
    {
      tasks := [];
    }

    /** Loading the list: a successful reply replaces the collection
        wholesale; a failure is only logged. */
    method FetchTasks(reply: Outcome<seq<Task>>)
      modifies this
      ensures tasks == if reply.Success? then reply.response else old(tasks)
    {
      if reply.Success? {
        tasks := reply.response;
      }
    }

    /** Moving a task: the status is set locally only after the update
        request has succeeded, so a failed move changes nothing. */
    method MoveTask(taskId: int, toStatus: string, reply: Outcome<TaskPatch>)
      modifies this
      ensures tasks == if reply.Success? then WithStatus(old(tasks), taskId, toStatus) else old(tasks)
    {
      if reply.Success? {
        tasks := WithStatus(tasks, taskId, toStatus);
      }
    }

    /** Creating a task: the form data is the request body, and the task the
        service returns is appended. */
    method HandleNewTask(formData: TaskFormData, reply: Outcome<Task>)
      modifies this
      ensures tasks == if reply.Success? then old(tasks) + [reply.response] else old(tasks)
    {
      if reply.Success? {
        tasks := tasks + [reply.response];
      }
    }

    /** Editing a task: the form data is the request body, and the reply's
        fields are spread over every task with the id. */
    method HandleUpdateTask(taskId: int, formData: TaskFormData, reply: Outcome<TaskPatch>)
      modifies this
      ensures tasks == if reply.Success? then UpdateById(old(tasks), taskId, reply.response) else old(tasks)
    {
      if reply.Success? {
        tasks := UpdateById(tasks, taskId, reply.response);
      }
    }

    /** Deleting a task: every task with the id goes once the request has
        succeeded; the reply's body is not used. */
    method HandleDeleteTask(taskId: int, reply: Outcome<()>)
      modifies this
      ensures tasks == if reply.Success? then RemoveById(old(tasks), taskId) else old(tasks)
      ensures reply.Success? ==> forall i :: 0 <= i < |tasks| ==> tasks[i].id != taskId
    {
      if reply.Success? {
        tasks := RemoveById(tasks, taskId);
      }
    }
  }

  // ---------------------------------------------------------------------------
  // How the cards and columns call the handlers

  /** What a dragged card carries: its own id. */
  datatype DragItem = DragItem(id: int)

  function DragItemOf(card: Task): DragItem {
    DragItem(card.id)
  }

  /** A drop on a column always asks to move the dragged card to that
      column's key, whatever status the card has now. */
  method DropOnColumn(board: TaskBoard, card: Task, columnStatus: string, reply: Outcome<TaskPatch>)
    modifies board
    ensures board.tasks == if reply.Success?
      then WithStatus(old(board.tasks), card.id, columnStatus) else old(board.tasks)
  {
    var item := DragItemOf(card);
    board.MoveTask(item.id, columnStatus, reply);
  }

  /** An edit submitted from a card uses the card's own id; the id the form
      passes along is ignored. */
  method SubmitCardEdit(board: TaskBoard, card: Task, formTaskId: int, formData: TaskFormData,
                        reply: Outcome<TaskPatch>)
    modifies board
    ensures board.tasks == if reply.Success?
      then UpdateById(old(board.tasks), card.id, reply.response) else old(board.tasks)
  {
    board.HandleUpdateTask(card.id, formData, reply);
  }
}
