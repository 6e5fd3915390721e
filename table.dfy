/** The table page: the collection it loads, with missing statuses defaulted,
    and the per-row fallbacks that make every displayed status and priority
    one the colour tables know. */
module Table {
  import opened Types
  import opened Remote
  import Board

  /** The badge colour of each status value. */
  const StatusColors: map<string, string> := map[
    ToDo.Value() := "bg-[#0088FE] text-blue-100",
    WorkInProgress.Value() := "bg-[#FFBB28] text-yellow-100",
    Expired.Value() := "bg-[#F7374F] text-red-100",
    Completed.Value() := "bg-[#00C49F] text-green-100"]

  /** The badge colour of each priority; its keys are the known priorities. */
  const PriorityColors: map<string, string> := map[
    "Low" := "bg-[#00C49F] text-gray-300",
    "Medium" := "bg-[#0088FE] text-blue-100",
    "High" := "bg-[#F7374F] text-red-100"]

  /** A status the `||` operator treats as missing: absent or empty. */
  predicate IsFalsy(status: Option<string>) {
    status.None? || status.value == ""
  }

  /** One loaded task with a missing status replaced by To Do. */
  function DefaultStatus(t: Task): Task {
    if IsFalsy(t.status) then t.(status := Some(ToDo.Value())) else t
  }

  /** The collection as the table stores it after loading. */
  function Normalize(tasks: seq<Task>): (r: seq<Task>)
    ensures |r| == |tasks|
    ensures forall i :: 0 <= i < |r| ==> r[i] == tasks[i].(status := r[i].status)
    ensures forall i :: 0 <= i < |r| && IsFalsy(tasks[i].status) ==> r[i].status == Some("To Do")
    ensures forall i :: 0 <= i < |r| && !IsFalsy(tasks[i].status) ==> r[i].status == tasks[i].status
  {
    if tasks == [] then [] else [DefaultStatus(tasks[0])] + Normalize(tasks[1..])
  }

  /** Defaulting twice is defaulting once, since To Do is not falsy, and
      afterwards no task has a missing status. */
  lemma NormalizeIdempotent(tasks: seq<Task>)
    ensures Normalize(Normalize(tasks)) == Normalize(tasks)
    ensures forall i :: 0 <= i < |tasks| ==> !IsFalsy(Normalize(tasks)[i].status)
  {
    var once := Normalize(tasks);
    var twice := Normalize(once);
    forall i | 0 <= i < |tasks| ensures !IsFalsy(once[i].status) {
    }
    forall i | 0 <= i < |once| ensures twice[i] == once[i] {
      assert !IsFalsy(once[i].status);
    }
    assert |twice| == |once|;
  }

  /** The table's collection after a load request resolved: on success the
      reply with statuses defaulted; on failure what it held before. */
  function LoadTable(current: seq<Task>, reply: Outcome<seq<Task>>): (r: seq<Task>)
    ensures reply.Failure? ==> r == current
    ensures reply.Success? ==> r == Normalize(reply.response)
    ensures reply.Success? ==> |r| == |reply.response|
    ensures reply.Success? ==> forall i :: 0 <= i < |r| ==> !IsFalsy(r[i].status)
  {
    if reply.Success? then
      NormalizeIdempotent(reply.response);
      Normalize(reply.response)
    else current
  }

  /** The status type guard: the status is one of the enumeration's values. */
  function IsValidStatus(status: Option<string>): (b: bool)
    ensures b <==> exists st: Status :: status == Some(st.Value())
  {
    StatusEnumeration();
    status.Some? && IsStatusValue(status.value)
  }

  /** The priority type guard: the priority is a key of the priority colours. */
  function IsValidPriority(priority: string): (b: bool)
    ensures b <==> priority == "Low" || priority == "Medium" || priority == "High"
  {
    priority in PriorityColors
  }

  /** The status a row shows: the task's own when valid, otherwise To Do. */
  function DisplayStatus(t: Task): (st: Status)
    ensures IsValidStatus(t.status) ==> t.status == Some(st.Value())
    ensures !IsValidStatus(t.status) ==> st == ToDo
  {
    if IsValidStatus(t.status) then ParseStatus(t.status.value).value else ToDo
  }

  /** The priority a row shows: the task's own when valid, otherwise Medium. */
  function DisplayPriority(t: Task): (p: string)
    ensures IsValidPriority(p)
    ensures IsValidPriority(t.priority) ==> p == t.priority
    ensures !IsValidPriority(t.priority) ==> p == "Medium"
  {
    if IsValidPriority(t.priority) then t.priority else "Medium"
  }

  /** After the fallbacks both colour lookups find an entry. */
  lemma ColorLookupsTotal(t: Task)
    ensures DisplayStatus(t).Value() in StatusColors
    ensures DisplayPriority(t) in PriorityColors
  {
    match DisplayStatus(t)
    case ToDo =>
    case WorkInProgress =>
    case Completed =>
    case Expired =>
  }

  datatype Row = Row(
    title: string,
    description: Option<string>,
    status: string,
    statusColor: string,
    priority: string,
    priorityColor: string,
    startDate: int,
    dueDate: int)

  function RowOf(t: Task): Row {
    ColorLookupsTotal(t);
    var status := DisplayStatus(t).Value();
    var priority := DisplayPriority(t);
    Row(t.title, t.description, status, StatusColors[status], priority,
        PriorityColors[priority], t.startDate, t.dueDate)
  }

  /** One row per task, in collection order, each showing the task's fields
      with the status and priority fallbacks applied, an enumeration value and
      a known priority, with their colours. */
  function Rows(tasks: seq<Task>): (rows: seq<Row>)
    ensures |rows| == |tasks|
    ensures forall i :: 0 <= i < |rows| ==>
      rows[i].title == tasks[i].title && rows[i].description == tasks[i].description &&
      rows[i].status == DisplayStatus(tasks[i]).Value() &&
      rows[i].priority == DisplayPriority(tasks[i]) &&
      rows[i].startDate == tasks[i].startDate && rows[i].dueDate == tasks[i].dueDate &&
      IsStatusValue(rows[i].status) && IsValidPriority(rows[i].priority) &&
      rows[i].statusColor == StatusColors[rows[i].status] &&
      rows[i].priorityColor == PriorityColors[rows[i].priority]
  {
    if tasks == [] then [] else [RowOf(tasks[0])] + Rows(tasks[1..])
  }

  /** The footer: "Showing first to last of total results". */
  datatype Footer = Footer(first: int, last: int, total: int)

  function FooterOf(tasks: seq<Task>): Footer {
    Footer(1, |tasks|, |tasks|)
  }

  /** The footer's last row and total are the number of rows rendered. */
  lemma FooterCountsRows(tasks: seq<Task>)
    ensures FooterOf(tasks).first == 1
    ensures FooterOf(tasks).last == FooterOf(tasks).total == |Rows(tasks)|
  {
  }

  /** A non-empty status outside the enumeration, such as "Done", survives
      loading but shows as To Do. */
  lemma UnknownStatusShowsToDo(t: Task)
    requires t.status == Some("Done")
    ensures Normalize([t]) == [t]
    ensures DisplayStatus(t) == ToDo
  {
    StatusEnumeration();
  }

  /** How the table and the board treat the same task: a task the board puts
      in a column shows that column's key in the table, and a task the board
      shows in no column is shown as To Do. */
  lemma TableAgreesWithBoard(tasks: seq<Task>, t: Task)
    requires t in tasks
    ensures forall i :: 0 <= i < |Board.TaskStatus| && t in Board.Columns(tasks)[i].tasks ==>
      DisplayStatus(t).Value() == Board.TaskStatus[i]
    ensures (forall i :: 0 <= i < |Board.TaskStatus| ==> t !in Board.Columns(tasks)[i].tasks) ==>
      DisplayStatus(t) == ToDo
  {
    Board.ColumnPlacement(tasks, t);
    Board.ColumnKeys();
  }
}
