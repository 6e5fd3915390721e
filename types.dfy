/** The data model of the task client: the status enumeration, the stored task
    record and the record the add/edit form submits. */
module Types {

  datatype Option<T> = None | Some(value: T) {
    function GetOr(default: T): T {
      match this
      case Some(v) => v
      case None => default
    }
  }

  /** The four lifecycle states a task can be in. */
  datatype Status = ToDo | WorkInProgress | Completed | Expired {
    /** The string value each member of the enumeration carries. */
    function Value(): (v: string)
      ensures |v| > 0
    {
      match this
      case ToDo => "To Do"
      case WorkInProgress => "Work In Progress"
      case Completed => "Completed"
      case Expired => "Expired"
    }
  }

  /** The members of the enumeration in declaration order. */
  const Statuses: seq<Status> := [ToDo, WorkInProgress, Completed, Expired]

  /** What enumerating the enumeration's values yields: its four strings in
      declaration order. */
  function StatusValues(): (vs: seq<string>)
    ensures |vs| == |Statuses| == 4
    ensures forall i :: 0 <= i < 4 ==> vs[i] == Statuses[i].Value()
  {
    [ToDo.Value(), WorkInProgress.Value(), Completed.Value(), Expired.Value()]
  }

  /** A string is a value of the enumeration. */
  predicate IsStatusValue(s: string) {
    s in StatusValues()
  }

  /** Reading a string back as a member of the enumeration. */
  function ParseStatus(s: string): (r: Option<Status>)
    ensures r.Some? <==> IsStatusValue(s)
    ensures r.Some? ==> r.value.Value() == s
  {
    if s == ToDo.Value() then Some(ToDo)
    else if s == WorkInProgress.Value() then Some(WorkInProgress)
    else if s == Completed.Value() then Some(Completed)
    else if s == Expired.Value() then Some(Expired)
    else None
  }

  /** The enumeration has exactly four members, its values are pairwise
      distinct and listed in declaration order, and every value reads back as
      the member that carries it. */
  lemma StatusEnumeration()
    ensures StatusValues() == ["To Do", "Work In Progress", "Completed", "Expired"]
    ensures forall i, j :: 0 <= i < j < 4 ==> StatusValues()[i] != StatusValues()[j]
    ensures forall st: Status :: st in Statuses
    ensures forall st: Status :: ParseStatus(st.Value()) == Some(st)
  {
    var vs := StatusValues();
    assert vs[0] == "To Do" && vs[1] == "Work In Progress";
    assert vs[2] == "Completed" && vs[3] == "Expired";
    forall st: Status ensures st in Statuses && ParseStatus(st.Value()) == Some(st) {
      match st
      case ToDo =>
      case WorkInProgress =>
      case Completed =>
      case Expired =>
    }
  }

  /** A stored task. The status is an optional free string, not the
      enumeration, and the priority is an unconstrained string; dates are
      integer timestamps. */
  datatype Task = Task(
    id: int,
    title: string,
    description: Option<string>,
    status: Option<string>,
    priority: string,
    startDate: int,
    dueDate: int)

  /** What the add/edit form submits: no identity and no status. */
  datatype TaskFormData = TaskFormData(
    title: string,
    description: string,
    startDate: Option<int>,
    dueDate: Option<int>,
    priority: string)
}
