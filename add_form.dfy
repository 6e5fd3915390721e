/** The add/edit form: its field state, the validation that records a title
    error and a dates error, the submit handler that calls back only for a
    valid form, and the field edits that clear errors. */
module AddFormModel {
  import opened Types

  // ---------------------------------------------------------------------------
  // Trimming

  /** The characters the ECMAScript `trim` removes: white space and line
      terminators. */
  predicate IsWhitespace(c: char) {
    var n := c as int;
    n == 0x09 || n == 0x0A || n == 0x0B || n == 0x0C || n == 0x0D || n == 0x20 ||
    n == 0xA0 || n == 0x1680 || (0x2000 <= n <= 0x200A) || n == 0x2028 ||
    n == 0x2029 || n == 0x202F || n == 0x205F || n == 0x3000 || n == 0xFEFF
  }

  /** `s` without its leading white space. */
  function TrimStart(s: string): (r: string)
    ensures |r| <= |s| && r == s[|s| - |r|..]
    ensures forall i :: 0 <= i < |s| - |r| ==> IsWhitespace(s[i])
    ensures r != [] ==> !IsWhitespace(r[0])
  {
    if s != [] && IsWhitespace(s[0]) then TrimStart(s[1..]) else s
  }

  /** `s` without its trailing white space. */
  function TrimEnd(s: string): (r: string)
    ensures |r| <= |s| && r == s[..|r|]
    ensures forall i :: |r| <= i < |s| ==> IsWhitespace(s[i])
    ensures r != [] ==> !IsWhitespace(r[|r| - 1])
  {
    if s != [] && IsWhitespace(s[|s| - 1]) then TrimEnd(s[..|s| - 1]) else s
  }

  /** `s` without white space at either end. */
  function Trim(s: string): string {
    TrimEnd(TrimStart(s))
  }

  /** The trimmed string is a contiguous part of `s` with only white space
      around it, and it neither starts nor ends with white space. */
  lemma TrimIsSlice(s: string)
    ensures exists k :: (0 <= k <= |s| && Trim(s) <= s[k..] &&
      (forall i :: 0 <= i < k ==> IsWhitespace(s[i])) &&
      (forall i :: k + |Trim(s)| <= i < |s| ==> IsWhitespace(s[i])))
    ensures Trim(s) != [] ==> !IsWhitespace(Trim(s)[0]) && !IsWhitespace(Trim(s)[|Trim(s)| - 1])
  {
    TrimAround(s);
    TrimEnds(s);
    var k := |s| - |TrimStart(s)|;
    assert 0 <= k <= |s| && Trim(s) <= s[k..];
  }

  /** The slice `Trim` keeps starts where `TrimStart` stopped. */
  lemma TrimAround(s: string)
    ensures var k := |s| - |TrimStart(s)|;
      0 <= k <= |s| && Trim(s) <= s[k..] &&
      (forall i :: 0 <= i < k ==> IsWhitespace(s[i])) &&
      (forall i :: k + |Trim(s)| <= i < |s| ==> IsWhitespace(s[i]))
  {
    var front := TrimStart(s);
    var r := TrimEnd(front);
    var k := |s| - |front|;
    assert front == s[k..];
    forall i | k + |r| <= i < |s| ensures IsWhitespace(s[i]) {
      assert s[i] == front[i - k];
    }
    assert r <= s[k..];
  }

  /** The trimmed string neither starts nor ends with white space. */
  lemma TrimEnds(s: string)
    ensures Trim(s) != [] ==> !IsWhitespace(Trim(s)[0]) && !IsWhitespace(Trim(s)[|Trim(s)| - 1])
  {
    var front := TrimStart(s);
    var r := TrimEnd(front);
    if r != [] {
      assert r[0] == front[0];
    }
  }

  /** Trimming leaves nothing exactly when `s` is all white space. */
  lemma TrimmedEmpty(s: string)
    ensures Trim(s) == [] <==> forall i :: 0 <= i < |s| ==> IsWhitespace(s[i])
  {
    var front := TrimStart(s);
    var k := |s| - |front|;
    if front != [] {
      assert front[0] == s[k];
    }
    if TrimEnd(front) == [] {
      assert front == [];
    }
  }

  // ---------------------------------------------------------------------------
  // Validation

  datatype FormErrors = FormErrors(title: Option<string>, dates: Option<string>)

  const NoErrors := FormErrors(None, None)

  const TitleRequired := "Title is required"
  const DatesOutOfOrder := "Due date must be after start date"
  const FixErrorsMessage := "Please fix the errors in the form"

  /** The number of keys the errors record holds. */
  function ErrorCount(e: FormErrors): nat {
    (if e.title.Some? then 1 else 0) + (if e.dates.Some? then 1 else 0)
  }

  /** A start date after the due date, when both are set. */
  predicate DatesReversed(startDate: Option<int>, dueDate: Option<int>) {
    startDate.Some? && dueDate.Some? && startDate.value > dueDate.value
  }

  /** The form's validity: a title with something besides white space, and
      no start date after the due date. */
  function IsValid(title: string, startDate: Option<int>, dueDate: Option<int>): (b: bool)
    ensures b <==> ((exists i :: 0 <= i < |title| && !IsWhitespace(title[i])) &&
                    !DatesReversed(startDate, dueDate))
  {
    TrimmedEmpty(title);
    Trim(title) != "" && !DatesReversed(startDate, dueDate)
  }

  /** The errors a validation records: a message for a blank title and one
      for a start date after the due date. */
  function ValidationErrors(title: string, startDate: Option<int>, dueDate: Option<int>): FormErrors {
    FormErrors(if Trim(title) == "" then Some(TitleRequired) else None,
               if DatesReversed(startDate, dueDate) then Some(DatesOutOfOrder) else None)
  }

  /** A validation records the title message exactly when the title is only
      white space, the dates message exactly when the start date is after the
      due date, and no error at all exactly when the form is valid. */
  lemma ValidationErrorsMeaning(title: string, startDate: Option<int>, dueDate: Option<int>)
    ensures var e := ValidationErrors(title, startDate, dueDate);
      (e.title.Some? <==> forall i :: 0 <= i < |title| ==> IsWhitespace(title[i])) &&
      (e.dates.Some? <==> DatesReversed(startDate, dueDate)) &&
      (e.title.Some? ==> e.title.value == TitleRequired) &&
      (e.dates.Some? ==> e.dates.value == DatesOutOfOrder) &&
      (e == NoErrors <==> IsValid(title, startDate, dueDate))
  {
    TrimmedEmpty(title);
  }

  datatype Severity = Error | Success

  datatype Alert = Alert(show: bool, message: string, severity: Severity)

  /** The success message after a valid submit. */
  function SuccessMessage(editMode: bool): string {
    if editMode then "Task updated successfully!" else "Task added successfully!"
  }

  /** One call of the submit callback: the id passed and the fields. */
  datatype Submission = Submission(taskId: int, formData: TaskFormData)

  /** The form's state. `submitted` records, in order, every call the form
      has made to its submit callback. */
  class AddForm {
    var title: string
    var description: string
    var startDate: Option<int>
    var dueDate: Option<int>
    var priority: string
    var errors: FormErrors
    var alert: Alert
    const editMode: bool
    var submitted: seq<Submission>

    /** Each field starts from the initial data when it is present and not
        falsy, and otherwise from an empty string, no date, or Medium. */
    constructor (initialData: Option<TaskFormData>, editMode: bool)
      ensures this.editMode == editMode
      ensures initialData.None? ==>
        title == "" && description == "" && startDate == None && dueDate == None &&
        priority == "Medium"
      ensures initialData.Some? ==>
        title == initialData.value.title && description == initialData.value.description &&
        startDate == initialData.value.startDate && dueDate == initialData.value.dueDate &&
        priority == (if initialData.value.priority != "" then initialData.value.priority else "Medium")
      ensures errors == NoErrors && alert == Alert(false, "", Error) && submitted == []
    {
      var init := initialData;
      title := if init.Some? && init.value.title != "" then init.value.title else "";
      description := if init.Some? && init.value.description != "" then init.value.description else "";
      startDate := if init.Some? && init.value.startDate.Some? then init.value.startDate else None;
      dueDate := if init.Some? && init.value.dueDate.Some? then init.value.dueDate else None;
      priority := if init.Some? && init.value.priority != "" then init.value.priority else "Medium";
      errors := NoErrors;
      alert := Alert(false, "", Error);
      this.editMode := editMode;
      submitted := [];
    }

    /** The fields as the submit callback receives them. */
    function FormData(): TaskFormData
      reads this
    {
      TaskFormData(title, description, startDate, dueDate, priority)
    }

    /** Records the validation errors of the current fields; reports
        validity; on an invalid form shows the error alert. */
    method ValidateForm() returns (valid: bool)
      modifies this`errors, this`alert
      ensures errors == ValidationErrors(title, startDate, dueDate)
      ensures valid <==> errors == NoErrors
      ensures !valid ==> alert == Alert(true, FixErrorsMessage, Error)
      ensures valid ==> alert == old(alert)
    {
      var newErrors := NoErrors;
      if Trim(title) == "" {
        newErrors := newErrors.(title := Some(TitleRequired));
      }
      if startDate.Some? && dueDate.Some? && startDate.value > dueDate.value {
        newErrors := newErrors.(dates := Some(DatesOutOfOrder));
      }
      assert newErrors == ValidationErrors(title, startDate, dueDate);
      errors := newErrors;
      if ErrorCount(newErrors) > 0 {
        alert := Alert(true, FixErrorsMessage, Error);
        return false;
      }
      return true;
    }

    /** Submitting: a form without validation errors, that is a valid form,
        calls back once, with id 0 and the current fields, then shows the
        success alert; a form with errors never calls back. */
    method HandleSubmit()
      modifies this`errors, this`alert, this`submitted
      ensures errors == ValidationErrors(title, startDate, dueDate)
      ensures errors == NoErrors ==>
        submitted == old(submitted) + [Submission(0, FormData())] &&
        alert == Alert(true, SuccessMessage(editMode), Success)
      ensures errors != NoErrors ==>
        submitted == old(submitted) && alert == Alert(true, FixErrorsMessage, Error)
    {
      var valid := ValidateForm();
      if !valid {
        return;
      }
      ghost var e := errors;
      ghost var t, sd, dd := title, startDate, dueDate;
      assert e == ValidationErrors(t, sd, dd);
      submitted := submitted + [Submission(0, FormData())];
      alert := Alert(true, SuccessMessage(editMode), Success);
      assert errors == e && title == t && startDate == sd && dueDate == dd;
    }

    /** Editing the title clears the title error and keeps the dates error. */
    method OnTitleChange(value: string)
      modifies this`title, this`errors
      ensures title == value
      ensures errors == old(errors).(title := None)
    {
      title := value;
      if errors.title.Some? {
        errors := errors.(title := None);
      }
    }

    /** Editing the description touches no error. */
    method OnDescriptionChange(value: string)
      modifies this`description
      ensures description == value
    {
      description := value;
    }

    /** Editing the start date clears the dates error and keeps the title
        error. */
    method OnStartDateChange(value: Option<int>)
      modifies this`startDate, this`errors
      ensures startDate == value
      ensures errors == old(errors).(dates := None)
    {
      startDate := value;
      if errors.dates.Some? {
        errors := errors.(dates := None);
      }
    }

    /** Editing the due date clears the dates error and keeps the title
        error. */
    method OnDueDateChange(value: Option<int>)
      modifies this`dueDate, this`errors
      ensures dueDate == value
      ensures errors == old(errors).(dates := None)
    {
      dueDate := value;
      if errors.dates.Some? {
        errors := errors.(dates := None);
      }
    }

    /** Choosing a priority touches no error. */
    method OnPriorityChange(value: string)
      modifies this`priority
      ensures priority == value
    {
      priority := value;
    }

    /** Closing the alert hides it and keeps its message and severity. */
    method CloseAlert()
      modifies this`alert
      ensures alert == old(alert).(show := false)
    {
      alert := alert.(show := false);
    }
  }

  // ---------------------------------------------------------------------------
  // Properties of the validity predicate

  /** A title of white space alone is refused, whatever the dates. */
  lemma BlankTitleRejected(title: string, startDate: Option<int>, dueDate: Option<int>)
    requires forall i :: 0 <= i < |title| ==> IsWhitespace(title[i])
    ensures !IsValid(title, startDate, dueDate)
  {
  }

  /** With a title that is not blank, the dates decide: equal dates or a
      missing date pass, a start after the due date fails. */
  lemma DatesDecide(title: string, startDate: Option<int>, dueDate: Option<int>)
    requires exists i :: 0 <= i < |title| && !IsWhitespace(title[i])
    ensures IsValid(title, startDate, dueDate) <==>
      (startDate.None? || dueDate.None? || startDate.value <= dueDate.value)
  {
  }
}
