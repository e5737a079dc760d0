/** The submit logic of the admin "Create/Update Task" page: fail-fast
    validation of the draft, the request payload, the choice between create
    and update, and the page state these operations change. */
module TaskForm {
  import opened Wrappers
  import opened JsText
  import opened Checklist
  import opened AutoStatus

  /** The page's `taskData`. `title` and `description` are None when null or
      undefined (a loaded record may lack them); `dueDate` is the date
      input's value (None for null); `assignedTo` is None when it is
      undefined or null. */
  datatype Draft = Draft(
    title: Option<string>,
    description: Option<string>,
    priority: string,
    status: string,
    dueDate: Option<string>,
    assignedTo: Option<seq<string>>,
    todoChecklist: RawChecklist,
    attachments: seq<string>)

  /** The body of a create or update request. `dueDate` stands for the
      timestamp converted from the draft's due date. */
  datatype Payload = Payload(
    title: string,
    description: string,
    priority: string,
    status: string,
    dueDate: string,
    assignedTo: Option<seq<string>>,
    todoChecklist: seq<Item>,
    attachments: seq<string>)

  /** What one submit does: report a validation message; stop on the
      TypeError that `.trim()` raises on a null or undefined title or
      description (no message, no request); or send exactly one request. */
  datatype Action =
    | Error(msg: string)
    | Rejected
    | Create(payload: Payload)
    | Update(id: string, payload: Payload)

  /** The draft a fresh page starts with, and `clearData` restores: it is
      stopped by the title check, and its checklist normalises to nothing. */
  function DefaultDraft(): (d: Draft)
    ensures Validate(d) == Invalid(MissingTitle)
    ensures Normalize(d.todoChecklist) == []
  {
    Draft(Some(""), Some(""), "Low", "Pending", None, Some([]), Entries([]), [])
  }

  /** The five checks of a submit, in the order they run. */
  datatype Check = MissingTitle | MissingDescription | MissingDueDate | NoAssignee | EmptyChecklist

  function Rank(c: Check): nat
  {
    match c
    case MissingTitle => 0
    case MissingDescription => 1
    case MissingDueDate => 2
    case NoAssignee => 3
    case EmptyChecklist => 4
  }

  /** The message shown when a check fails. */
  function Message(c: Check): string
  {
    match c
    case MissingTitle => "Title is required."
    case MissingDescription => "Description is required."
    case MissingDueDate => "Due date is required."
    case NoAssignee => "Task not assigned to any member"
    case EmptyChecklist => "Add atleast one todo task"
  }

  /** `!taskData.dueDate`: null, or the empty value of a cleared date input. */
  predicate DueDateMissing(d: Draft)
  {
    d.dueDate.None? || d.dueDate.value == ""
  }

  /** `(taskData.todoChecklist || []).length === 0`, on the raw list. */
  predicate ChecklistLengthZero(c: RawChecklist)
  {
    match c
    case NoList => true
    case Entries(s) => |s| == 0
    case NonArrayValue(lengthIsZero) => lengthIsZero
  }

  /** Check `c` throws instead of answering: `.trim()` is called on a null
      or undefined title or description. */
  predicate Throws(d: Draft, c: Check)
  {
    match c
    case MissingTitle => d.title.None?
    case MissingDescription => d.description.None?
    case _ => false
  }

  /** Whether check `c` fails on draft `d`, stated by meaning: a title or
      description of white space only, a missing due date, an assignee list
      that is present and empty (an undefined one passes), a raw checklist of
      length zero. */
  predicate Fails(d: Draft, c: Check)
  {
    match c
    case MissingTitle => d.title.Some? && AllTrimmable(d.title.value)
    case MissingDescription => d.description.Some? && AllTrimmable(d.description.value)
    case MissingDueDate => DueDateMissing(d)
    case NoAssignee => d.assignedTo == Some([])
    case EmptyChecklist => ChecklistLengthZero(d.todoChecklist)
  }

  /** Check `c` ends the submit, by failing or by throwing. */
  predicate Stops(d: Draft, c: Check)
  {
    Throws(d, c) || Fails(d, c)
  }

  /** `c` stops the submit and every check that runs before it passes. */
  predicate FirstStop(d: Draft, c: Check)
  {
    Stops(d, c) && forall c' :: Rank(c') < Rank(c) ==> !Stops(d, c')
  }

  /** The outcome of the checks. */
  datatype Verdict = Valid | Invalid(check: Check) | TrimThrows

  /** The validation part of `handleSubmit`, with its early returns. A
      draft that passes has a title, a description and a due date. */
  function Validate(d: Draft): (v: Verdict)
    ensures v.Valid? ==> d.title.Some? && d.description.Some? && !DueDateMissing(d)
    ensures v.TrimThrows? ==> d.title.None? || d.description.None?
  {
    if d.title.None? then TrimThrows
    else if Trim(d.title.value) == "" then Invalid(MissingTitle)
    else if d.description.None? then TrimThrows
    else if Trim(d.description.value) == "" then Invalid(MissingDescription)
    else if DueDateMissing(d) then Invalid(MissingDueDate)
    else if d.assignedTo == Some([]) then Invalid(NoAssignee)
    else if ChecklistLengthZero(d.todoChecklist) then Invalid(EmptyChecklist)
    else Valid
  }

  /** The checks run in the fixed order title, description, due date,
      assignees, checklist, and the first one that stops decides: its
      message, or the TypeError of `.trim()`. The draft is valid exactly when
      no check stops. */
  lemma ValidationOrder(d: Draft)
    ensures Validate(d).Valid? <==> forall c :: !Stops(d, c)
    ensures forall c :: Validate(d) == Invalid(c) <==> FirstStop(d, c) && Fails(d, c)
    ensures forall c :: FirstStop(d, c) && Throws(d, c) ==> Validate(d).TrimThrows?
    ensures Validate(d).TrimThrows? ==> exists c :: FirstStop(d, c) && Throws(d, c)
  {
    if d.title.Some? {
      TrimEmptyIffBlank(d.title.value);
    }
    if d.description.Some? {
      TrimEmptyIffBlank(d.description.value);
    }
    assert Validate(d) == if Throws(d, MissingTitle) then TrimThrows
      else if Fails(d, MissingTitle) then Invalid(MissingTitle)
      else if Throws(d, MissingDescription) then TrimThrows
      else if Fails(d, MissingDescription) then Invalid(MissingDescription)
      else if Fails(d, MissingDueDate) then Invalid(MissingDueDate)
      else if Fails(d, NoAssignee) then Invalid(NoAssignee)
      else if Fails(d, EmptyChecklist) then Invalid(EmptyChecklist)
      else Valid;
    forall c
      ensures Validate(d) == Invalid(c) <==> FirstStop(d, c) && Fails(d, c)
      ensures FirstStop(d, c) && Throws(d, c) ==> Validate(d).TrimThrows?
    {
      match c
      case MissingTitle =>
      case MissingDescription =>
        assert Rank(MissingTitle) < Rank(c);
      case MissingDueDate =>
        assert Rank(MissingTitle) < Rank(c) && Rank(MissingDescription) < Rank(c);
      case NoAssignee =>
        assert Rank(MissingTitle) < Rank(c) && Rank(MissingDescription) < Rank(c);
        assert Rank(MissingDueDate) < Rank(c);
      case EmptyChecklist =>
        assert Rank(MissingTitle) < Rank(c) && Rank(MissingDescription) < Rank(c);
        assert Rank(MissingDueDate) < Rank(c) && Rank(NoAssignee) < Rank(c);
    }
    if Validate(d).Valid? {
      forall c ensures !Stops(d, c) {}
    } else if Validate(d).Invalid? {
      assert Stops(d, Validate(d).check);
    } else if d.title.None? {
      assert FirstStop(d, MissingTitle) && Throws(d, MissingTitle);
    } else {
      assert Rank(MissingTitle) < Rank(MissingDescription);
      assert FirstStop(d, MissingDescription) && Throws(d, MissingDescription);
    }
  }

  /** The request body: the draft with its checklist normalised and its
      status derived from that checklist, so the status is "Completed"
      exactly for a non-empty, fully completed list and "Pending" exactly
      when nothing is completed. Only reached once validation has passed. */
  function BuildPayload(d: Draft): (p: Payload)
    requires d.title.Some? && d.description.Some? && !DueDateMissing(d)
    ensures p.todoChecklist == Normalize(d.todoChecklist)
    ensures p.status == StatusCompleted <==> |p.todoChecklist| > 0 && AllCompleted(p.todoChecklist)
    ensures p.status == StatusPending <==> NoneCompleted(p.todoChecklist)
  {
    var todolist := Normalize(d.todoChecklist);
    AutoStatusClassifies(todolist);
    Payload(d.title.value, d.description.value, d.priority, GetAutoStatus(todolist), d.dueDate.value,
            d.assignedTo, todolist, d.attachments)
  }

  /** Whether the page was opened on an existing task (`if (taskId)`). */
  predicate IsEditing(taskId: Option<string>)
  {
    taskId.Some? && taskId.value != ""
  }

  /** `handleSubmit` as a decision: a validation message, the rejection of
      `.trim()`, or the one request it sends. An update targets `taskId`, and
      a request's status is always the derived one. */
  function Decide(d: Draft, taskId: Option<string>): (a: Action)
    ensures a.Error? ==> Validate(d).Invalid? && a.msg == Message(Validate(d).check)
    ensures a.Rejected? <==> Validate(d).TrimThrows?
    ensures a.Update? ==> IsEditing(taskId) && a.id == taskId.value
    ensures (a.Create? || a.Update?) ==> a.payload.status == GetAutoStatus(a.payload.todoChecklist)
  {
    match Validate(d)
    case Invalid(c) => Error(Message(c))
    case TrimThrows => Rejected
    case Valid =>
      if IsEditing(taskId) then Update(taskId.value, BuildPayload(d)) else Create(BuildPayload(d))
  }

  /** A draft whose first stopping check fails gets exactly that check's
      message, and no request is sent. */
  lemma DecideReportsFirstFailure(d: Draft, taskId: Option<string>, c: Check)
    requires FirstStop(d, c) && Fails(d, c)
    ensures Decide(d, taskId) == Error(Message(c))
  {
    ValidationOrder(d);
  }

  /** A draft whose first stopping check calls `.trim()` on a null or
      undefined field is rejected with no message and no request. */
  lemma DecideRejectsMissingField(d: Draft, taskId: Option<string>, c: Check)
    requires FirstStop(d, c) && Throws(d, c)
    ensures Decide(d, taskId) == Rejected
  {
    ValidationOrder(d);
  }

  /** A draft that passes every check sends exactly one request: an update
      of `taskId` when it is present and non-empty, a create otherwise. The
      payload is the draft with the normalised checklist and the status
      derived from it. */
  lemma DecideDispatchesOnce(d: Draft, taskId: Option<string>)
    requires forall c :: !Stops(d, c)
    ensures var a := Decide(d, taskId);
            && (a.Create? || a.Update?)
            && (a.Update? <==> IsEditing(taskId))
            && (a.Update? ==> a.id == taskId.value)
            && a.payload.todoChecklist == Normalize(d.todoChecklist)
            && a.payload.status == GetAutoStatus(a.payload.todoChecklist)
            && Some(a.payload.title) == d.title && Some(a.payload.description) == d.description
            && a.payload.priority == d.priority && Some(a.payload.dueDate) == d.dueDate
            && a.payload.assignedTo == d.assignedTo && a.payload.attachments == d.attachments
  {
    ValidationOrder(d);
  }

  /** Every error message names one check: the message identifies which
      check failed. */
  lemma MessagesDistinct(c: Check, c': Check)
    ensures Message(c) == Message(c') <==> c == c'
  {
  }

  /** The status the user picked never reaches the request: the submit
      outcome does not depend on it. */
  lemma StatusOverridden(d: Draft, taskId: Option<string>, picked: string)
    ensures Decide(d.(status := picked), taskId) == Decide(d, taskId)
  {
  }

  /** A checklist made only of falsy entries passes the length check, is
      normalised to nothing and yields a "Pending" task. */
  lemma FalsyChecklistIsPending(d: Draft, taskId: Option<string>)
    requires forall c :: c != EmptyChecklist ==> !Stops(d, c)
    requires d.todoChecklist.Entries? && |d.todoChecklist.entries| > 0
    requires forall i :: 0 <= i < |d.todoChecklist.entries| ==> !IsTruthy(d.todoChecklist.entries[i])
    ensures Decide(d, taskId).Create? || Decide(d, taskId).Update?
    ensures Decide(d, taskId).payload.todoChecklist == []
    ensures Decide(d, taskId).payload.status == StatusPending
  {
    assert !Stops(d, EmptyChecklist);
    DecideDispatchesOnce(d, taskId);
    NormalizeEmptyIffAllFalsy(d.todoChecklist.entries);
  }

  /** A fresh submit of a two-label checklist creates the task with both
      labels open and status "Pending". */
  lemma FreshSubmitExample()
    ensures var d := Draft(Some("Fix bug"), Some("desc"), "Low", "Completed", Some("2024-01-01"), Some(["u1"]),
                           Entries([Str("step1"), Str("step2")]), []);
            Decide(d, None)
              == Create(Payload("Fix bug", "desc", "Low", "Pending", "2024-01-01", Some(["u1"]),
                                [Item("step1", false), Item("step2", false)], []))
  {
    var title, desc: string := "Fix bug", "desc";
    TrimEmptyIffBlank(title);
    TrimEmptyIffBlank(desc);
    assert !IsTrimmable(title[0]) && !IsTrimmable(desc[0]);
    var entries := [Str("step1"), Str("step2")];
    NormalizeLabels(entries);
  }

  /** The page's component state: `taskData`, `error`, and the `taskId` it
      was opened with. `error` is None for null. */
  class CreateTaskPage {
    const taskId: Option<string>
    var taskData: Draft
    var error: Option<string>

    constructor (taskId: Option<string>)
      ensures this.taskId == taskId && taskData == DefaultDraft() && error == Some("")
    {
      this.taskId := taskId;
      taskData := DefaultDraft();
      error := Some("");
    }

    /** `clearData`: the draft goes back to its defaults. */
    method ClearData()
      modifies this
      ensures taskData == DefaultDraft() && error == old(error)
    {
      taskData := DefaultDraft();
    }

    /** `createTask`: sends the payload built from the draft; the draft is
        reset only when the request succeeds. */
    method CreateTask(requestSucceeds: bool) returns (payload: Payload)
      requires taskData.title.Some? && taskData.description.Some? && !DueDateMissing(taskData)
      modifies this
      ensures payload == BuildPayload(old(taskData))
      ensures taskData == (if requestSucceeds then DefaultDraft() else old(taskData))
      ensures error == old(error)
    {
      var todolist := Normalize(taskData.todoChecklist);
      var autoStatus := GetAutoStatus(todolist);
      payload := Payload(taskData.title.value, taskData.description.value, taskData.priority, autoStatus,
                         taskData.dueDate.value, taskData.assignedTo, todolist, taskData.attachments);
      if requestSucceeds {
        ClearData();
      }
    }

    /** `updateTask`: sends the payload built from the draft for `taskId`;
        the page state stays as it was, whatever the outcome. */
    method UpdateTask() returns (id: string, payload: Payload)
      requires IsEditing(taskId)
      requires taskData.title.Some? && taskData.description.Some? && !DueDateMissing(taskData)
      ensures id == taskId.value && payload == BuildPayload(taskData)
    {
      var todolist := Normalize(taskData.todoChecklist);
      var autoStatus := GetAutoStatus(todolist);
      id := taskId.value;
      payload := Payload(taskData.title.value, taskData.description.value, taskData.priority, autoStatus,
                         taskData.dueDate.value, taskData.assignedTo, todolist, taskData.attachments);
    }

    /** `handleSubmit`: clears the error, runs the checks in order and stops
        at the first failure with its message (or, when `.trim()` throws,
        with no message), otherwise sends one request.
        `requestSucceeds` is the outcome of that request. */
    method HandleSubmit(requestSucceeds: bool) returns (action: Action)
      modifies this
      ensures action == Decide(old(taskData), taskId)
      ensures error == (if action.Error? then Some(action.msg) else None)
      ensures taskData == (if action.Create? && requestSucceeds then DefaultDraft() else old(taskData))
    {
      error := None;
      if taskData.title.None? {
        return Rejected;
      }
      if Trim(taskData.title.value) == "" {
        error := Some(Message(MissingTitle));
        return Error(Message(MissingTitle));
      }
      if taskData.description.None? {
        return Rejected;
      }
      if Trim(taskData.description.value) == "" {
        error := Some(Message(MissingDescription));
        return Error(Message(MissingDescription));
      }
      if DueDateMissing(taskData) {
        error := Some(Message(MissingDueDate));
        return Error(Message(MissingDueDate));
      }
      if taskData.assignedTo == Some([]) {
        error := Some(Message(NoAssignee));
        return Error(Message(NoAssignee));
      }
      if ChecklistLengthZero(taskData.todoChecklist) {
        error := Some(Message(EmptyChecklist));
        return Error(Message(EmptyChecklist));
      }
      if IsEditing(taskId) {
        var id, payload := UpdateTask();
        return Update(id, payload);
      }
      var payload := CreateTask(requestSucceeds);
      action := Create(payload);
    }

    /** `toggleTodoCompleted(index)`: the checklist becomes the toggled
        list; when JavaScript would throw, nothing changes. */
    method ToggleTodoCompleted(index: int)
      modifies this
      ensures Toggle(old(taskData).todoChecklist, index).Some? ==>
                taskData == old(taskData).(todoChecklist := Entries(Toggle(old(taskData).todoChecklist, index).value))
      ensures Toggle(old(taskData).todoChecklist, index).None? ==> taskData == old(taskData)
      ensures error == old(error)
    {
      var updated := Toggle(taskData.todoChecklist, index);
      if updated.Some? {
        taskData := taskData.(todoChecklist := Entries(updated.value));
      }
    }
  }
}
