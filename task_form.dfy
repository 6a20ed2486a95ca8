/** The task creation form: its state, the field handlers, the subtask and
    attachment edits, and the submit path (title and e-mail checks, then the
    `taskData` object handed to `createTask`). */
module TaskForm {
  import opened Wrappers
  import opened JsString
  import opened Seqs
  import opened TaskRecords
  import opened ApiTask

  datatype TaskFormData = TaskFormData(
    title: string,
    description: string,
    status: string,
    priority: string,
    tags: string,
    startDate: string,
    dueDate: string,
    assignedTo: seq<string>,
    attachment: seq<FileInfo>,
    subtask: seq<Subtask>)

  /** The state the form starts in and returns to after a successful create. */
  const InitialForm := TaskFormData("", "", "pending", "low", "", "", "", [], [], [EmptySubtask])

  /** The text inputs wired to `handleChange`, by their `name`. */
  datatype TextField = Title | Description | Tags | StartDate | DueDate

  function WithText(form: TaskFormData, field: TextField, value: string): TaskFormData {
    match field
    case Title => form.(title := value)
    case Description => form.(description := value)
    case Tags => form.(tags := value)
    case StartDate => form.(startDate := value)
    case DueDate => form.(dueDate := value)
  }

  /** The text a text input shows. */
  function TextOf(form: TaskFormData, field: TextField): string {
    match field
    case Title => form.title
    case Description => form.description
    case Tags => form.tags
    case StartDate => form.startDate
    case DueDate => form.dueDate
  }

  /** Typing into a text input sets that input's text and leaves every other
      input and every other part of the form as it was. */
  lemma {:induction false} WithTextSets(form: TaskFormData, field: TextField, value: string)
    ensures TextOf(WithText(form, field, value), field) == value
    ensures forall g :: g != field ==> TextOf(WithText(form, field, value), g) == TextOf(form, g)
    ensures var r := WithText(form, field, value);
      && r.status == form.status && r.priority == form.priority && r.assignedTo == form.assignedTo
      && r.attachment == form.attachment && r.subtask == form.subtask
  {
  }

  // -------------------------------------------------------------- submit

  /** What the submit handler decides before calling the API. */
  datatype SubmitCheck = Refused(message: string) | Send(taskData: seq<(string, Value)>)

  predicate IsInvalidEmail(e: string) { !IsValidEmail(e) }
  predicate HasNonBlankTitle(s: Subtask) { Trim(s.title) != "" }

  function StringValue(t: string): Value { Str(t) }
  function FileValue(f: FileInfo): Value { File(f) }

  /** The `taskData` object literal, in its key order. */
  function TaskData(form: TaskFormData): seq<(string, Value)> {
    [ ("title", Str(form.title)),
      ("description", Str(form.description)),
      ("status", Str(form.status)),
      ("priority", Str(form.priority)),
      ("tags", Arr(Map(StringValue, ParseTags(form.tags)))),
      ("startDate", if form.startDate == "" then Undefined else Str(form.startDate)),
      ("dueDate", if form.dueDate == "" then Undefined else Str(form.dueDate)),
      ("assignedTo", Arr(Map(StringValue, form.assignedTo))),
      ("subtask", Arr(Map(SubtaskValue, Filter(HasNonBlankTitle, form.subtask)))),
      ("attachment", if |form.attachment| > 0 then Arr(Map(FileValue, form.attachment)) else Undefined) ]
  }

  function CheckSubmit(form: TaskFormData): SubmitCheck {
    if Trim(form.title) == "" then Refused("Title is required.")
    else
      var invalidEmails := Filter(IsInvalidEmail, form.assignedTo);
      if |invalidEmails| > 0 then Refused("Invalid email addresses: " + Join(invalidEmails, ", "))
      else Send(TaskData(form))
  }

  /** The toast the submit handler raises. */
  datatype Toast = ErrorToast(text: string) | SuccessToast(text: string)

  // --------------------------------------------------------------- state

  class TaskFormPage {
    var formData: TaskFormData

    constructor ()
      ensures formData == InitialForm
    {
      formData := InitialForm;
    }

    /** `handleChange`: `{ ...formData, [name]: value }` */
    method HandleChange(field: TextField, value: string)
      modifies this
      ensures formData == WithText(old(formData), field, value)
    {
      formData := WithText(formData, field, value);
    }

    /** `handleStatusChange`: a cleared select falls back to "pending". */
    method HandleStatusChange(selected: Option<string>)
      modifies this
      ensures formData == old(formData).(status := if selected.Some? then selected.value else "pending")
    {
      formData := formData.(status := if selected.Some? then selected.value else "pending");
    }

    /** `handlePriorityChange`: a cleared select falls back to "low". */
    method HandlePriorityChange(selected: Option<string>)
      modifies this
      ensures formData == old(formData).(priority := if selected.Some? then selected.value else "low")
    {
      formData := formData.(priority := if selected.Some? then selected.value else "low");
    }

    /** `handleAssignedToChange`: the selected option values, or none. */
    method HandleAssignedToChange(selected: Option<seq<string>>)
      modifies this
      ensures formData == old(formData).(assignedTo := if selected.Some? then selected.value else [])
    {
      formData := formData.(assignedTo := if selected.Some? then selected.value else []);
    }

    /** `handleSubtaskChange(index, value)`, called from the rendered row `index`. */
    method HandleSubtaskChange(index: nat, value: string)
      requires index < |formData.subtask|
      modifies this
      ensures formData == old(formData).(subtask := WithTitle(old(formData).subtask, index, value))
    {
      formData := formData.(subtask := WithTitle(formData.subtask, index, value));
    }

    method AddSubtask()
      modifies this
      ensures formData == old(formData).(subtask := old(formData).subtask + [EmptySubtask])
    {
      formData := formData.(subtask := formData.subtask + [EmptySubtask]);
    }

    /** `removeSubtask(index)`: `filter((_, i) => i !== index)` */
    method RemoveSubtask(index: int)
      modifies this
      ensures formData == old(formData).(subtask := WithoutIndex(old(formData).subtask, index))
    {
      formData := formData.(subtask := WithoutIndex(formData.subtask, index));
    }

    /** `handleFileChange`: keep the allowed files, warn when some were
        dropped, and append the rest after the current attachments. */
    method HandleFileChange(files: seq<FileInfo>) returns (warned: bool, uploaded: nat)
      modifies this
      ensures formData == old(formData).(attachment := old(formData).attachment + AcceptedFiles(files))
      ensures warned <==> exists k :: 0 <= k < |files| && !IsAllowedFile(files[k])
      ensures uploaded == |AcceptedFiles(files)|
    {
      var newFiles := AcceptedFiles(files);
      warned := |newFiles| != |files|;
      uploaded := |newFiles|;
      if |newFiles| > 0 {
        formData := formData.(attachment := formData.attachment + newFiles);
      } else {
        assert formData.attachment + newFiles == formData.attachment;
      }
    }

    /** `handleRemoveFile(index)` */
    method HandleRemoveFile(index: int)
      modifies this
      ensures formData == old(formData).(attachment := WithoutIndex(old(formData).attachment, index))
    {
      formData := formData.(attachment := WithoutIndex(formData.attachment, index));
    }

    /** `handleSubmit`, with the request's outcome as `reply`: a refused form
        sends nothing and changes nothing; a successful create resets the form. */
    method HandleSubmit(reply: Reply) returns (sent: bool, toast: Toast)
      modifies this
      ensures sent <==> CheckSubmit(old(formData)).Send?
      ensures !sent ==> formData == old(formData) && toast == ErrorToast(CheckSubmit(old(formData)).message)
      ensures sent ==>
        var outcome := Outcome(Create, CheckSubmit(old(formData)).taskData, reply);
        && (outcome.Success? ==>
              formData == InitialForm && toast == SuccessToast("Task created successfully! Invitations sent."))
        && (outcome.Failure? ==> formData == old(formData) && toast == ErrorToast(outcome.error))
    {
      var check := CheckSubmit(formData);
      if check.Refused? {
        return false, ErrorToast(check.message);
      }
      sent := true;
      var outcome := SubmitTask(Create, check.taskData, reply);
      if outcome.Success? {
        formData := InitialForm;
        toast := SuccessToast("Task created successfully! Invitations sent.");
      } else {
        toast := ErrorToast(if outcome.error != "" then outcome.error
          else "Failed to create task. Please check your input.");
      }
    }
  }

  // --------------------------------------------------------------- lemmas

  /** A blank title is refused before anything else is looked at. */
  lemma {:induction false} TitleRequired(form: TaskFormData)
    ensures Trim(form.title) == "" <==> CheckSubmit(form) == Refused("Title is required.")
  {
    if Trim(form.title) != "" && CheckSubmit(form).Refused? {
      var invalidEmails := Filter(IsInvalidEmail, form.assignedTo);
      assert CheckSubmit(form).message == "Invalid email addresses: " + Join(invalidEmails, ", ");
      assert CheckSubmit(form).message[0] == 'I';
    }
  }

  /** With a title present, the form is refused exactly when an assignee fails
      the e-mail pattern, and the message lists every failing entry in order. */
  lemma {:induction false} EmailCheck(form: TaskFormData)
    requires Trim(form.title) != ""
    ensures CheckSubmit(form).Refused? <==>
      exists k :: 0 <= k < |form.assignedTo| && !IsValidEmail(form.assignedTo[k])
    ensures CheckSubmit(form).Refused? ==>
      CheckSubmit(form).message == "Invalid email addresses: " + Join(Filter(IsInvalidEmail, form.assignedTo), ", ")
    ensures IsSubsequence(Filter(IsInvalidEmail, form.assignedTo), form.assignedTo)
    ensures forall k :: 0 <= k < |Filter(IsInvalidEmail, form.assignedTo)| ==>
      !IsValidEmail(Filter(IsInvalidEmail, form.assignedTo)[k])
    ensures forall k :: 0 <= k < |form.assignedTo| && !IsValidEmail(form.assignedTo[k]) ==>
      form.assignedTo[k] in Filter(IsInvalidEmail, form.assignedTo)
    ensures forall e ::
      multiset(Filter(IsInvalidEmail, form.assignedTo))[e] == if IsValidEmail(e) then 0 else multiset(form.assignedTo)[e]
  {
    CheckSubmitWithTitle(form);
    InvalidEmails(form.assignedTo);
    SomeInvalid(form.assignedTo);
  }

  /** The failing addresses are, in order and as often as they occur, exactly
      the entries that fail the pattern. */
  lemma {:induction false} InvalidEmails(emails: seq<string>)
    ensures IsSubsequence(Filter(IsInvalidEmail, emails), emails)
    ensures forall k :: 0 <= k < |Filter(IsInvalidEmail, emails)| ==>
      !IsValidEmail(Filter(IsInvalidEmail, emails)[k])
    ensures forall k :: 0 <= k < |emails| && !IsValidEmail(emails[k]) ==>
      emails[k] in Filter(IsInvalidEmail, emails)
    ensures forall e ::
      multiset(Filter(IsInvalidEmail, emails))[e] == if IsValidEmail(e) then 0 else multiset(emails)[e]
  {
    FilterIsSubsequence(IsInvalidEmail, emails);
    FilterMembers(IsInvalidEmail, emails);
    FilterMultiset(IsInvalidEmail, emails);
  }

  /** Past the title check, the verdict depends only on the failing addresses. */
  lemma {:induction false} CheckSubmitWithTitle(form: TaskFormData)
    requires Trim(form.title) != ""
    ensures var invalid := Filter(IsInvalidEmail, form.assignedTo);
      CheckSubmit(form) == if |invalid| > 0 then Refused("Invalid email addresses: " + Join(invalid, ", "))
        else Send(TaskData(form))
  {
  }

  /** Some address fails exactly when the failing ones are not none. */
  lemma {:induction false} SomeInvalid(emails: seq<string>)
    ensures |Filter(IsInvalidEmail, emails)| > 0 <==> exists k :: 0 <= k < |emails| && !IsValidEmail(emails[k])
  {
    var invalid := Filter(IsInvalidEmail, emails);
    FilterMembers(IsInvalidEmail, emails);
    if exists k :: 0 <= k < |emails| && !IsValidEmail(emails[k]) {
      var k :| 0 <= k < |emails| && !IsValidEmail(emails[k]);
      assert IsInvalidEmail(emails[k]);
      assert emails[k] in invalid;
    }
    if |invalid| > 0 {
      assert IsInvalidEmail(invalid[0]);
      assert invalid[0] in emails;
    }
  }

  /** The subtasks sent are the non-blank rows, trimmed, in order. */
  function SentSubtask(s: Subtask): Subtask { Subtask(Trim(s.title), s.completed) }

  lemma {:induction false} NormalizeFormSubtasks(subs: seq<Subtask>)
    requires forall k :: 0 <= k < |subs| ==> Trim(subs[k].title) != ""
    ensures NormalizeSubtasks(Map(SubtaskValue, subs)) == Success(Map(SentSubtask, subs))
  {
    var vs := Map(SubtaskValue, subs);
    var sent := Map(SentSubtask, subs);
    forall k | 0 <= k < |subs| ensures NormalizeSubtask(vs[k]) == Success(sent[k]) {
      LookupSubtaskValue(subs[k]);
    }
    NormalizeAllOf(vs, sent);
    FilterAll(HasTitle, sent);
  }

  /** The assignees of a form that passed the e-mail check are all kept. */
  lemma {:induction false} CheckedAssignees(form: TaskFormData)
    requires CheckSubmit(form).Send?
    ensures EncodeField(Create, "assignedTo", Arr(Map(StringValue, form.assignedTo)))
      == Success([("assignedTo", Json(Arr(Map(StringValue, form.assignedTo))))])
  {
    PassedEmailCheck(form);
    ValidAssigneesKept(form.assignedTo);
  }

  /** A form that passed the checks has only valid assignees. */
  lemma {:induction false} PassedEmailCheck(form: TaskFormData)
    requires CheckSubmit(form).Send?
    ensures forall k :: 0 <= k < |form.assignedTo| ==> IsValidEmail(form.assignedTo[k])
    ensures CheckSubmit(form).taskData == TaskData(form)
  {
    SomeInvalid(form.assignedTo);
  }

  /** Valid addresses are all kept by `createTask`'s filter. */
  lemma {:induction false} ValidAssigneesKept(emails: seq<string>)
    requires forall k :: 0 <= k < |emails| ==> IsValidEmail(emails[k])
    ensures EncodeField(Create, "assignedTo", Arr(Map(StringValue, emails)))
      == Success([("assignedTo", Json(Arr(Map(StringValue, emails))))])
  {
    AllAssigneesKept(Create, Map(StringValue, emails));
  }

  /** The subtask rows the form sends are normalised without loss. */
  lemma {:induction false} CheckedSubtasks(form: TaskFormData)
    ensures EncodeField(Create, "subtask", Arr(Map(SubtaskValue, Filter(HasNonBlankTitle, form.subtask))))
      == Success([("subtask", Json(Arr(Map(SubtaskValue, Map(SentSubtask, Filter(HasNonBlankTitle, form.subtask))))))])
  {
    var rows := Filter(HasNonBlankTitle, form.subtask);
    NormalizeFormSubtasks(rows);
    SubtaskField(Create, Map(SubtaskValue, rows), Map(SentSubtask, rows));
  }

  /** Fields with no special branch always encode. */
  lemma {:induction false} OtherFieldEncodes(mode: Mode, key: string, v: Value)
    requires key != "assignedTo" && key != "subtask" && key != "attachment"
    ensures EncodeField(mode, key, v).Success?
  {
  }

  /** Each field of a form whose assignees all pass the e-mail pattern encodes. */
  lemma {:induction false} CheckedFieldsEncode(form: TaskFormData)
    requires forall k :: 0 <= k < |form.assignedTo| ==> IsValidEmail(form.assignedTo[k])
    ensures var td := TaskData(form);
      forall k :: 0 <= k < |td| ==> EncodeField(Create, td[k].0, td[k].1).Success?
  {
    var td := TaskData(form);
    ValidAssigneesKept(form.assignedTo);
    CheckedSubtasks(form);
    OtherFieldEncodes(Create, "title", td[0].1);
    OtherFieldEncodes(Create, "description", td[1].1);
    OtherFieldEncodes(Create, "status", td[2].1);
    OtherFieldEncodes(Create, "priority", td[3].1);
    OtherFieldEncodes(Create, "tags", td[4].1);
    OtherFieldEncodes(Create, "startDate", td[5].1);
    OtherFieldEncodes(Create, "dueDate", td[6].1);
    AttachmentFieldEncodes(Create, td[9].1);
    assert td[7] == ("assignedTo", Arr(Map(StringValue, form.assignedTo)));
    assert td[8] == ("subtask", Arr(Map(SubtaskValue, Filter(HasNonBlankTitle, form.subtask))));
    forall k | 0 <= k < |td| ensures EncodeField(Create, td[k].0, td[k].1).Success? {
      assert k == 0 || k == 1 || k == 2 || k == 3 || k == 4 || k == 5 || k == 6 || k == 7 || k == 8 || k == 9;
    }
  }

  /** A form that passes the submit checks always encodes: `createTask`'s own
      assignee check cannot fire (every assignee is sent unchanged, by
      `CheckedAssignees`), and the subtasks sent are the non-blank rows with
      trimmed titles (by `CheckedSubtasks`). */
  lemma {:induction false} CheckedFormEncodes(form: TaskFormData)
    requires CheckSubmit(form).Send?
    ensures EncodeFields(Create, CheckSubmit(form).taskData).Success?
  {
    PassedEmailCheck(form);
    CheckedFieldsEncode(form);
    EncodeFieldsSucceeds(Create, TaskData(form));
  }

  /** After a successful create the form holds one empty subtask and no files. */
  lemma {:induction false} InitialFormShape()
    ensures InitialForm.subtask == [EmptySubtask] && InitialForm.attachment == []
    ensures CheckSubmit(InitialForm) == Refused("Title is required.")
  {
  }
}
