/** The task detail panel: relative comment times, the comment, reply and
    update guards, the mapping of a fetched task into the edit form, the
    subtask and attachment edits, progress, and the map of reply drafts. */
module TaskDetail {
  import opened Wrappers
  import opened JsString
  import opened Seqs
  import opened TaskRecords
  import opened ApiTask
  import opened TaskForm

  // ------------------------------------------------------- relative time

  /** `${n} unit${n !== 1 ? "s" : ""} ago` */
  function Ago(n: int, unit: string): string {
    IntToString(n) + " " + unit + (if n != 1 then "s" else "") + " ago"
  }

  /** `formatRelativeTime`, with the date given as the milliseconds elapsed
      since it (`now - commentTime`), or None for a falsy date. */
  function FormatRelativeTime(elapsedMs: Option<int>): string {
    if elapsedMs.None? then "-"
    else
      var diffInSeconds := elapsedMs.value / 1000;
      if diffInSeconds < 60 then IntToString(diffInSeconds) + " seconds ago"
      else
        var diffInMinutes := diffInSeconds / 60;
        if diffInMinutes < 60 then Ago(diffInMinutes, "minute")
        else
          var diffInHours := diffInMinutes / 60;
          if diffInHours < 24 then Ago(diffInHours, "hour")
          else
            var diffInDays := diffInHours / 24;
            if diffInDays < 30 then Ago(diffInDays, "day")
            else
              var diffInMonths := diffInDays / 30;
              if diffInMonths < 12 then Ago(diffInMonths, "month")
              else Ago(diffInMonths / 12, "year")
  }

  datatype TimeUnit = Seconds | Minutes | Hours | Days | Months | Years

  function UnitName(u: TimeUnit): string {
    match u
    case Seconds => "second"
    case Minutes => "minute"
    case Hours => "hour"
    case Days => "day"
    case Months => "month"
    case Years => "year"
  }

  const Minute := 60
  const Hour := 60 * Minute
  const Day := 24 * Hour
  const Month := 30 * Day
  const Year := 12 * Month

  /** The bucket of a difference of d whole seconds, stated with the unit
      lengths directly: a unit is used once d reaches it, the count is the
      floor quotient by the unit length. */
  function Bucket(d: int): (TimeUnit, int) {
    if d < Minute then (Seconds, d)
    else if d < Hour then (Minutes, d / Minute)
    else if d < Day then (Hours, d / Hour)
    else if d < Month then (Days, d / Day)
    else if d < Year then (Months, d / Month)
    else (Years, d / Year)
  }

  /** The text for a count of a unit: singular exactly for a count of one,
      except that seconds are always plural. */
  function Phrase(u: TimeUnit, n: int): string {
    IntToString(n) + " " + UnitName(u) + (if u != Seconds && n == 1 then "" else "s") + " ago"
  }

  /** The nested floor divisions compute the closed-form bucket. */
  lemma {:induction false} FormatIsBucketed(elapsedMs: int)
    ensures FormatRelativeTime(Some(elapsedMs)) == Phrase(Bucket(elapsedMs / 1000).0, Bucket(elapsedMs / 1000).1)
  {
    var d := elapsedMs / 1000;
    NestedDivisions(d);
    var r := FormatRelativeTime(Some(elapsedMs));
    if d < Minute {
      assert Bucket(d) == (Seconds, d);
      assert r == IntToString(d) + " seconds ago";
      SecondsPhrase(d);
    } else if d < Hour {
      assert Bucket(d) == (Minutes, d / Minute);
      assert r == Ago(d / Minute, "minute");
      AgoPhrase(Minutes, d / Minute);
    } else if d < Day {
      assert Bucket(d) == (Hours, d / Hour);
      assert r == Ago(d / Hour, "hour");
      AgoPhrase(Hours, d / Hour);
    } else if d < Month {
      assert Bucket(d) == (Days, d / Day);
      assert r == Ago(d / Day, "day");
      AgoPhrase(Days, d / Day);
    } else if d < Year {
      assert Bucket(d) == (Months, d / Month);
      assert r == Ago(d / Month, "month");
      AgoPhrase(Months, d / Month);
    } else {
      assert Bucket(d) == (Years, d / Year);
      assert r == Ago(d / Year, "year");
      AgoPhrase(Years, d / Year);
    }
  }

  /** Dividing by each unit in turn is dividing by the unit's length in seconds. */
  lemma {:induction false} NestedDivisions(d: int)
    ensures d / 60 / 60 == d / Hour
    ensures d / 60 / 60 / 24 == d / Day
    ensures d / 60 / 60 / 24 / 30 == d / Month
    ensures d / 60 / 60 / 24 / 30 / 12 == d / Year
    ensures d / 60 < 60 <==> d < Hour
    ensures d / Hour < 24 <==> d < Day
    ensures d / Day < 30 <==> d < Month
    ensures d / Month < 12 <==> d < Year
  {
  }

  /** Seconds are always phrased in the plural. */
  lemma {:induction false} SecondsPhrase(n: int)
    ensures Phrase(Seconds, n) == IntToString(n) + " seconds ago"
  {
    var i := IntToString(n);
    assert " " + "second" + "s" + " ago" == " seconds ago";
    calc {
      Phrase(Seconds, n);
      i + " " + "second" + "s" + " ago";
      i + (" " + "second" + "s" + " ago");
    }
  }

  /** Every unit but seconds is phrased by `Ago` with the unit's name. */
  lemma {:induction false} AgoPhrase(u: TimeUnit, n: int)
    requires u != Seconds
    ensures Ago(n, UnitName(u)) == Phrase(u, n)
  {
  }

  /** The count shown for each unit stays within its unit's range. */
  lemma {:induction false} BucketRanges(d: int)
    ensures var (u, n) := Bucket(d);
      && (u == Seconds ==> n == d && d < 60)
      && (u == Minutes ==> 1 <= n < 60)
      && (u == Hours ==> 1 <= n < 24)
      && (u == Days ==> 1 <= n < 30)
      && (u == Months ==> 1 <= n < 12)
      && (u == Years ==> n >= 1)
  {
  }

  lemma {:induction false} FalsyDateIsDash()
    ensures FormatRelativeTime(None) == "-"
  {
  }

  // --------------------------------------------------------- fetched task

  datatype FetchedSubtask = FetchedSubtask(title: string, completed: Option<bool>)

  /** The fields `loadTask` reads from the fetched task; `assignedTo` holds the
      users' `_id`s. */
  datatype FetchedTask = FetchedTask(
    title: Option<string>,
    description: Option<string>,
    status: Option<string>,
    priority: Option<string>,
    tags: Option<seq<string>>,
    startDate: Option<string>,
    dueDate: Option<string>,
    assignedTo: Option<seq<string>>,
    subtask: Option<seq<FetchedSubtask>>)

  /** `date ? date.split("T")[0] : ""` */
  function DatePart(date: Option<string>): string {
    if date.Some? && date.value != "" then Split(date.value, 'T')[0] else ""
  }

  function LoadSubtask(sub: FetchedSubtask): Subtask {
    Subtask(sub.title, sub.completed == Some(true))
  }

  /** The form `loadTask` fills from a fetched task. */
  function LoadForm(data: FetchedTask): TaskFormData {
    TaskFormData(
      OrElse(data.title, ""),
      OrElse(data.description, ""),
      OrElse(data.status, "pending"),
      OrElse(data.priority, "low"),
      if data.tags.Some? then JoinTags(data.tags.value) else "",
      DatePart(data.startDate),
      DatePart(data.dueDate),
      if data.assignedTo.Some? then data.assignedTo.value else [],
      [],
      if data.subtask.Some? then Map(LoadSubtask, data.subtask.value) else [])
  }

  /** The date kept is the text before the first "T", so an ISO timestamp
      loses its time part. */
  lemma {:induction false} DatePartIsDate(date: string)
    ensures DatePart(Some(date)) <= date
    ensures 'T' !in DatePart(Some(date))
    ensures |DatePart(Some(date))| < |date| ==> date[|DatePart(Some(date))|] == 'T'
  {
    if date != "" {
      SplitFirstIsPrefix(date, 'T');
    }
  }

  /** The loaded form starts with no new attachments, defaults status and
      priority, and keeps every loaded subtask's title, with `completed`
      true only where the fetched value was true. */
  lemma {:induction false} LoadFormShape(data: FetchedTask)
    ensures LoadForm(data).attachment == []
    ensures data.status.None? ==> LoadForm(data).status == "pending"
    ensures data.priority.None? ==> LoadForm(data).priority == "low"
    ensures data.subtask.Some? ==>
      && |LoadForm(data).subtask| == |data.subtask.value|
      && forall k :: 0 <= k < |data.subtask.value| ==>
        && LoadForm(data).subtask[k].title == data.subtask.value[k].title
        && (LoadForm(data).subtask[k].completed <==> data.subtask.value[k].completed == Some(true))
    ensures data.subtask.None? ==> LoadForm(data).subtask == []
  {
  }

  /** Saving the loaded form sends the fetched tags back unchanged when they
      are non-empty, comma-free and trimmed. */
  lemma {:induction false} LoadedTagsRoundTrip(data: FetchedTask)
    requires data.tags.Some?
    requires forall k :: 0 <= k < |data.tags.value| ==>
      data.tags.value[k] != "" && ',' !in data.tags.value[k] && IsTrimmed(data.tags.value[k])
    ensures ParseTags(LoadForm(data).tags) == data.tags.value
  {
    ParseJoinTags(data.tags.value);
  }

  // -------------------------------------------------------------- update

  /** The `taskData` of `handleUpdateSubmit`: as on the create form, except
      that every subtask row is sent. */
  function UpdateTaskData(form: TaskFormData): seq<(string, Value)> {
    [ ("title", Str(form.title)),
      ("description", Str(form.description)),
      ("status", Str(form.status)),
      ("priority", Str(form.priority)),
      ("tags", Arr(Map(StringValue, ParseTags(form.tags)))),
      ("startDate", if form.startDate == "" then Undefined else Str(form.startDate)),
      ("dueDate", if form.dueDate == "" then Undefined else Str(form.dueDate)),
      ("assignedTo", Arr(Map(StringValue, form.assignedTo))),
      ("subtask", Arr(Map(SubtaskValue, form.subtask))),
      ("attachment", if |form.attachment| > 0 then Arr(Map(FileValue, form.attachment)) else Undefined) ]
  }

  function CheckUpdate(form: TaskFormData): SubmitCheck {
    if Trim(form.title) == "" then Refused("Title cannot be empty.") else Send(UpdateTaskData(form))
  }

  /** Every row's title is a string, so the update normaliser never throws:
      it sends the rows with a non-blank title, trimmed, in order. */
  lemma {:induction false} NormalizeRows(subs: seq<Subtask>)
    ensures NormalizeAll(Map(SubtaskValue, subs)) == Success(Map(SentSubtask, subs))
  {
    var vs := Map(SubtaskValue, subs);
    forall k | 0 <= k < |subs| ensures NormalizeSubtask(vs[k]) == Success(SentSubtask(subs[k])) {
      LookupSubtaskValue(subs[k]);
    }
    NormalizeAllOf(vs, Map(SentSubtask, subs));
  }

  lemma {:induction false} UpdateAssignees(ids: seq<string>)
    requires forall k :: 0 <= k < |ids| ==> Trim(ids[k]) != ""
    ensures EncodeField(Update, "assignedTo", Arr(Map(StringValue, ids)))
      == Success([("assignedTo", Json(Arr(Map(StringValue, ids))))])
  {
    var vs := Map(StringValue, ids);
    assert forall k :: 0 <= k < |vs| ==> IsKeptAssignee(Update, vs[k]);
    AllAssigneesKept(Update, vs);
  }

  lemma {:induction false} UpdateSubtasks(subs: seq<Subtask>)
    ensures EncodeField(Update, "subtask", Arr(Map(SubtaskValue, subs)))
      == Success([("subtask", Json(Arr(Map(SubtaskValue, Filter(HasTitle, Map(SentSubtask, subs))))))])
  {
    NormalizeRows(subs);
    SubtaskField(Update, Map(SubtaskValue, subs), Filter(HasTitle, Map(SentSubtask, subs)));
  }

  /** Each field of an update whose assignee ids are all non-blank encodes. */
  lemma {:induction false} UpdateFieldsEncode(form: TaskFormData)
    requires forall k :: 0 <= k < |form.assignedTo| ==> Trim(form.assignedTo[k]) != ""
    ensures var td := UpdateTaskData(form);
      forall k :: 0 <= k < |td| ==> EncodeField(Update, td[k].0, td[k].1).Success?
  {
    var td := UpdateTaskData(form);
    UpdateAssignees(form.assignedTo);
    UpdateSubtasks(form.subtask);
    OtherFieldEncodes(Update, "title", td[0].1);
    OtherFieldEncodes(Update, "description", td[1].1);
    OtherFieldEncodes(Update, "status", td[2].1);
    OtherFieldEncodes(Update, "priority", td[3].1);
    OtherFieldEncodes(Update, "tags", td[4].1);
    OtherFieldEncodes(Update, "startDate", td[5].1);
    OtherFieldEncodes(Update, "dueDate", td[6].1);
    AttachmentFieldEncodes(Update, td[9].1);
    assert td[7] == ("assignedTo", Arr(Map(StringValue, form.assignedTo)));
    assert td[8] == ("subtask", Arr(Map(SubtaskValue, form.subtask)));
    forall k | 0 <= k < |td| ensures EncodeField(Update, td[k].0, td[k].1).Success? {
      assert k == 0 || k == 1 || k == 2 || k == 3 || k == 4 || k == 5 || k == 6 || k == 7 || k == 8 || k == 9;
    }
  }

  /** An update whose assignee ids are all non-blank always encodes. */
  lemma {:induction false} CheckedUpdateEncodes(form: TaskFormData)
    requires CheckUpdate(form).Send?
    requires forall k :: 0 <= k < |form.assignedTo| ==> Trim(form.assignedTo[k]) != ""
    ensures EncodeFields(Update, CheckUpdate(form).taskData).Success?
  {
    UpdateFieldsEncode(form);
    EncodeFieldsSucceeds(Update, UpdateTaskData(form));
  }

  /** With a non-blank title and non-blank assignees the update payload always
      encodes, so the outcome is the server's reply: its data when it is Ok. */
  lemma {:induction false} UpdateOkSucceeds(form: TaskFormData, reply: Reply)
    requires Trim(form.title) != ""
    requires forall k :: 0 <= k < |form.assignedTo| ==> Trim(form.assignedTo[k]) != ""
    ensures reply.Ok? ==> Outcome(Update, UpdateTaskData(form), reply) == Success(reply.data)
    ensures reply.HttpError? ==> Outcome(Update, UpdateTaskData(form), reply).Failure?
  {
    CheckedUpdateEncodes(form);
  }

  // ---------------------------------------------------------- the panel

  /** The panel's form and text-input state. `replyInputs` maps a comment or
      reply id to its draft; an id is present exactly while its reply box is open. */
  class TaskDetailPanel {
    var formData: TaskFormData
    var comment: string
    var replyInputs: map<string, string>
    var isEditing: bool

    constructor ()
      ensures formData == TaskFormData("", "", "pending", "low", "", "", "", [], [], [])
      ensures comment == "" && replyInputs == map[] && !isEditing
    {
      formData := TaskFormData("", "", "pending", "low", "", "", "", [], [], []);
      comment, replyInputs, isEditing := "", map[], false;
    }

    /** `loadTask` after a successful fetch. */
    method LoadTask(data: FetchedTask)
      modifies this
      ensures formData == LoadForm(data)
      ensures comment == old(comment) && replyInputs == old(replyInputs) && isEditing == old(isEditing)
    {
      formData := LoadForm(data);
    }

    /** `handleCommentSubmit`: a blank comment is refused; otherwise the trimmed
        text is sent and, on success, the input is cleared. */
    method HandleCommentSubmit(succeeded: bool) returns (sent: Option<string>)
      modifies this
      ensures sent == (if Trim(old(comment)) == "" then None else Some(Trim(old(comment))))
      ensures comment == (if sent.Some? && succeeded then "" else old(comment))
      ensures formData == old(formData) && replyInputs == old(replyInputs) && isEditing == old(isEditing)
    {
      if Trim(comment) == "" {
        return None;
      }
      sent := Some(Trim(comment));
      if succeeded {
        comment := "";
      }
    }

    /** `handleReplySubmit(commentId, inputId)`: the draft is
        `replyInputs[inputId]?.trim()`; a missing or blank draft is refused; a
        successful reply empties that draft only. */
    method HandleReplySubmit(inputId: string, succeeded: bool) returns (sent: Option<string>)
      modifies this
      ensures inputId !in old(replyInputs) || Trim(old(replyInputs)[inputId]) == "" <==> sent.None?
      ensures sent.Some? ==> sent.value == Trim(old(replyInputs)[inputId])
      ensures replyInputs == (if sent.Some? && succeeded then old(replyInputs)[inputId := ""] else old(replyInputs))
      ensures formData == old(formData) && comment == old(comment) && isEditing == old(isEditing)
    {
      if inputId !in replyInputs || Trim(replyInputs[inputId]) == "" {
        return None;
      }
      sent := Some(Trim(replyInputs[inputId]));
      if succeeded {
        replyInputs := replyInputs[inputId := ""];
      }
    }

    /** The Reply button: `[id]: prev[id] || ""` opens the box and keeps a draft. */
    method OpenReply(id: string)
      modifies this
      ensures id in replyInputs
      ensures id in old(replyInputs) ==> replyInputs == old(replyInputs)
      ensures id !in old(replyInputs) ==> replyInputs == old(replyInputs)[id := ""]
      ensures formData == old(formData) && comment == old(comment) && isEditing == old(isEditing)
    {
      var draft := if id in replyInputs && replyInputs[id] != "" then replyInputs[id] else "";
      replyInputs := replyInputs[id := draft];
    }

    /** The Cancel button: drop that id's draft and close its box. */
    method CancelReply(id: string)
      modifies this
      ensures replyInputs == old(replyInputs) - {id}
      ensures formData == old(formData) && comment == old(comment) && isEditing == old(isEditing)
    {
      replyInputs := replyInputs - {id};
    }

    /** `handleReplyInputChange(id, value)` */
    method HandleReplyInputChange(id: string, value: string)
      modifies this
      ensures replyInputs == old(replyInputs)[id := value]
      ensures formData == old(formData) && comment == old(comment) && isEditing == old(isEditing)
    {
      replyInputs := replyInputs[id := value];
    }

    /** `handleUpdateSubmit`, given the server's `reply`: a blank title is
        refused before any request; otherwise `updateTask` (`ApiTask.SubmitTask`
        in update mode) sends this form's payload, which is returned. A
        successful update leaves edit mode, and a failure shows the error's
        message, or the fallback when it has none (`UpdateOkSucceeds` says
        when an Ok reply succeeds). */
    method HandleUpdateSubmit(reply: Reply) returns (sent: bool, taskData: seq<(string, Value)>, toast: Toast)
      modifies this
      ensures sent <==> Trim(old(formData).title) != ""
      ensures taskData == if sent then CheckUpdate(old(formData)).taskData else []
      ensures !sent ==> toast == ErrorToast("Title cannot be empty.") && isEditing == old(isEditing)
      ensures sent ==>
        var outcome := Outcome(Update, CheckUpdate(old(formData)).taskData, reply);
        && (outcome.Success? ==> !isEditing && toast == SuccessToast("Task Successfully Updated!"))
        && (outcome.Failure? ==> isEditing == old(isEditing) && toast == ErrorToast(outcome.error))
      ensures unchanged(this`formData, this`comment, this`replyInputs)
    {
      var check := CheckUpdate(formData);
      if check.Refused? {
        return false, [], ErrorToast(check.message);
      }
      sent, taskData := true, check.taskData;
      var outcome := SubmitTask(Update, taskData, reply);
      if outcome.Success? {
        isEditing := false;
        toast := SuccessToast("Task Successfully Updated!");
      } else {
        toast := ErrorToast(if outcome.error != "" then outcome.error else "Error updating task.");
      }
    }

    /** `handleChange`: `{ ...formData, [name]: value }` for the title,
        description, tags and date inputs. */
    method HandleChange(field: TextField, value: string)
      modifies this
      ensures formData == WithText(old(formData), field, value)
      ensures comment == old(comment) && replyInputs == old(replyInputs) && isEditing == old(isEditing)
    {
      formData := WithText(formData, field, value);
    }

    /** `handleSubtaskChange(index, value)` */
    method HandleSubtaskChange(index: nat, value: string)
      requires index < |formData.subtask|
      modifies this
      ensures formData == old(formData).(subtask := WithTitle(old(formData).subtask, index, value))
      ensures comment == old(comment) && replyInputs == old(replyInputs) && isEditing == old(isEditing)
    {
      formData := formData.(subtask := WithTitle(formData.subtask, index, value));
    }

    /** `handleSubtaskToggle(index)`: flip one row and send the whole list. */
    method HandleSubtaskToggle(index: nat) returns (taskData: seq<(string, Value)>)
      requires index < |formData.subtask|
      modifies this
      ensures formData == old(formData).(subtask := Toggled(old(formData).subtask, index))
      ensures taskData == [("subtask", Arr(Map(SubtaskValue, formData.subtask)))]
      ensures comment == old(comment) && replyInputs == old(replyInputs) && isEditing == old(isEditing)
    {
      var updatedSubtasks := Toggled(formData.subtask, index);
      formData := formData.(subtask := updatedSubtasks);
      taskData := [("subtask", Arr(Map(SubtaskValue, updatedSubtasks)))];
    }

    method AddSubtask()
      modifies this
      ensures formData == old(formData).(subtask := old(formData).subtask + [EmptySubtask])
      ensures comment == old(comment) && replyInputs == old(replyInputs) && isEditing == old(isEditing)
    {
      formData := formData.(subtask := formData.subtask + [EmptySubtask]);
    }

    method RemoveSubtask(index: int)
      modifies this
      ensures formData == old(formData).(subtask := WithoutIndex(old(formData).subtask, index))
      ensures comment == old(comment) && replyInputs == old(replyInputs) && isEditing == old(isEditing)
    {
      formData := formData.(subtask := WithoutIndex(formData.subtask, index));
    }

    /** `handleFileChange`, as on the create form. */
    method HandleFileChange(files: seq<FileInfo>) returns (warned: bool, uploaded: nat)
      modifies this
      ensures formData == old(formData).(attachment := old(formData).attachment + AcceptedFiles(files))
      ensures warned <==> exists k :: 0 <= k < |files| && !IsAllowedFile(files[k])
      ensures uploaded == |AcceptedFiles(files)|
      ensures unchanged(this`comment, this`replyInputs, this`isEditing)
    {
      var newFiles := AcceptedFiles(files);
      warned := |newFiles| != |files|;
      uploaded := |newFiles|;
      if |newFiles| > 0 {
        formData := formData.(attachment := formData.attachment + newFiles);
      } else {
        assert formData.attachment + newFiles == formData.attachment;
      }
    }

    method HandleRemoveFile(index: int)
      modifies this
      ensures formData == old(formData).(attachment := WithoutIndex(old(formData).attachment, index))
      ensures comment == old(comment) && replyInputs == old(replyInputs) && isEditing == old(isEditing)
    {
      formData := formData.(attachment := WithoutIndex(formData.attachment, index));
    }
  }

  /** The subtask toggle's payload always encodes and sends every row with a
      non-blank title. */
  lemma {:induction false} TogglePayloadEncodes(subs: seq<Subtask>)
    ensures EncodeFields(Update, [("subtask", Arr(Map(SubtaskValue, subs)))])
      == Success([("subtask", Json(Arr(Map(SubtaskValue, Filter(HasTitle, Map(SentSubtask, subs))))))])
  {
    UpdateSubtasks(subs);
    SingleField(Update, "subtask", Arr(Map(SubtaskValue, subs)));
  }
}
