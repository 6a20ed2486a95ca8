/** The payload side of the task API wrapper: the e-mail pattern, and the
    `for…in` loop of `createTask` / `updateTask` that turns a `taskData` object
    into multipart form entries (assignees filtered, subtasks normalised,
    attachments spread, undefined fields skipped). */
module ApiTask {
  import opened Wrappers
  import opened JsString
  import opened Seqs
  import opened TaskRecords

  // ---------------------------------------------------------------- e-mail

  /** Every character belongs to `[^\s@]`. */
  predicate NoSpaceOrAt(t: string) {
    forall k :: 0 <= k < |t| ==> !IsWhitespace(t[k]) && t[k] != '@'
  }

  /** `/^[^\s@]+@[^\s@]+\.[^\s@]+$/.test(email)`: the string splits into three
      non-empty runs of `[^\s@]` separated by "@" and then ".". */
  predicate IsValidEmail(email: string) {
    exists at, dot ::
      && 0 < at && at + 1 < dot && dot + 1 < |email|
      && email[at] == '@' && email[dot] == '.'
      && NoSpaceOrAt(email[..at]) && NoSpaceOrAt(email[at + 1..dot]) && NoSpaceOrAt(email[dot + 1..])
  }

  /** The shape in plain words: no white space, exactly one "@" with something
      before it, and a "." after it that is neither the first nor the last
      character of the domain. */
  predicate WellFormedEmail(s: string) {
    && (forall k :: 0 <= k < |s| ==> !IsWhitespace(s[k]))
    && exists at ::
      && 0 < at < |s| && s[at] == '@'
      && (forall k :: 0 <= k < |s| && s[k] == '@' ==> k == at)
      && (exists dot :: at + 1 < dot < |s| - 1 && s[dot] == '.')
  }

  /** A run of `[^\s@]` characters, read off the positions of the whole string. */
  lemma {:induction false} NoSpaceOrAtSlice(s: string, lo: nat, hi: nat)
    requires lo <= hi <= |s|
    requires forall k :: lo <= k < hi ==> !IsWhitespace(s[k]) && s[k] != '@'
    ensures NoSpaceOrAt(s[lo..hi])
  {
    forall k | 0 <= k < hi - lo ensures s[lo..hi][k] == s[lo + k] { }
  }

  /** The positions of the whole string that a `[^\s@]` run covers. */
  lemma {:induction false} SliceNoSpaceOrAt(s: string, lo: nat, hi: nat)
    requires lo <= hi <= |s|
    requires NoSpaceOrAt(s[lo..hi])
    ensures forall k :: lo <= k < hi ==> !IsWhitespace(s[k]) && s[k] != '@'
  {
    forall k | lo <= k < hi ensures !IsWhitespace(s[k]) && s[k] != '@' {
      assert s[k] == s[lo..hi][k - lo];
    }
  }

  lemma {:induction false} ValidEmailIsWellFormed(s: string)
    requires IsValidEmail(s)
    ensures WellFormedEmail(s)
  {
    var at, dot :| && 0 < at && at + 1 < dot && dot + 1 < |s|
      && s[at] == '@' && s[dot] == '.'
      && NoSpaceOrAt(s[..at]) && NoSpaceOrAt(s[at + 1..dot]) && NoSpaceOrAt(s[dot + 1..]);
    assert s[..at] == s[0..at] && s[dot + 1..] == s[dot + 1..|s|];
    SliceNoSpaceOrAt(s, 0, at);
    SliceNoSpaceOrAt(s, at + 1, dot);
    SliceNoSpaceOrAt(s, dot + 1, |s|);
    RunsAroundAt(s, at, dot);
    assert at + 1 < dot < |s| - 1 && s[dot] == '.';
  }

  /** Three `[^\s@]` runs around an "@" and a "." leave no white space and
      no other "@". */
  lemma {:induction false} RunsAroundAt(s: string, at: nat, dot: nat)
    requires at < dot < |s| && s[at] == '@' && s[dot] == '.'
    requires forall k :: 0 <= k < at ==> !IsWhitespace(s[k]) && s[k] != '@'
    requires forall k :: at + 1 <= k < dot ==> !IsWhitespace(s[k]) && s[k] != '@'
    requires forall k :: dot + 1 <= k < |s| ==> !IsWhitespace(s[k]) && s[k] != '@'
    ensures forall k :: 0 <= k < |s| ==> !IsWhitespace(s[k])
    ensures forall k :: 0 <= k < |s| && s[k] == '@' ==> k == at
  {
    forall k | 0 <= k < |s| ensures !IsWhitespace(s[k]) && (s[k] == '@' ==> k == at) {
      if k == at {
        assert !IsWhitespace('@');
      } else if k == dot {
        assert !IsWhitespace('.');
      }
    }
  }

  lemma {:induction false} WellFormedIsValidEmail(s: string)
    requires WellFormedEmail(s)
    ensures IsValidEmail(s)
  {
    var at :| && 0 < at < |s| && s[at] == '@'
      && (forall k :: 0 <= k < |s| && s[k] == '@' ==> k == at)
      && (exists dot :: at + 1 < dot < |s| - 1 && s[dot] == '.');
    var dot :| at + 1 < dot < |s| - 1 && s[dot] == '.';
    NoSpaceOrAtSlice(s, 0, at);
    NoSpaceOrAtSlice(s, at + 1, dot);
    NoSpaceOrAtSlice(s, dot + 1, |s|);
    assert s[..at] == s[0..at];
  }

  /** The pattern accepts exactly the well-formed addresses. */
  lemma {:induction false} IsValidEmailIff(s: string)
    ensures IsValidEmail(s) <==> WellFormedEmail(s)
  {
    if IsValidEmail(s) {
      ValidEmailIsWellFormed(s);
    }
    if WellFormedEmail(s) {
      WellFormedIsValidEmail(s);
    }
  }

  // ------------------------------------------------------ JavaScript values

  /** The values a `taskData` field can hold (numbers are integers here). */
  datatype Value =
    | Undefined
    | Null
    | Bool(b: bool)
    | Num(n: int)
    | Str(s: string)
    | Arr(items: seq<Value>)
    | Obj(fields: seq<(string, Value)>)
    | File(file: FileInfo)

  predicate Truthy(v: Value) {
    match v
    case Undefined => false
    case Null => false
    case Bool(b) => b
    case Num(n) => n != 0
    case Str(s) => s != ""
    case _ => true
  }

  function Lookup(fields: seq<(string, Value)>, key: string): Value {
    if |fields| == 0 then Undefined
    else if fields[0].0 == key then fields[0].1
    else Lookup(fields[1..], key)
  }

  /** `v[key]` for the keys read here; only plain objects carry them. */
  function Get(v: Value, key: string): Value {
    if v.Obj? then Lookup(v.fields, key) else Undefined
  }

  /** `String(v)`, as `FormData.append` converts a value that is not a file;
      array elements that are null or undefined print as "". */
  function FormText(v: Value): string
    decreases v
  {
    match v
    case Undefined => "undefined"
    case Null => "null"
    case Bool(b) => if b then "true" else "false"
    case Num(n) => IntToString(n)
    case Str(s) => s
    case Arr(items) =>
      Join(seq(|items|, i requires 0 <= i < |items| =>
        if items[i].Undefined? || items[i].Null? then "" else FormText(items[i])), ",")
    case Obj(_) => "[object Object]"
    case File(_) => "[object File]"
  }

  // ------------------------------------------------------------ form data

  /** One multipart entry: text, the text `JSON.stringify(value)`, or a file. */
  datatype Entry = Text(text: string) | Json(value: Value) | Blob(file: FileInfo)

  /** `formData.append(key, v)` */
  function FieldEntry(key: string, v: Value): (string, Entry) {
    if v.File? then (key, Blob(v.file)) else (key, Text(FormText(v)))
  }

  datatype Mode = Create | Update

  const InvalidAssignees := "Invalid email addresses in assignedTo"
  /** A property read on null or undefined, or `forEach`/`trim` on a value without it. */
  const TypeError := "TypeError"

  function GenericError(mode: Mode): string {
    match mode
    case Create => "Gagal membuat tugas"
    case Update => "Gagal memperbarui tugas"
  }

  /** The assignee filter: `createTask` keeps strings matching the e-mail
      pattern, `updateTask` strings whose trimmed text is non-empty. */
  predicate IsKeptAssignee(mode: Mode, v: Value) {
    v.Str? && match mode
      case Create => IsValidEmail(v.s)
      case Update => Trim(v.s) != ""
  }

  function KeptAssignees(mode: Mode, items: seq<Value>): (r: seq<Value>)
    ensures IsSubsequence(r, items)
    ensures forall k :: 0 <= k < |r| ==> IsKeptAssignee(mode, r[k])
    ensures forall k :: 0 <= k < |items| && IsKeptAssignee(mode, items[k]) ==> items[k] in r
    ensures |r| == 0 <==> forall k :: 0 <= k < |items| ==> !IsKeptAssignee(mode, items[k])
    ensures forall v :: multiset(r)[v] == if IsKeptAssignee(mode, v) then multiset(items)[v] else 0
  {
    FilterIsSubsequence(v => IsKeptAssignee(mode, v), items);
    FilterMembers(v => IsKeptAssignee(mode, v), items);
    FilterMultiset(v => IsKeptAssignee(mode, v), items);
    Filter(v => IsKeptAssignee(mode, v), items)
  }

  /** One entry of the subtask `map`: `{ title: sub.title?.trim() || "",
      completed: typeof sub.completed === "boolean" ? sub.completed : false }`. */
  function NormalizeSubtask(sub: Value): (r: Result<Subtask>)
    ensures r.Failure? <==>
      sub.Undefined? || sub.Null? ||
      !(Get(sub, "title").Undefined? || Get(sub, "title").Null? || Get(sub, "title").Str?)
    ensures r.Failure? ==> r.error == TypeError
    ensures r.Success? ==> IsTrimmed(r.value.title)
    ensures r.Success? && Get(sub, "title").Str? ==> r.value.title == Trim(Get(sub, "title").s)
    ensures r.Success? ==> (r.value.completed <==> Get(sub, "completed") == Bool(true))
  {
    if sub.Undefined? || sub.Null? then Failure(TypeError)
    else
      var title := Get(sub, "title");
      var completed := Get(sub, "completed");
      var c := completed.Bool? && completed.b;
      if title.Undefined? || title.Null? then Success(Subtask("", c))
      else if title.Str? then TrimIsTrimmed(title.s); Success(Subtask(Trim(title.s), c))
      else Failure(TypeError)
  }

  /** The subtask `map`, which throws at the first entry that throws. */
  function NormalizeAll(subs: seq<Value>): (r: Result<seq<Subtask>>)
    ensures r.Failure? <==> exists k :: 0 <= k < |subs| && NormalizeSubtask(subs[k]).Failure?
    ensures r.Failure? ==> r.error == TypeError
    ensures r.Success? ==> |r.value| == |subs|
    ensures r.Success? ==> forall k :: 0 <= k < |subs| ==> NormalizeSubtask(subs[k]) == Success(r.value[k])
  {
    if |subs| == 0 then Success([])
    else match NormalizeSubtask(subs[0])
      case Failure(e) => Failure(e)
      case Success(s) =>
        match NormalizeAll(subs[1..])
        case Failure(e) =>
          assert forall k :: 1 <= k < |subs| ==> subs[k] == subs[1..][k - 1];
          Failure(e)
        case Success(rest) =>
          assert forall k :: 1 <= k < |subs| ==> subs[k] == subs[1..][k - 1];
          Success([s] + rest)
  }

  predicate HasTitle(s: Subtask) { s.title != "" }

  /** The whole subtask normalisation: map, then drop empty titles. */
  function NormalizeSubtasks(subs: seq<Value>): Result<seq<Subtask>> {
    match NormalizeAll(subs)
    case Failure(e) => Failure(e)
    case Success(all) => Success(Filter(HasTitle, all))
  }

  /** A normalised subtask as the object that is serialised. */
  function SubtaskValue(s: Subtask): Value {
    Obj([("title", Str(s.title)), ("completed", Bool(s.completed))])
  }

  /** What one `for…in` iteration appends for `key`, or what it throws: the
      specification of the loop body `AppendField`, which the lemmas about
      the whole loop reason with. */
  function EncodeField(mode: Mode, key: string, v: Value): Result<seq<(string, Entry)>> {
    if key == "assignedTo" && v.Arr? then
      var kept := KeptAssignees(mode, v.items);
      if |kept| == 0 && |v.items| > 0 then Failure(InvalidAssignees)
      else Success([(key, Json(Arr(kept)))])
    else if key == "subtask" && v.Arr? then
      match NormalizeSubtasks(v.items)
      case Failure(e) => Failure(e)
      case Success(subs) => Success([(key, Json(Arr(Map(SubtaskValue, subs))))])
    else if key == "attachment" && Truthy(v) then
      if v.Arr? then Success(Map((f: Value) => FieldEntry("attachment", f), v.items))
      else Failure(TypeError)
    else if !v.Undefined? && key != "attachment" then Success([FieldEntry(key, v)])
    else Success([])
  }

  /** The entries of the whole loop over the fields in key order, or the
      first error thrown. */
  function EncodeFields(mode: Mode, fields: seq<(string, Value)>): Result<seq<(string, Entry)>> {
    if |fields| == 0 then Success([])
    else
      var last := fields[|fields| - 1];
      match EncodeFields(mode, fields[..|fields| - 1])
      case Failure(e) => Failure(e)
      case Success(before) =>
        match EncodeField(mode, last.0, last.1)
        case Failure(e) => Failure(e)
        case Success(es) => Success(before + es)
  }

  /** `taskData.attachment.forEach((file) => formData.append("attachment", file))` */
  method AppendAttachments(formData: seq<(string, Entry)>, files: seq<Value>)
    returns (appended: seq<(string, Entry)>)
    ensures appended == formData + Map((f: Value) => FieldEntry("attachment", f), files)
  {
    appended := formData;
    var j := 0;
    while j < |files|
      invariant 0 <= j <= |files|
      invariant appended == formData + Map((f: Value) => FieldEntry("attachment", f), files[..j])
    {
      assert files[..j + 1] == files[..j] + [files[j]];
      MapAppend((f: Value) => FieldEntry("attachment", f), files[..j], [files[j]]);
      appended := appended + [FieldEntry("attachment", files[j])];
      j := j + 1;
    }
    assert files[..j] == files;
  }

  /** One iteration of the `for…in` loop: append the entries for `key`, or
      throw. Its contract ties it to `EncodeField`, which specifies it. */
  method AppendField(mode: Mode, formData: seq<(string, Entry)>, key: string, value: Value)
    returns (r: Result<seq<(string, Entry)>>)
    ensures EncodeField(mode, key, value).Failure? ==> r == Failure(EncodeField(mode, key, value).error)
    ensures EncodeField(mode, key, value).Success? ==> r == Success(formData + EncodeField(mode, key, value).value)
  {
    if key == "assignedTo" && value.Arr? {
      var validEmails := KeptAssignees(mode, value.items);
      if |validEmails| == 0 && |value.items| > 0 {
        return Failure(InvalidAssignees);
      }
      return Success(formData + [(key, Json(Arr(validEmails)))]);
    } else if key == "subtask" && value.Arr? {
      var validated := NormalizeSubtasks(value.items);
      if validated.Failure? {
        return Failure(validated.error);
      }
      return Success(formData + [(key, Json(Arr(Map(SubtaskValue, validated.value))))]);
    } else if key == "attachment" && Truthy(value) {
      if !value.Arr? {
        return Failure(TypeError);
      }
      var appended := AppendAttachments(formData, value.items);
      return Success(appended);
    } else if value != Undefined && key != "attachment" {
      return Success(formData + [FieldEntry(key, value)]);
    }
    assert formData + [] == formData;
    return Success(formData);
  }

  /** The `for…in` loop appending into a fresh FormData, stopping at the first throw. */
  method BuildFormData(mode: Mode, taskData: seq<(string, Value)>) returns (r: Result<seq<(string, Entry)>>)
    ensures r == EncodeFields(mode, taskData)
  {
    var formData: seq<(string, Entry)> := [];
    var i := 0;
    while i < |taskData|
      invariant 0 <= i <= |taskData|
      invariant EncodeFields(mode, taskData[..i]) == Success(formData)
    {
      var (key, value) := taskData[i];
      assert taskData[..i + 1][..i] == taskData[..i];
      assert taskData[..i + 1][i] == (key, value);
      var step := AppendField(mode, formData, key, value);
      if step.Failure? {
        FailurePersists(mode, taskData, i + 1);
        return step;
      }
      formData := step.value;
      i := i + 1;
    }
    assert taskData[..i] == taskData;
    return Success(formData);
  }

  /** Once a prefix of the fields throws, the whole loop throws the same error. */
  lemma {:induction false} FailurePersists(mode: Mode, fields: seq<(string, Value)>, n: nat)
    requires n <= |fields| && EncodeFields(mode, fields[..n]).Failure?
    ensures EncodeFields(mode, fields) == EncodeFields(mode, fields[..n])
    decreases |fields| - n
  {
    if n < |fields| {
      assert fields[..n + 1][..n] == fields[..n];
      FailurePersists(mode, fields, n + 1);
    } else {
      assert fields[..n] == fields;
    }
  }

  // ------------------------------------------------------------- outcome

  /** How the request ended: the response body, or an HTTP error whose body
      may carry a message. */
  datatype Reply = Ok(data: Value) | HttpError(message: Option<string>)

  /** `createTask` / `updateTask` as a whole: build the form data, send it,
      and rethrow any error as `error.response?.data?.message || <generic>`. */
  function Outcome(mode: Mode, taskData: seq<(string, Value)>, reply: Reply): Result<Value> {
    match EncodeFields(mode, taskData)
    case Failure(_) => Failure(GenericError(mode))
    case Success(_) =>
      match reply
      case Ok(data) => Success(data)
      case HttpError(m) => Failure(if m.Some? && m.value != "" then m.value else GenericError(mode))
  }

  /** `createTask` / `updateTask`: runs the form-data loop, then takes the
      request's `reply`; whatever fails reaches the caller with a message. */
  method SubmitTask(mode: Mode, taskData: seq<(string, Value)>, reply: Reply) returns (r: Result<Value>)
    ensures r == Outcome(mode, taskData, reply)
    ensures r.Failure? ==> r.error != ""
    ensures r.Success? <==> EncodeFields(mode, taskData).Success? && reply.Ok?
  {
    var formData := BuildFormData(mode, taskData);
    if formData.Failure? {
      return Failure(GenericError(mode));
    }
    match reply
    case Ok(data) => r := Success(data);
    case HttpError(m) => r := Failure(if m.Some? && m.value != "" then m.value else GenericError(mode));
  }

  // ---------------------------------------------------------------- lemmas

  /** The assignee rule: the error is thrown exactly when a non-empty list has
      no entry passing the filter; otherwise the kept entries, in order and
      unchanged, are sent as one JSON entry ("[]" for an empty list). */
  lemma {:induction false} AssignedToRule(mode: Mode, items: seq<Value>)
    ensures var r := EncodeField(mode, "assignedTo", Arr(items));
      && (r.Failure? <==> |items| > 0 && forall k :: 0 <= k < |items| ==> !IsKeptAssignee(mode, items[k]))
      && (r.Failure? ==> r.error == InvalidAssignees)
      && (r.Success? ==> r.value == [("assignedTo", Json(Arr(KeptAssignees(mode, items))))])
      && (items == [] ==> r == Success([("assignedTo", Json(Arr([])))]))
  {
  }

  /** The subtask rule: the normalised list is no longer than the input, keeps
      the input order, holds only trimmed non-empty titles, and drops exactly
      the entries whose trimmed title is empty, keeping every other entry as
      often as it occurs; it fails only when an entry
      is null or undefined or has a title that is not a string. */
  lemma {:induction false} NormalizeSubtasksSpec(subs: seq<Value>)
    ensures NormalizeSubtasks(subs).Failure? <==> exists k :: 0 <= k < |subs| && NormalizeSubtask(subs[k]).Failure?
    ensures NormalizeSubtasks(subs).Success? ==>
      var r := NormalizeSubtasks(subs).value;
      && |r| <= |subs|
      && IsSubsequence(r, NormalizeAll(subs).value)
      && (forall k :: 0 <= k < |r| ==> r[k].title != "" && IsTrimmed(r[k].title))
    ensures NormalizeSubtasks(subs).Success? ==>
      forall k :: 0 <= k < |subs| && NormalizeSubtask(subs[k]).value.title != "" ==>
        NormalizeSubtask(subs[k]).value in NormalizeSubtasks(subs).value
    ensures NormalizeSubtasks(subs).Success? ==>
      forall s ::
        multiset(NormalizeSubtasks(subs).value)[s] == if s.title != "" then multiset(NormalizeAll(subs).value)[s] else 0
  {
    if NormalizeAll(subs).Success? {
      NormalizedTrimmed(subs);
      KeptTitles(NormalizeAll(subs).value);
      TitledKept(subs);
      FilterMultiset(HasTitle, NormalizeAll(subs).value);
    }
  }

  /** Every normalised title is trimmed. */
  lemma {:induction false} NormalizedTrimmed(subs: seq<Value>)
    requires NormalizeAll(subs).Success?
    ensures forall j :: 0 <= j < |NormalizeAll(subs).value| ==> IsTrimmed(NormalizeAll(subs).value[j].title)
  {
    var all := NormalizeAll(subs).value;
    forall j | 0 <= j < |all| ensures IsTrimmed(all[j].title) {
      assert NormalizeSubtask(subs[j]) == Success(all[j]);
    }
  }

  /** Dropping the empty titles from trimmed subtasks keeps order and leaves
      only trimmed, non-empty titles. */
  lemma {:induction false} KeptTitles(all: seq<Subtask>)
    requires forall j :: 0 <= j < |all| ==> IsTrimmed(all[j].title)
    ensures IsSubsequence(Filter(HasTitle, all), all)
    ensures forall k :: 0 <= k < |Filter(HasTitle, all)| ==>
      Filter(HasTitle, all)[k].title != "" && IsTrimmed(Filter(HasTitle, all)[k].title)
  {
    var r := Filter(HasTitle, all);
    FilterIsSubsequence(HasTitle, all);
    FilterMembers(HasTitle, all);
    forall k | 0 <= k < |r| ensures IsTrimmed(r[k].title) {
      var j :| 0 <= j < |all| && all[j] == r[k];
    }
  }

  /** Every entry normalising to a non-empty title is sent. */
  lemma {:induction false} TitledKept(subs: seq<Value>)
    requires NormalizeAll(subs).Success?
    ensures forall k :: 0 <= k < |subs| && NormalizeSubtask(subs[k]).value.title != "" ==>
      NormalizeSubtask(subs[k]).value in Filter(HasTitle, NormalizeAll(subs).value)
  {
    var all := NormalizeAll(subs).value;
    FilterMembers(HasTitle, all);
    forall k | 0 <= k < |subs| && NormalizeSubtask(subs[k]).value.title != ""
      ensures NormalizeSubtask(subs[k]).value in Filter(HasTitle, all)
    {
      assert all[k] == NormalizeSubtask(subs[k]).value;
      assert HasTitle(all[k]);
    }
  }

  lemma {:induction false} LookupSubtaskValue(s: Subtask)
    ensures Get(SubtaskValue(s), "title") == Str(s.title)
    ensures Get(SubtaskValue(s), "completed") == Bool(s.completed)
  {
    var fields := SubtaskValue(s).fields;
    assert "title" != "completed" by { assert |"title"| != |"completed"|; }
    assert fields[0].0 == "title" && fields[1..] == [("completed", Bool(s.completed))];
    assert Lookup(fields, "completed") == Lookup(fields[1..], "completed");
    assert Lookup(fields[1..], "completed") == Bool(s.completed);
  }

  /** Normalising an already normalised list changes nothing. */
  lemma {:induction false} NormalizeIdempotent(subs: seq<Subtask>)
    requires forall k :: 0 <= k < |subs| ==> subs[k].title != "" && IsTrimmed(subs[k].title)
    ensures NormalizeSubtasks(Map(SubtaskValue, subs)) == Success(subs)
  {
    var vs := Map(SubtaskValue, subs);
    forall k | 0 <= k < |subs| ensures NormalizeSubtask(vs[k]) == Success(subs[k]) {
      LookupSubtaskValue(subs[k]);
      TrimmedIsFixed(subs[k].title);
    }
    NormalizeAllOf(vs, subs);
    FilterAll(HasTitle, subs);
  }

  lemma {:induction false} NormalizeAllOf(vs: seq<Value>, subs: seq<Subtask>)
    requires |vs| == |subs|
    requires forall k :: 0 <= k < |vs| ==> NormalizeSubtask(vs[k]) == Success(subs[k])
    ensures NormalizeAll(vs) == Success(subs)
  {
    if |vs| > 0 {
      NormalizeAllOf(vs[1..], subs[1..]);
      assert NormalizeSubtask(vs[0]) == Success(subs[0]);
      assert subs == [subs[0]] + subs[1..];
    }
  }

  /** Every output of the normaliser is a fixed point of it. */
  lemma {:induction false} NormalizeTwice(subs: seq<Value>)
    requires NormalizeSubtasks(subs).Success?
    ensures NormalizeSubtasks(Map(SubtaskValue, NormalizeSubtasks(subs).value)) == NormalizeSubtasks(subs)
  {
    NormalizeSubtasksSpec(subs);
    NormalizeIdempotent(NormalizeSubtasks(subs).value);
  }

  /** Undefined fields are skipped; attachment files are appended one entry
      each, in order, under "attachment"; every other entry carries its key. */
  lemma {:induction false} FieldEntries(mode: Mode, key: string, v: Value)
    ensures v == Undefined ==> EncodeField(mode, key, v) == Success([])
    ensures key == "attachment" && v.Arr? ==>
      var r := EncodeField(mode, key, v);
      && r.Success? && |r.value| == |v.items|
      && forall k :: 0 <= k < |v.items| ==> r.value[k] == FieldEntry("attachment", v.items[k])
    ensures key == "attachment" && v.Arr? ==>
      forall k :: 0 <= k < |v.items| && v.items[k].File? ==>
        EncodeField(mode, key, v).value[k] == ("attachment", Blob(v.items[k].file))
    ensures key == "attachment" && !Truthy(v) ==> EncodeField(mode, key, v) == Success([])
    ensures EncodeField(mode, key, v).Success? ==>
      forall k :: 0 <= k < |EncodeField(mode, key, v).value| ==> EncodeField(mode, key, v).value[k].0 == key
  {
  }

  /** A normalisable subtask list is sent as one JSON entry of the normalised list. */
  lemma {:induction false} SubtaskField(mode: Mode, items: seq<Value>, subs: seq<Subtask>)
    requires NormalizeSubtasks(items) == Success(subs)
    ensures EncodeField(mode, "subtask", Arr(items)) == Success([("subtask", Json(Arr(Map(SubtaskValue, subs))))])
  {
    assert "subtask" != "assignedTo" by { assert |"subtask"| != |"assignedTo"|; }
  }

  /** A list whose every entry passes the filter is sent whole. */
  lemma {:induction false} AllAssigneesKept(mode: Mode, items: seq<Value>)
    requires forall k :: 0 <= k < |items| ==> IsKeptAssignee(mode, items[k])
    ensures EncodeField(mode, "assignedTo", Arr(items)) == Success([("assignedTo", Json(Arr(items)))])
  {
    FilterAll(v => IsKeptAssignee(mode, v), items);
  }

  /** A one-field object encodes as that field. */
  lemma {:induction false} SingleField(mode: Mode, key: string, v: Value)
    ensures EncodeFields(mode, [(key, v)]) == EncodeField(mode, key, v)
  {
    var fields := [(key, v)];
    assert fields[..0] == [];
    if EncodeField(mode, key, v).Success? {
      assert [] + EncodeField(mode, key, v).value == EncodeField(mode, key, v).value;
    }
  }

  /** An attachment field holding an array or nothing always encodes. */
  lemma {:induction false} AttachmentFieldEncodes(mode: Mode, v: Value)
    requires v.Arr? || v == Undefined
    ensures EncodeField(mode, "attachment", v).Success?
  {
    assert "attachment" != "assignedTo" && "attachment" != "subtask" by {
      assert "attachment"[1] != "assignedTo"[1] && |"attachment"| != |"subtask"|;
    }
  }

  /** The loop over the fields as the loop over all but the last, then the last. */
  lemma {:induction false} EncodeFieldsSnoc(mode: Mode, fields: seq<(string, Value)>)
    requires |fields| > 0
    ensures var init, last := fields[..|fields| - 1], fields[|fields| - 1];
      && (EncodeFields(mode, fields).Success? <==>
          EncodeFields(mode, init).Success? && EncodeField(mode, last.0, last.1).Success?)
      && (EncodeFields(mode, fields).Success? ==>
          EncodeFields(mode, fields).value == EncodeFields(mode, init).value + EncodeField(mode, last.0, last.1).value)
  {
  }

  /** The loop succeeds exactly when every field encodes. */
  lemma {:induction false} EncodeFieldsSucceeds(mode: Mode, fields: seq<(string, Value)>)
    ensures EncodeFields(mode, fields).Success? <==>
      forall k :: 0 <= k < |fields| ==> EncodeField(mode, fields[k].0, fields[k].1).Success?
  {
    if EncodeFields(mode, fields).Success? {
      SucceededFieldsEncode(mode, fields);
    } else if forall k :: 0 <= k < |fields| ==> EncodeField(mode, fields[k].0, fields[k].1).Success? {
      EncodingFieldsSucceed(mode, fields);
    }
  }

  /** Every field of a loop that succeeded encodes. */
  lemma {:induction false} SucceededFieldsEncode(mode: Mode, fields: seq<(string, Value)>)
    requires EncodeFields(mode, fields).Success?
    ensures forall k :: 0 <= k < |fields| ==> EncodeField(mode, fields[k].0, fields[k].1).Success?
  {
    if |fields| > 0 {
      var init := fields[..|fields| - 1];
      EncodeFieldsSnoc(mode, fields);
      SucceededFieldsEncode(mode, init);
      AllOfSnoc((f: (string, Value)) => EncodeField(mode, f.0, f.1).Success?, fields, init);
    }
  }

  /** A loop whose every field encodes succeeds. */
  lemma {:induction false} EncodingFieldsSucceed(mode: Mode, fields: seq<(string, Value)>)
    requires forall k :: 0 <= k < |fields| ==> EncodeField(mode, fields[k].0, fields[k].1).Success?
    ensures EncodeFields(mode, fields).Success?
  {
    if |fields| > 0 {
      var init := fields[..|fields| - 1];
      AllOfSnoc((f: (string, Value)) => EncodeField(mode, f.0, f.1).Success?, fields, init);
      EncodingFieldsSucceed(mode, init);
      EncodeFieldsSnoc(mode, fields);
    }
  }

  /** The keys of the fields whose value is not undefined. */
  function DefinedKeys(fields: seq<(string, Value)>): set<string> {
    if |fields| == 0 then {}
    else
      var last := fields[|fields| - 1];
      DefinedKeys(fields[..|fields| - 1]) + (if last.1 != Undefined then {last.0} else {})
  }

  /** A key is defined exactly when some field with that key holds a value. */
  lemma {:induction false} DefinedKeysSpec(fields: seq<(string, Value)>, key: string)
    ensures key in DefinedKeys(fields) <==>
      exists k :: 0 <= k < |fields| && fields[k].0 == key && fields[k].1 != Undefined
  {
    if |fields| > 0 {
      var n := |fields| - 1;
      var init := fields[..n];
      DefinedKeysSpec(init, key);
      if key in DefinedKeys(init) {
        var k :| 0 <= k < |init| && init[k].0 == key && init[k].1 != Undefined;
        assert fields[k] == init[k];
      }
      if exists k :: 0 <= k < |fields| && fields[k].0 == key && fields[k].1 != Undefined {
        var k :| 0 <= k < |fields| && fields[k].0 == key && fields[k].1 != Undefined;
        if k < n {
          assert init[k] == fields[k];
        }
      }
    }
  }

  /** Every entry the loop builds is keyed by a field that holds a value. */
  lemma {:induction false} EncodeFieldsKeys(mode: Mode, fields: seq<(string, Value)>)
    ensures EncodeFields(mode, fields).Success? ==>
      forall j :: 0 <= j < |EncodeFields(mode, fields).value| ==>
        EncodeFields(mode, fields).value[j].0 in DefinedKeys(fields)
  {
    if |fields| > 0 && EncodeFields(mode, fields).Success? {
      var n := |fields| - 1;
      var init, last := fields[..n], fields[n];
      EncodeFieldsKeys(mode, init);
      EncodeFieldsSnoc(mode, fields);
      FieldKeys(mode, last.0, last.1);
      var before: seq<(string, Entry)> := EncodeFields(mode, init).value;
      var es: seq<(string, Entry)> := EncodeField(mode, last.0, last.1).value;
      forall j | 0 <= j < |before + es| ensures (before + es)[j].0 in DefinedKeys(fields) {
        if j < |before| {
          assert (before + es)[j] == before[j];
        } else {
          assert (before + es)[j] == es[j - |before|];
        }
      }
    }
  }

  /** Each entry of one encoded field carries that field's key, and a field
      that gives entries is not undefined. */
  lemma {:induction false} FieldKeys(mode: Mode, key: string, v: Value)
    requires EncodeField(mode, key, v).Success?
    ensures forall i :: 0 <= i < |EncodeField(mode, key, v).value| ==> EncodeField(mode, key, v).value[i].0 == key
    ensures |EncodeField(mode, key, v).value| > 0 ==> v != Undefined
  {
    FieldEntries(mode, key, v);
  }

  /** An error thrown while building the form data never reaches the caller
      as such: it has no HTTP response, so the generic message replaces it. */
  lemma {:induction false} LocalErrorIsGeneric(mode: Mode, taskData: seq<(string, Value)>, reply: Reply)
    ensures EncodeFields(mode, taskData).Failure? ==> Outcome(mode, taskData, reply) == Failure(GenericError(mode))
    ensures Outcome(mode, taskData, reply).Failure? ==> Outcome(mode, taskData, reply).error != ""
    ensures Outcome(mode, taskData, reply).Success? <==> EncodeFields(mode, taskData).Success? && reply.Ok?
  {
  }
}
