/** The calendar page: fetched tasks become calendar events with cleaned
    titles and filled-in defaults, events are coloured by a normalised status
    key, and clicking an event opens the task window. */
module CalendarPage {
  import opened Wrappers
  import opened JsString
  import opened Seqs
  import opened TaskRecords
  import opened Avatars
  import Dashboard

  // -------------------------------------------------------- title cleaning

  /** The length of the run of decimal digits `s` starts with. */
  function LeadingDigits(s: string): (n: nat)
    ensures n <= |s|
    ensures forall i :: 0 <= i < n ==> IsDigit(s[i])
    ensures n < |s| ==> !IsDigit(s[n])
    ensures |s| > 0 && IsDigit(s[0]) ==> n >= 1
  {
    if |s| > 0 && IsDigit(s[0]) then 1 + LeadingDigits(s[1..]) else 0
  }

  /** `p` is matched in full by `\d+[a-zA-Z]?\s*`, with the digits ending at
      `i` and the optional letter at `j`. */
  predicate MatchesWith(p: string, i: nat, j: nat) {
    1 <= i <= j <= |p| && j <= i + 1 &&
    (forall k :: 0 <= k < i ==> IsDigit(p[k])) &&
    (forall k :: i <= k < j ==> IsAsciiLetter(p[k])) &&
    (forall k :: j <= k < |p| ==> IsWhitespace(p[k]))
  }

  ghost predicate MatchesTitlePrefix(p: string) {
    exists i: nat, j: nat :: MatchesWith(p, i, j)
  }

  /** `title.replace(/^\d+[a-zA-Z]?\s*\/, "")`: the greedy match, which is the
      longest one since everything after the digits is optional. */
  function CleanTitle(title: string): (r: string)
    ensures |r| <= |title| && r == title[|title| - |r|..]
    ensures |title| == 0 || !IsDigit(title[0]) ==> r == title
  {
    if |title| == 0 || !IsDigit(title[0]) then title
    else TrimStart(title[DigitsAndLetter(title)..])
  }

  /** Where `\d+[a-zA-Z]?` stops: after the digit run and one letter, if any. */
  function DigitsAndLetter(title: string): (j: nat)
    ensures LeadingDigits(title) <= j <= |title| && j <= LeadingDigits(title) + 1
    ensures j == LeadingDigits(title) + 1 ==> IsAsciiLetter(title[LeadingDigits(title)])
  {
    var d := LeadingDigits(title);
    if d < |title| && IsAsciiLetter(title[d]) then d + 1 else d
  }

  /** The cut `CleanTitle` makes in a title that starts with a digit: the
      pattern matches the text it cuts off, and the character after the cut
      is not white space. */
  lemma {:induction false} CutFacts(title: string)
    requires |title| > 0 && IsDigit(title[0])
    ensures DigitsAndLetter(title) <= |title| - |CleanTitle(title)|
    ensures forall m :: DigitsAndLetter(title) <= m < |title| - |CleanTitle(title)| ==> IsWhitespace(title[m])
    ensures |CleanTitle(title)| > 0 ==> !IsWhitespace(title[|title| - |CleanTitle(title)|])
    ensures MatchesWith(title[..|title| - |CleanTitle(title)|], LeadingDigits(title), DigitsAndLetter(title))
  {
    var j0 := DigitsAndLetter(title);
    var c := |title| - |CleanTitle(title)|;
    assert CleanTitle(title) == TrimStart(title[j0..]);
    TrimStartOfSuffix(title, j0, c);
    PrefixMatches(title, c);
  }

  /** Trimming the suffix `s[a..]` leaves the last c characters of s: what is
      cut is white space and what follows the cut is not. */
  lemma {:induction false} TrimStartOfSuffix(s: string, a: nat, c: nat)
    requires a <= |s| && c == |s| - |TrimStart(s[a..])|
    ensures a <= c
    ensures forall m :: a <= m < c ==> IsWhitespace(s[m])
    ensures c < |s| ==> !IsWhitespace(s[c])
  {
    var rest := s[a..];
    var r := TrimStart(rest);
    forall m | a <= m < c ensures IsWhitespace(s[m]) {
      assert s[m] == rest[m - a];
    }
    if |r| > 0 {
      assert s[c] == rest[c - a] == r[0];
    }
  }

  /** A prefix made of the leading digits, the optional letter after them and
      then white space matches with those bounds. */
  lemma {:induction false} PrefixMatches(title: string, c: nat)
    requires |title| > 0 && IsDigit(title[0])
    requires DigitsAndLetter(title) <= c <= |title|
    requires forall m :: DigitsAndLetter(title) <= m < c ==> IsWhitespace(title[m])
    ensures MatchesWith(title[..c], LeadingDigits(title), DigitsAndLetter(title))
  {
    var p := title[..c];
    assert forall m :: 0 <= m < c ==> p[m] == title[m];
  }

  /** A title that starts with a digit loses exactly the longest prefix the
      pattern matches; any other title has no matching prefix at all. */
  lemma {:induction false} CleanTitleRemovesLongestMatch(title: string)
    ensures |title| > 0 && IsDigit(title[0]) ==>
      MatchesTitlePrefix(title[..|title| - |CleanTitle(title)|])
    ensures forall k :: |title| - |CleanTitle(title)| < k <= |title| ==> !MatchesTitlePrefix(title[..k])
    ensures |title| == 0 || !IsDigit(title[0]) ==> forall k :: 0 <= k <= |title| ==> !MatchesTitlePrefix(title[..k])
  {
    if |title| > 0 && IsDigit(title[0]) {
      var d := LeadingDigits(title);
      var j0 := DigitsAndLetter(title);
      var c := |title| - |CleanTitle(title)|;
      CutFacts(title);
      forall k | c < k <= |title|
        ensures !MatchesTitlePrefix(title[..k])
      {
        NoLongerMatch(title, d, j0, c, k);
      }
    } else {
      forall k | 0 <= k <= |title|
        ensures !MatchesTitlePrefix(title[..k])
      {
        forall i: nat, j: nat
          ensures !MatchesWith(title[..k], i, j)
        {
          if 1 <= i <= k {
            assert title[..k][0] == title[0];
          }
        }
      }
    }
  }

  /** A prefix longer than the cut cannot match: its digit run, letter and
      whitespace would have to end where the cut's do. */
  lemma {:induction false} NoLongerMatch(title: string, d: nat, j0: nat, c: nat, k: nat)
    requires d == LeadingDigits(title) && 1 <= d
    requires j0 == DigitsAndLetter(title)
    requires j0 <= c < k <= |title|
    requires forall m :: j0 <= m < c ==> IsWhitespace(title[m])
    requires c < |title| ==> !IsWhitespace(title[c])
    ensures !MatchesTitlePrefix(title[..k])
  {
    var p := title[..k];
    forall i: nat, j: nat
      ensures !MatchesWith(p, i, j)
    {
      if 1 <= i <= j <= k && j <= i + 1 {
        if i > d {
          assert p[d] == title[d] && !IsDigit(p[d]);
        } else if i < d {
          assert IsDigit(p[i]);
        } else if j != j0 {
          assert p[d] == title[d];
        } else {
          assert p[c] == title[c] && !IsWhitespace(p[c]);
        }
      }
    }
  }

  // --------------------------------------------------------------- events

  datatype Attachment = Attachment(originalName: Option<string>)

  /** The fields of a fetched task the calendar reads; None for a missing field. */
  datatype CalendarTask = CalendarTask(
    id: string,
    title: string,
    status: Option<string>,
    priority: Option<string>,
    description: Option<string>,
    startDate: Option<string>,
    dueDate: Option<string>,
    owner: Option<User>,
    assignedTo: Option<seq<User>>,
    tags: Option<seq<string>>,
    subtask: Option<seq<Subtask>>,
    attachment: Option<seq<Attachment>>,
    createdAt: Option<string>)

  datatype EventProps = EventProps(
    originalTitle: string,
    status: string,
    priority: string,
    description: string,
    startDate: string,
    dueDate: string,
    owner: User,
    assignedTo: seq<User>,
    tags: seq<string>,
    subtask: seq<Subtask>,
    attachment: seq<Attachment>,
    createdAt: Option<string>)

  /** A calendar event; `start` is None for the `null` start date. */
  datatype Event = Event(id: string, title: string, start: Option<string>, props: EventProps)

  const NotSpecified := "Not specified"
  const UnknownOwner := User("Unknown", None)

  function OrEmpty<T>(list: Option<seq<T>>): seq<T> {
    if list.Some? then list.value else []
  }

  /** The `tasks.map` callback: the event for one task. Dates are kept as the
      server's text (their locale formatting is not modelled). */
  function ToEvent(task: CalendarTask): Event {
    var start := if task.startDate.Some? && task.startDate.value != "" then task.startDate else None;
    var due := if task.dueDate.Some? && task.dueDate.value != "" then task.dueDate else None;
    Event(task.id, CleanTitle(task.title), start,
      EventProps(
        task.title,
        OrElse(task.status, NotSpecified),
        OrElse(task.priority, NotSpecified),
        OrElse(task.description, "No description"),
        if start.Some? then start.value else NotSpecified,
        if due.Some? then due.value else NotSpecified,
        if task.owner.Some? then task.owner.value else UnknownOwner,
        OrEmpty(task.assignedTo),
        OrEmpty(task.tags),
        OrEmpty(task.subtask),
        OrEmpty(task.attachment),
        task.createdAt))
  }

  /** What an event carries: the cleaned title next to the original one,
      never an empty status, priority or description, the owner or "Unknown",
      and empty lists for missing ones. */
  lemma {:induction false} EventDefaults(task: CalendarTask)
    ensures ToEvent(task).title == CleanTitle(task.title) && ToEvent(task).props.originalTitle == task.title
    ensures ToEvent(task).props.status != "" && ToEvent(task).props.priority != "" && ToEvent(task).props.description != ""
    ensures task.status.Some? && task.status.value != "" ==> ToEvent(task).props.status == task.status.value
    ensures task.status.None? || task.status.value == "" ==> ToEvent(task).props.status == NotSpecified
    ensures task.priority.None? || task.priority.value == "" ==> ToEvent(task).props.priority == NotSpecified
    ensures task.description.None? || task.description.value == "" ==> ToEvent(task).props.description == "No description"
    ensures task.owner.None? ==> ToEvent(task).props.owner == UnknownOwner
    ensures task.assignedTo.None? ==> ToEvent(task).props.assignedTo == []
    ensures task.subtask.None? ==> ToEvent(task).props.subtask == []
    ensures task.attachment.None? ==> ToEvent(task).props.attachment == []
    ensures ToEvent(task).start.Some? <==> task.startDate.Some? && task.startDate.value != ""
  {
  }

  predicate HasStart(e: Event) { e.start.Some? }

  predicate HasStartDate(t: CalendarTask) { t.startDate.Some? && t.startDate.value != "" }

  /** `tasks.map(...).filter((event) => event.start)` */
  function Events(tasks: seq<CalendarTask>): seq<Event> {
    Filter(HasStart, Map(ToEvent, tasks))
  }

  /** The events are exactly the events of the tasks with a start date, in
      task order. */
  lemma {:induction false} EventsOfDatedTasks(tasks: seq<CalendarTask>)
    ensures Events(tasks) == Map(ToEvent, Filter(HasStartDate, tasks))
  {
    if |tasks| > 0 {
      EventsOfDatedTasks(tasks[1..]);
      assert Map(ToEvent, tasks)[1..] == Map(ToEvent, tasks[1..]);
      if HasStartDate(tasks[0]) {
        assert Filter(HasStartDate, tasks) == [tasks[0]] + Filter(HasStartDate, tasks[1..]);
        assert Map(ToEvent, [tasks[0]] + Filter(HasStartDate, tasks[1..]))[1..] ==
          Map(ToEvent, Filter(HasStartDate, tasks[1..]));
      }
    }
  }

  // ------------------------------------------------------------ file type

  /** `filename.split(".").pop().toLowerCase()` */
  function Extension(filename: string): string {
    ToLower(Last(Split(filename, '.')))
  }

  /** The last piece of a name with a '.' is the text after its last '.'. */
  lemma {:induction false} LastPieceAfterDot(filename: string)
    requires '.' in filename
    ensures |Last(Split(filename, '.'))| < |filename|
    ensures Last(Split(filename, '.')) == filename[|filename| - |Last(Split(filename, '.'))|..]
    ensures filename[|filename| - |Last(Split(filename, '.'))| - 1] == '.'
    ensures '.' !in Last(Split(filename, '.'))
  {
    SplitLastIsSuffix(filename, '.');
    var parts := Split(filename, '.');
    assert '.' !in parts[|parts| - 1];
  }

  /** The extension is the lower-cased text after the last '.', or the whole
      lower-cased name when there is none. */
  lemma {:induction false} ExtensionSpec(filename: string)
    ensures '.' !in filename ==> Extension(filename) == ToLower(filename)
    ensures '.' in filename ==>
      exists i :: 0 <= i < |filename| && filename[i] == '.' &&
        '.' !in filename[i + 1..] && Extension(filename) == ToLower(filename[i + 1..])
  {
    var parts := Split(filename, '.');
    if '.' !in filename {
      NoSeparatorSplit(filename, '.');
    } else {
      LastPieceAfterDot(filename);
      var last := Last(parts);
      var i := |filename| - |last| - 1;
      assert filename[i + 1..] == last;
    }
  }

  /** `getFileType(filename)` */
  function FileTypeOf(filename: Option<string>): (r: string)
    ensures r == "Unknown" <==> filename.None? || filename.value == ""
  {
    if filename.None? || filename.value == "" then "Unknown"
    else
      var extension := Extension(filename.value);
      if extension in ["jpg", "jpeg", "png", "gif"] then "Image"
      else if extension == "pdf" then "PDF"
      else "File"
  }

  /** A name `stem.ext` whose extension has no '.' is labelled by that
      extension in any letter case: "jpg", "jpeg", "png" and "gif" are an
      "Image", "pdf" a "PDF", and any other extension a "File". */
  lemma {:induction false} FileTypeOfNamed(stem: string, ext: string)
    requires '.' !in ext
    ensures Extension(stem + "." + ext) == ToLower(ext)
    ensures ToLower(ext) in ["jpg", "jpeg", "png", "gif"] ==> FileTypeOf(Some(stem + "." + ext)) == "Image"
    ensures ToLower(ext) == "pdf" ==> FileTypeOf(Some(stem + "." + ext)) == "PDF"
    ensures ToLower(ext) !in ["jpg", "jpeg", "png", "gif", "pdf"] ==> FileTypeOf(Some(stem + "." + ext)) == "File"
  {
    SplitAfterLast(stem, ext, '.');
  }

  /** A non-empty name without a '.' is its own extension, so a bare "pdf" or
      "PNG" still gets the matching label. */
  lemma {:induction false} FileTypeWithoutDot(name: string)
    requires name != "" && '.' !in name
    ensures Extension(name) == ToLower(name)
    ensures ToLower(name) in ["jpg", "jpeg", "png", "gif"] ==> FileTypeOf(Some(name)) == "Image"
    ensures ToLower(name) == "pdf" ==> FileTypeOf(Some(name)) == "PDF"
    ensures ToLower(name) !in ["jpg", "jpeg", "png", "gif", "pdf"] ==> FileTypeOf(Some(name)) == "File"
  {
    NoSeparatorSplit(name, '.');
  }

  /** A calendar "PDF" is a dashboard "PDF". */
  lemma {:induction false} PdfExtensionEndsWithPdf(filename: string)
    requires '.' in filename && Extension(filename) == "pdf"
    ensures EndsWith(ToLower(filename), ".pdf")
  {
    var n := |filename|;
    LastPieceAfterDot(filename);
    var last := Last(Split(filename, '.'));
    var lower := ToLower(filename);
    assert |last| == 3;
    LowerOfSuffix(filename, n - 3);
    assert lower[n - 3..] == "pdf";
    assert lower[n - 4] == '.';
    assert lower[n - 4..] == [lower[n - 4]] + lower[n - 3..];
  }

  /** A dashboard "PDF" with a '.' in its name is a calendar "PDF". */
  lemma {:induction false} EndsWithPdfHasPdfExtension(filename: string)
    requires '.' in filename && EndsWith(ToLower(filename), ".pdf")
    ensures Extension(filename) == "pdf"
  {
    var n := |filename|;
    var lower := ToLower(filename);
    assert lower[n - 4..] == ".pdf";
    assert lower[n - 3..] == "pdf" by {
      assert lower[n - 3..] == lower[n - 4..][1..];
    }
    assert lower[n - 4] == '.' && lower[n - 3] == 'p' && lower[n - 2] == 'd' && lower[n - 1] == 'f';
    LastPieceIsLastThree(filename);
    LowerOfSuffix(filename, n - 3);
    assert Extension(filename) == ToLower(filename[n - 3..]);
  }

  /** A name whose fourth character from the end is its last '.' ends in a
      three-character piece. */
  lemma {:induction false} LastPieceIsLastThree(filename: string)
    requires |filename| >= 4 && filename[|filename| - 4] == '.'
    requires filename[|filename| - 3] != '.' && filename[|filename| - 2] != '.' && filename[|filename| - 1] != '.'
    ensures Last(Split(filename, '.')) == filename[|filename| - 3..]
  {
    var n := |filename|;
    assert '.' in filename by {
      assert filename[n - 4] == '.';
    }
    LastPieceAfterDot(filename);
    var last := Last(Split(filename, '.'));
    assert forall i :: n - |last| <= i < n ==> filename[i] == last[i - (n - |last|)];
    assert |last| == 3;
  }

  /** For a name with a '.', the calendar labels a file "PDF" exactly when
      the dashboard's suffix rule does. */
  lemma {:induction false} PdfAgreesWithDashboard(filename: string)
    requires '.' in filename
    ensures FileTypeOf(Some(filename)) == "PDF" <==> Dashboard.FileTypeOf(filename) == "PDF"
  {
    if Extension(filename) == "pdf" {
      PdfExtensionEndsWithPdf(filename);
    }
    if EndsWith(ToLower(filename), ".pdf") {
      EndsWithPdfHasPdfExtension(filename);
    }
  }

  // ------------------------------------------------------- status colours

  predicate IsNotWhitespace(c: char) { !IsWhitespace(c) }

  /** `status.toLowerCase().replace(/\s+/g, "")` */
  function StatusKey(status: string): (r: string)
    ensures forall i :: 0 <= i < |r| ==> !IsWhitespace(r[i]) && !IsUpper(r[i])
  {
    var lower := ToLower(status);
    assert forall i :: 0 <= i < |lower| ==> !IsUpper(lower[i]);
    FilterMembers(IsNotWhitespace, lower);
    Filter(IsNotWhitespace, lower)
  }

  /** A key is its own key. */
  lemma {:induction false} StatusKeyIdempotent(status: string)
    ensures StatusKey(StatusKey(status)) == StatusKey(status)
  {
    var key := StatusKey(status);
    LowerIsFixed(key);
    FilterAll(IsNotWhitespace, key);
  }

  lemma {:induction false} LowerIsFixed(s: string)
    requires forall i :: 0 <= i < |s| ==> !IsUpper(s[i])
    ensures ToLower(s) == s
  {
  }

  /** The server's `inProgress` maps to the colour tables' key. */
  lemma {:induction false} StatusKeyOfServerStatus(status: string)
    requires status == "inProgress"
    ensures StatusKey(status) == "inprogress"
  {
    LettersKey(status);
    InProgressLower(status);
  }

  /** A status made of ASCII letters only keys to its lower-case form. */
  lemma {:induction false} LettersKey(status: string)
    requires forall i :: 0 <= i < |status| ==> IsAsciiLetter(status[i])
    ensures StatusKey(status) == ToLower(status)
  {
    var lower := ToLower(status);
    forall i | 0 <= i < |lower|
      ensures IsNotWhitespace(lower[i])
    {
      assert lower[i] == LowerChar(status[i]);
    }
    FilterAll(IsNotWhitespace, lower);
  }

  lemma {:induction false} InProgressLower(s: string)
    requires s == "inProgress"
    ensures ToLower(s) == "inprogress"
  {
    var l := ToLower(s);
    assert l[0] == 'i' && l[1] == 'n' && l[2] == 'p' && l[3] == 'r' && l[4] == 'o';
    assert l[5] == 'g' && l[6] == 'r' && l[7] == 'e' && l[8] == 's' && l[9] == 's';
    assert |l| == 10;
  }

  predicate IsKnownKey(key: string) { key == "pending" || key == "inprogress" || key == "completed" }

  const DefaultBackground := "#D1D5DB"
  const DefaultText := "#374151"

  /** `statusBackgroundColors[key] || "#D1D5DB"` */
  function StatusBackground(status: string): string {
    var key := StatusKey(status);
    if key == "pending" then "#FDE68A"
    else if key == "inprogress" then "#BFDBFE"
    else if key == "completed" then "#34D399"
    else DefaultBackground
  }

  /** `statusTextColors[key] || "#374151"` */
  function StatusText(status: string): string {
    var key := StatusKey(status);
    if key == "pending" then "#975A16"
    else if key == "inprogress" then "#1E40AF"
    else if key == "completed" then "#065F46"
    else DefaultText
  }

  const DefaultBadge := "bg-gray-100 text-gray-800"

  /** The window's status badge: `statusColors[key] || "bg-gray-100 text-gray-800"`. */
  function StatusBadge(status: string): string {
    var key := StatusKey(status);
    if key == "pending" then "bg-yellow-100 text-yellow-800"
    else if key == "inprogress" then "bg-blue-100 text-blue-800"
    else if key == "completed" then "bg-green-100 text-green-800"
    else DefaultBadge
  }

  /** Every colour falls back to its default exactly for an unknown key, and
      statuses with the same key get the same colours. */
  lemma {:induction false} StatusColours(status: string, other: string)
    ensures StatusBackground(status) == DefaultBackground <==> !IsKnownKey(StatusKey(status))
    ensures StatusText(status) == DefaultText <==> !IsKnownKey(StatusKey(status))
    ensures StatusBadge(status) == DefaultBadge <==> !IsKnownKey(StatusKey(status))
    ensures StatusKey(status) == StatusKey(other) ==>
      && StatusBackground(status) == StatusBackground(other)
      && StatusText(status) == StatusText(other)
      && StatusBadge(status) == StatusBadge(other)
  {
  }

  const DefaultPriorityBadge := "bg-gray-100 text-gray-800 border-gray-200"

  /** The window's priority badge: `priorityColors[priority.toLowerCase()] || …`,
      lower-cased but with white space kept. */
  function PriorityBadge(priority: string): string {
    var key := ToLower(priority);
    if key == "low" then "bg-gray-100 text-gray-800"
    else if key == "medium" then "bg-orange-200 text-orange-800 border-orange-300"
    else if key == "high" then "bg-red-100 text-red-800"
    else DefaultPriorityBadge
  }

  /** The priority badge ignores letter case and falls back to its default
      exactly for a priority other than low, medium or high. */
  lemma {:induction false} PriorityBadgeSpec(priority: string)
    ensures PriorityBadge(ToLower(priority)) == PriorityBadge(priority)
    ensures PriorityBadge(priority) == DefaultPriorityBadge <==> ToLower(priority) !in ["low", "medium", "high"]
  {
    ToLowerIdempotent(priority);
  }

  datatype StatusIcon = ClockIcon | LoaderIcon | CheckIcon

  /** `getStatusIcon(status)`, which lower-cases but keeps whitespace. */
  function StatusIconOf(status: string): Option<StatusIcon> {
    var normalized := ToLower(status);
    if normalized == "pending" then Some(ClockIcon)
    else if normalized == "inprogress" then Some(LoaderIcon)
    else if normalized == "completed" then Some(CheckIcon)
    else None
  }

  /** For a status without whitespace the icon and the colours agree on
      whether the status is known. */
  lemma {:induction false} IconAgreesWithColour(status: string)
    requires forall i :: 0 <= i < |status| ==> !IsWhitespace(status[i])
    ensures StatusIconOf(status).Some? <==> StatusBackground(status) != DefaultBackground
  {
    var lower := ToLower(status);
    assert forall i :: 0 <= i < |lower| ==> IsNotWhitespace(lower[i]);
    FilterAll(IsNotWhitespace, lower);
  }

  // ------------------------------------------------------------ task window

  /** The `selectedTask` object `handleEventClick` builds. */
  datatype SelectedTask = SelectedTask(
    title: string,
    status: string,
    priority: string,
    startDate: string,
    dueDate: string,
    description: string,
    owner: User,
    assignedTo: seq<User>,
    tags: seq<string>,
    subtask: seq<Subtask>,
    attachment: seq<Attachment>,
    createdAt: Option<string>)

  function SelectedFrom(e: Event): SelectedTask {
    SelectedTask(e.title, e.props.status, e.props.priority, e.props.startDate, e.props.dueDate,
      e.props.description, e.props.owner, e.props.assignedTo, e.props.tags, e.props.subtask,
      e.props.attachment, e.props.createdAt)
  }

  /** The window's avatars: at most four, with a badge for the rest. */
  function WindowAvatars(t: SelectedTask): AvatarRow<User> {
    AvatarRowOf(Some(t.assignedTo), 4)
  }

  /** The window shows the badge exactly when more than four users are
      assigned, and then draws four avatars. */
  lemma {:induction false} WindowAvatarBadge(t: SelectedTask)
    ensures WindowAvatars(t).Row? <==> |t.assignedTo| > 0
    ensures WindowAvatars(t).Row? && WindowAvatars(t).more.Some? <==> |t.assignedTo| > 4
    ensures WindowAvatars(t).Row? && WindowAvatars(t).more.Some? ==>
      |WindowAvatars(t).shown| == 4 && WindowAvatars(t).more.value == |t.assignedTo| - 4
  {
  }

  class Calendar {
    var tasks: seq<CalendarTask>
    var modalOpen: bool
    var selectedTask: Option<SelectedTask>

    /** The window is open exactly when a task is selected. */
    predicate Valid()
      reads this
    {
      modalOpen <==> selectedTask.Some?
    }

    constructor()
      ensures Valid() && tasks == [] && !modalOpen
    {
      tasks := [];
      modalOpen := false;
      selectedTask := None;
    }

    /** `fetchData`, given what `fetchTasks` returned or None when it failed. */
    method FetchData(fetched: Option<seq<CalendarTask>>)
      requires Valid()
      modifies this
      ensures Valid()
      ensures tasks == if fetched.Some? then fetched.value else []
      ensures modalOpen == old(modalOpen) && selectedTask == old(selectedTask)
    {
      tasks := if fetched.Some? then fetched.value else [];
    }

    /** `handleEventClick(info)` for the clicked event. */
    method HandleEventClick(e: Event)
      requires Valid()
      modifies this
      ensures Valid()
      ensures modalOpen && selectedTask == Some(SelectedFrom(e))
      ensures tasks == old(tasks)
    {
      selectedTask := Some(SelectedFrom(e));
      modalOpen := true;
    }

    /** `closeModal` */
    method CloseModal()
      requires Valid()
      modifies this
      ensures Valid()
      ensures !modalOpen && selectedTask == None
      ensures tasks == old(tasks)
    {
      modalOpen := false;
      selectedTask := None;
    }
  }
}
