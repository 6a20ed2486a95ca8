# FocusFlow client logic in Dafny

This project models the client-side logic of FocusFlow, a React task manager. The modelled parts are:

- the password-strength classifier and submit gate of the registration page;
- the e-mail pattern and the `for…in` loop in `createTask` / `updateTask` that builds the multipart payload;
- the create form and the task detail panel, with their submit guards, tag parsing, subtask and attachment edits, the relative-time formatter and the reply drafts;
- the Kanban board's counters, columns, card menu and drag state;
- the dashboard's statistics, notification panel, invitation answers and file labels;
- the settings page's notification tab and profile prefill;
- the calendar's events, title cleaning, status colours, file labels and task window.

Each component whose state React replaces field by field is a `class`. Its handlers are methods whose `ensures` give the whole new state, including "nothing else changes". The computations are functions with lemmas about them.

Server calls are not modelled. What a call returned becomes a parameter:

- `Result`, `Fetched` or `CallResult` for the outcome;
- `confirmed` for a dialog's answer;
- `reply` for an HTTP reply.

An `async` handler that guards an in-flight set is split at its `await` into `Begin…` and `Finish…` methods, so that other events can happen in between.

Modules:

- `Wrappers`: `Option` and `Result`.
- `JsString`: the JavaScript string operations used here. These are the `\s` set, `trim`, `length` in UTF-16 code units, ASCII `toLowerCase`, `split`, `join`, `includes`, `endsWith`, `||` defaults, and `replace` with its `$` patterns.
- `Seqs`: filter, map and count over sequences.
- `TaskRecords`, `ApiTask`, `TaskForm`, `TaskDetail`, `Register`.
- `Avatars` and `TaskList`.
- `Notifications`, which is shared by `Dashboard` and `Settings`.
- `CalendarPage`.

The project's documentation speaks of @mention handling in comments. The code renders comment and reply text verbatim and has no mention parser, so the model follows the code and has none.

## Model

| member | source | states |
|---|---|---|
| Register.PasswordFeedback | src/pages/Register.jsx:28-57 | the strength label and message `handleChange` computes for a password are `Classify` and `FeedbackMessage` of it, with `value.length` counted in UTF-16 code units |
| Register.WeakMessage | src/pages/Register.jsx:47-55 | the `+=` accumulation followed by `slice(0, -2) + ")"` equals "Password strength: Weak (" + the unmet criteria joined by ", " + ")" whenever some criterion is unmet |
| Register.GoodIff | src/pages/Register.jsx:30-41 | "good" holds exactly for passwords of at least 8 characters, all ASCII letters or digits, with a lower-case letter, an upper-case letter and a digit |
| Register.LookAheadOnLettersAndDigits | src/pages/Register.jsx:30 | on letters and digits, each `(?=.*[…])` look-ahead only asks that the class occur |
| Register.StrongIff | src/pages/Register.jsx:42-46 | "strong" holds exactly when all four criteria hold, the length counted in UTF-16 code units, and some character is not an ASCII letter or digit |
| Register.LengthCountsCodeUnits | src/pages/Register.jsx:34 | "Aa1" followed by three characters above U+FFFF has length 9, not 6, and so is "strong" |
| Register.WeakIff | src/pages/Register.jsx:36-56 | "weak" holds exactly for a non-empty password missing a criterion (the length counted in UTF-16 code units), and its message then names at least one criterion |
| Register.WeakMessageNamesUnmet | src/pages/Register.jsx:49-54 | each criterion appears in the weak list exactly when it is unmet; "too short" means fewer than 8 UTF-16 code units |
| Register.GateIsGood | src/pages/Register.jsx:66-74 | the submit regex accepts exactly the "good" passwords, so a "strong" one is refused |
| Register.RegisterPage.constructor | src/pages/Register.jsx:11-20 | the initial form state and banners |
| Register.RegisterPage.HandleChange | src/pages/Register.jsx:24-58 | the field is stored; only a password change refreshes strength and message, which are those of `Classify`, with the length counted in UTF-16 code units |
| Register.RegisterPage.HandleSubmit | src/pages/Register.jsx:60-74 | the request proceeds exactly for a "good" password; otherwise it shows the fixed error and stops loading |
| Register.RegisterPage.FinishRegistration | src/pages/Register.jsx:76-90 | the server message becomes the success banner, or the error banner ("Registration failed" when the message is empty); loading stops |
| ApiTask.IsValidEmailIff | src/utils/apiTask.js:42-45 | the pattern accepts exactly the strings with no white space, exactly one "@" with text before it, and a "." after it that is neither the first nor the last character of the domain |
| ApiTask.ValidEmailIsWellFormed | src/utils/apiTask.js:43 | an address the pattern accepts has the plain-words shape |
| ApiTask.WellFormedIsValidEmail | src/utils/apiTask.js:43 | an address of the plain-words shape is accepted by the pattern |
| ApiTask.KeptAssignees | src/utils/apiTask.js:51-54 | the kept assignees are the order-preserving subsequence of the entries passing the mode's filter; each passing entry is kept as often as it occurs, and nothing else is kept |
| ApiTask.NormalizeSubtask | src/utils/apiTask.js:60-65 | one subtask entry: a trimmed title, `completed` true exactly for a boolean true, an empty title for a null or undefined title, and a `TypeError` for a null or undefined entry or for a title that is neither a string nor null/undefined |
| ApiTask.NormalizeAll | src/utils/apiTask.js:60-65 | the `map` fails exactly when some entry fails, and otherwise maps each entry in place |
| ApiTask.AssignedToRule | src/utils/apiTask.js:51-58 | "Invalid email addresses in assignedTo" is thrown exactly when a non-empty list has no kept entry; otherwise the kept entries are sent as one JSON entry, "[]" for an empty list |
| ApiTask.NormalizeSubtasksSpec | src/utils/apiTask.js:59-67 | the normalised list is no longer than the input, keeps order, holds only trimmed non-empty titles, drops exactly the blank ones, and keeps every other entry as often as it occurs |
| ApiTask.NormalizeIdempotent | src/utils/apiTask.js:60-66 | normalising an already normalised list gives it back |
| ApiTask.NormalizeTwice | src/utils/apiTask.js:106-114 | every output of the normaliser is a fixed point of it |
| ApiTask.FieldEntries | src/utils/apiTask.js:68-71 | undefined fields are skipped; each attachment file is its own "attachment" entry, in order; every entry carries its field's key |
| ApiTask.AppendAttachments | src/utils/apiTask.js:69 | the `forEach` appends one entry per file after the existing entries |
| ApiTask.AppendField | src/utils/apiTask.js:51-72 | one loop iteration appends the field's entries or throws its error |
| ApiTask.BuildFormData | src/utils/apiTask.js:49-73 | the loop's form data is the concatenation of every field's entries in key order, or the first error thrown |
| ApiTask.FailurePersists | src/utils/apiTask.js:50-73 | once a prefix of the fields throws, the whole loop throws that error |
| ApiTask.EncodeFieldsSucceeds | src/utils/apiTask.js:50-73 | the loop over the fields succeeds exactly when every field's iteration succeeds |
| ApiTask.SucceededFieldsEncode | src/utils/apiTask.js:50-73 | when the loop succeeds, no field's iteration threw |
| ApiTask.EncodingFieldsSucceed | src/utils/apiTask.js:50-73 | when no field's iteration throws, the loop succeeds |
| ApiTask.EncodeFieldsKeys | src/utils/apiTask.js:50-73 | every entry the loop appends is keyed by a field whose value is not undefined |
| ApiTask.DefinedKeysSpec | src/utils/apiTask.js:70-71 | a key counts as defined exactly when some field with that key holds a value other than undefined |
| ApiTask.SubmitTask | src/utils/apiTask.js:47-88 | `createTask`/`updateTask`: builds the payload with the loop, then takes the reply; the result is `Outcome`, a failure always carries a message, and success needs both the payload and the reply to succeed |
| ApiTask.SubtaskField | src/utils/apiTask.js:106-114 | a normalisable subtask list is sent as one JSON entry of the normalised list |
| ApiTask.AllAssigneesKept | src/utils/apiTask.js:96-105 | a list whose every entry passes the filter is sent whole |
| ApiTask.AttachmentFieldEncodes | src/utils/apiTask.js:115-116 | an attachment field holding an array or nothing never throws |
| ApiTask.LocalErrorIsGeneric | src/utils/apiTask.js:80-87 | an error thrown while building the payload reaches the caller as the generic message; a success needs both the payload and the reply to succeed |
| TaskRecords.ParseTags | src/components/TaskForm.jsx:52-57 | an empty text gives no tags; no parsed tag is empty, has white space at either end, or contains a comma |
| TaskRecords.ParseJoinPieces | src/components/TaskForm.jsx:52-57 | parsing comma-free pieces joined by "," gives the trimmed pieces that are not blank, in order, each as often as it occurs |
| TaskRecords.ParseJoinTags | src/pages/TaskDetail.jsx:169-174 | parsing the `join(",")` of non-empty, comma-free, trimmed tags gives the tags back |
| TaskRecords.AcceptedFiles | src/components/TaskForm.jsx:146-149 | the kept files are the order-preserving JPEG, PNG and PDF subsequence, each allowed file kept as often as it occurs, and all files are kept exactly when all are allowed |
| TaskRecords.WithTitle | src/components/TaskForm.jsx:126-130 | only the title at the index changes |
| TaskRecords.Toggled | src/pages/TaskDetail.jsx:354-360 | only `completed` at the index flips |
| TaskRecords.ToggleInvolutive | src/pages/TaskDetail.jsx:355-359 | toggling the same row twice restores the list |
| TaskRecords.ToggleCount | src/pages/TaskDetail.jsx:468 | a toggle moves the completed count by exactly one |
| TaskRecords.ProgressRatio | src/pages/TaskDetail.jsx:468-470 | the numerator is the number of completed subtasks, at most the denominator; the denominator is the number of subtasks, or 1 for an empty list, whose ratio is 0/1 |
| TaskForm.TitleRequired | src/components/TaskForm.jsx:32-35 | the submit is refused with "Title is required." exactly when the title trims to empty |
| TaskForm.EmailCheck | src/components/TaskForm.jsx:38-44 | with a title, the submit is refused exactly when an assignee fails the pattern, and the message lists every failing entry in order and as often as it occurs, joined by ", " |
| TaskForm.NormalizeFormSubtasks | src/components/TaskForm.jsx:61 | rows with non-blank titles pass `createTask`'s normaliser as their trimmed selves |
| TaskForm.CheckedAssignees | src/components/TaskForm.jsx:38-44 | after the form's own check, `createTask` keeps every assignee |
| TaskForm.PassedEmailCheck | src/components/TaskForm.jsx:38-47 | a form that passed the checks has only assignees matching the pattern, and its payload is the form's task data |
| TaskForm.InvalidEmails | src/components/TaskForm.jsx:38-44 | the failing addresses keep the list's order, each fails the pattern, and each failing entry appears as often as it occurs in the list |
| TaskForm.CheckedSubtasks | src/components/TaskForm.jsx:61 | the subtasks sent are the non-blank rows, trimmed, in order |
| TaskForm.CheckedFieldsEncode | src/components/TaskForm.jsx:47-64 | each field of a form whose assignees all match the e-mail pattern encodes |
| TaskForm.CheckedFormEncodes | src/components/TaskForm.jsx:46-65 | a form that passed the checks never makes `createTask`'s payload loop throw |
| TaskForm.InitialFormShape | src/components/TaskForm.jsx:9-20 | the initial form has one empty subtask and no files, and is refused for its empty title |
| TaskForm.TaskFormPage.constructor | src/components/TaskForm.jsx:9-20 | the form starts as the initial form |
| TaskForm.WithTextSets | src/components/TaskForm.jsx:88-91 | typing into a text input sets that input's text and leaves every other input and field of the form as it was |
| TaskForm.TaskFormPage.HandleChange | src/components/TaskForm.jsx:88-91 | the form becomes `WithText` of the old form, so only the named text field changes |
| TaskForm.TaskFormPage.HandleStatusChange | src/components/TaskForm.jsx:105-110 | the status becomes the selection, or "pending" when cleared |
| TaskForm.TaskFormPage.HandlePriorityChange | src/components/TaskForm.jsx:112-117 | the priority becomes the selection, or "low" when cleared |
| TaskForm.TaskFormPage.HandleAssignedToChange | src/components/TaskForm.jsx:119-124 | the assignees become the selected values, or none |
| TaskForm.TaskFormPage.HandleSubtaskChange | src/components/TaskForm.jsx:126-130 | only the title of that row changes |
| TaskForm.TaskFormPage.AddSubtask | src/components/TaskForm.jsx:132-137 | one empty subtask is appended at the end |
| TaskForm.TaskFormPage.RemoveSubtask | src/components/TaskForm.jsx:139-144 | only the row at the index is removed; the others keep their order |
| TaskForm.TaskFormPage.HandleFileChange | src/components/TaskForm.jsx:146-160 | the allowed files are appended after the existing ones; the warning shows exactly when some file was dropped |
| TaskForm.TaskFormPage.HandleRemoveFile | src/components/TaskForm.jsx:185-190 | only the file at the index is removed |
| TaskForm.TaskFormPage.HandleSubmit | src/components/TaskForm.jsx:30-86 | a refused form sends nothing and keeps its state; otherwise the payload goes through `SubmitTask`, a successful create resets the form to the initial form, and a failure shows the error and keeps the state |
| TaskDetail.FormatIsBucketed | src/pages/TaskDetail.jsx:443-465 | the nested floor divisions give the closed-form bucket: a unit is used once the seconds reach its length, with the floor quotient as the count |
| TaskDetail.BucketRanges | src/pages/TaskDetail.jsx:445-465 | each bucket's count lies in its unit's range |
| TaskDetail.FalsyDateIsDash | src/pages/TaskDetail.jsx:440 | a falsy date shows "-" |
| TaskDetail.DatePartIsDate | src/pages/TaskDetail.jsx:78-79 | the kept date is the prefix before the first "T" |
| TaskDetail.LoadFormShape | src/pages/TaskDetail.jsx:72-90 | the loaded form has no new attachments, "pending" and "low" defaults, and each subtask's title, with `completed` true only where it was fetched true (fetched subtasks are taken as a string title and a boolean or missing `completed`; see Left out) |
| TaskDetail.LoadedTagsRoundTrip | src/pages/TaskDetail.jsx:77 | saving the loaded form sends back the fetched tags when they are non-empty, comma-free and trimmed |
| TaskDetail.NormalizeRows | src/pages/TaskDetail.jsx:178 | every row of the detail form passes `updateTask`'s normaliser as its trimmed self |
| TaskDetail.UpdateAssignees | src/utils/apiTask.js:96-105 | non-blank assignee ids are all kept by `updateTask` |
| TaskDetail.UpdateSubtasks | src/pages/TaskDetail.jsx:178 | the update sends the rows with non-blank titles, trimmed, in order |
| TaskDetail.UpdateFieldsEncode | src/pages/TaskDetail.jsx:164-181 | each field of the update payload encodes when every assignee id is non-blank |
| TaskDetail.CheckedUpdateEncodes | src/pages/TaskDetail.jsx:157-182 | such an update never makes the payload loop throw |
| TaskDetail.TogglePayloadEncodes | src/pages/TaskDetail.jsx:362-366 | the toggle's one-field payload always encodes and sends every non-blank row |
| TaskDetail.TaskDetailPanel.constructor | src/pages/TaskDetail.jsx:39-53 | the panel's initial state |
| TaskDetail.TaskDetailPanel.LoadTask | src/pages/TaskDetail.jsx:68-90 | the form is filled from the fetched task; nothing else changes |
| TaskDetail.TaskDetailPanel.HandleCommentSubmit | src/pages/TaskDetail.jsx:120-136 | a blank comment is refused; otherwise the trimmed text is sent, and a success clears the input |
| TaskDetail.TaskDetailPanel.HandleReplySubmit | src/pages/TaskDetail.jsx:138-155 | a missing or blank draft is refused; otherwise the trimmed draft is sent, and a success empties only that draft |
| TaskDetail.TaskDetailPanel.OpenReply | src/pages/TaskDetail.jsx:1077-1080 | opening a reply box keeps an existing draft and otherwise adds an empty one |
| TaskDetail.TaskDetailPanel.CancelReply | src/pages/TaskDetail.jsx:1115-1118 | Cancel removes only that id's draft |
| TaskDetail.TaskDetailPanel.HandleReplyInputChange | src/pages/TaskDetail.jsx:391-393 | only that id's draft changes |
| TaskDetail.TaskDetailPanel.HandleUpdateSubmit | src/pages/TaskDetail.jsx:157-192 | given the server's reply: a blank title is refused with "Title cannot be empty." and nothing is sent; otherwise the form's update payload (`UpdateTaskData`, returned) goes through `SubmitTask`, a successful update leaves edit mode, and a failure shows the error message and stays in edit mode; the form and drafts are unchanged |
| TaskDetail.UpdateOkSucceeds | src/pages/TaskDetail.jsx:157-192 | with a non-blank title and non-blank assignee ids, an Ok reply makes the update succeed with the reply's data, and an HTTP error makes it fail |
| TaskDetail.TaskDetailPanel.HandleChange | src/pages/TaskDetail.jsx:194-197 | the form becomes `WithText` of the old form; comment, drafts and edit mode are unchanged |
| TaskDetail.TaskDetailPanel.HandleSubtaskChange | src/pages/TaskDetail.jsx:348-352 | only the title of that row changes |
| TaskDetail.TaskDetailPanel.HandleSubtaskToggle | src/pages/TaskDetail.jsx:354-366 | only `completed` of that row flips, and the whole new list is the payload |
| TaskDetail.TaskDetailPanel.AddSubtask | src/pages/TaskDetail.jsx:377-382 | one empty subtask is appended |
| TaskDetail.TaskDetailPanel.RemoveSubtask | src/pages/TaskDetail.jsx:384-389 | only the row at the index is removed |
| TaskDetail.TaskDetailPanel.HandleFileChange | src/pages/TaskDetail.jsx:199-213 | the allowed files are appended in order; the warning shows exactly when some file was dropped |
| TaskDetail.TaskDetailPanel.HandleRemoveFile | src/pages/TaskDetail.jsx:301-306 | only the file at the index is removed |
| Avatars.AvatarRowOf | src/pages/TaskList.jsx:353-388 | no row for a missing or empty list; otherwise the first `min(n, limit)` assignees are shown, and the "+k" badge appears exactly when n > limit, with shown + k = n |
| TaskList.SumRepliesCountsThread | src/pages/TaskList.jsx:215-219 | the `reduce` adds the number of replies to its start value |
| TaskList.CardCounters | src/pages/TaskList.jsx:213-226 | the comment total is the length of the whole thread (comments plus replies) and 0 without comments; the attachment total is 0 exactly for a missing or empty list |
| TaskList.CardAvatarBadge | src/pages/TaskList.jsx:355-386 | a card shows at most 3 avatars, and the "+(n-3)" badge exactly when n > 3 |
| TaskList.ColumnsPartition | src/pages/TaskList.jsx:250-252 | the three columns are disjoint, order-preserving filters on status; their sizes add up to at most the task count, with equality exactly when every status is known |
| TaskList.ColumnsComplete | src/pages/TaskList.jsx:250-252 | each column holds every task of its own status, as often as it occurs on the board, and no task of another status |
| TaskList.ColumnsDisjoint | src/pages/TaskList.jsx:250-252 | no card is in two columns |
| TaskList.ColumnsCount | src/pages/TaskList.jsx:250-252 | the column sizes add up to at most the task count, with equality exactly when every status is one of the three |
| TaskList.Toggle | src/pages/TaskList.jsx:254-263 | toggling the open card closes the menu and clears the selection; toggling any other card opens the menu on it; the menu stays valid |
| TaskList.ToggleTwice | src/pages/TaskList.jsx:254-263 | on a valid menu, toggling a card twice restores the menu when it was open on that card, and otherwise leaves it closed |
| TaskList.OneMenuAtATime | src/pages/TaskList.jsx:254-263 | at most one card shows its menu |
| TaskList.Board.constructor | src/pages/TaskList.jsx:25-30 | the board's initial state |
| TaskList.Board.LoadTasks | src/pages/TaskList.jsx:56-65 | a fetch replaces the tasks and clears the error; a failure sets "Failed to fetch tasks." |
| TaskList.Board.ToggleListbox | src/pages/TaskList.jsx:254-263 | the menu state becomes `Toggle` of the old one; nothing else changes |
| TaskList.Board.ClickOutside | src/pages/TaskList.jsx:41-50 | an outside click closes the menu and clears the selection; any other click changes nothing |
| TaskList.Board.OpenTaskDetailModal | src/pages/TaskList.jsx:265-271 | the detail window opens on the task and the menu closes |
| TaskList.Board.CloseTaskDetailModal | src/pages/TaskList.jsx:273-276 | the detail window closes and forgets its task |
| TaskList.Board.OpenTaskFormModal | src/pages/TaskList.jsx:278-280 | the form window opens |
| TaskList.Board.CloseTaskFormModal | src/pages/TaskList.jsx:282-284 | the form window closes |
| TaskList.Board.HandleTaskCreated | src/pages/TaskList.jsx:67-70 | the form window closes |
| TaskList.Board.HandleDeleteTask | src/pages/TaskList.jsx:76-114 | nothing happens without confirmation; a successful delete closes the menu; a failure sets "Error deleting task." |
| TaskList.Board.HandleDragStart | src/pages/TaskList.jsx:116-120 | the dragged id is recorded |
| TaskList.Board.HandleDrop | src/pages/TaskList.jsx:126-138 | a drop with no dragged task is a no-op; otherwise the status update is requested, and a success clears the dragged id while a failure sets "Error updating task status." |
| TaskList.Board.HandleDragEnd | src/pages/TaskList.jsx:140-143 | the dragged id is cleared |
| Notifications.MarkAllRead | src/components/Dashboard.jsx:155-157 | length and order are kept, every item is read, and the other fields are unchanged |
| Notifications.RemoveById | src/components/Dashboard.jsx:167-169 | the result is the order-preserving subsequence without that id, and every other item is kept as often as it occurs |
| Notifications.MarkAllReadClearsBadge | src/components/Dashboard.jsx:383-385 | after "mark all as read" the unread count is 0, and marking again changes nothing |
| Notifications.RemoveByIdChanges | src/pages/Settings.jsx:157-159 | deleting an id that no item carries changes nothing, and deleting twice is deleting once |
| Notifications.RemoveByIdUnread | src/components/Dashboard.jsx:383-385 | deleting never raises the unread count |
| Notifications.TaskIdOf | src/components/Dashboard.jsx:436-439 | a missing task gives no id, and a bare id is itself |
| Notifications.FormatMessageSpec | src/components/Dashboard.jsx:432-448 | an invitation about a titled task is the message with its first occurrence of the title (the earliest index where it occurs) replaced by the title in `<strong>` verbatim, and is unchanged when the title does not occur; any other notification shows its message or "No message available" |
| Notifications.AsWrittenAgreesWithoutDollar | src/components/Dashboard.jsx:443-448 | the code as written draws the intended message whenever the title has no `$` |
| Notifications.DollarTitleIsMangled | src/components/Dashboard.jsx:443-448 | for the title "$$" the code as written draws "<strong>$</strong>", not "<strong>$$</strong>" |
| Notifications.DollarTitleExample | src/pages/Settings.jsx:379-384 | the message "$$ invited" meets that lemma's conditions |
| Notifications.MarkAllReadHidesActions | src/components/Dashboard.jsx:524 | after "mark all as read" no notification shows Accept or Decline |
| Dashboard.StatsBounds | src/components/Dashboard.jsx:99-107 | the status counts and the priority counts each add up to at most the total, with equality exactly when every value is one of the three |
| Dashboard.StatsAppend | src/components/Dashboard.jsx:99-107 | every count over two lists joined is the sum of the counts over each |
| Dashboard.FileTypeOf | src/components/Dashboard.jsx:218-227 | the label is "PDF", "Image" or "Document" |
| Dashboard.FileTypeBySuffix | src/components/Dashboard.jsx:218-227 | ignoring letter case, a name ending in ".pdf" is a "PDF", one ending in ".jpg", ".jpeg" or ".png" an "Image", and any other a "Document" |
| Dashboard.FileTypeOfNamed | src/components/Dashboard.jsx:218-227 | any stem followed by ".pdf" in any letter case is a "PDF", and followed by ".jpg", ".jpeg" or ".png" an "Image" |
| Dashboard.FileTypeIgnoresCase | src/components/Dashboard.jsx:219 | the label does not depend on letter case |
| Dashboard.DashboardPage.constructor | src/components/Dashboard.jsx:48-65 | the initial state, with statistics matching the empty task list |
| Dashboard.DashboardPage.LoadTasks | src/components/Dashboard.jsx:94-114 | a fetch replaces the tasks and their statistics and clears the error; a failure keeps them and shows the message |
| Dashboard.DashboardPage.LoadNotifications | src/components/Dashboard.jsx:137-150 | an array replaces the list, other data empties it, and a failure keeps it and shows "Failed to load notifications" |
| Dashboard.DashboardPage.ToggleNotifications | src/components/Dashboard.jsx:405 | the bell flips the panel |
| Dashboard.DashboardPage.MarkAllAsRead | src/components/Dashboard.jsx:152-162 | a success marks every item read; a failure keeps the list and shows the message |
| Dashboard.DashboardPage.DeleteNotif | src/components/Dashboard.jsx:164-174 | a success removes exactly that id; a failure keeps the list and shows the message |
| Dashboard.DashboardPage.BeginAccept | src/components/Dashboard.jsx:176-180 | an accept starts exactly when the task is not in flight, and the task is then in flight |
| Dashboard.DashboardPage.FinishAccept | src/components/Dashboard.jsx:181-194 | a success reloads the list; a failure shows the message; in both cases the task leaves the in-flight set |
| Dashboard.DashboardPage.BeginDecline | src/components/Dashboard.jsx:196-203 | a decline starts exactly when the task is not in flight and the dialog was confirmed |
| Dashboard.DashboardPage.FinishDecline | src/components/Dashboard.jsx:204-216 | a success reloads the list; a failure shows the message; the task leaves the in-flight set |
| Settings.UserDataOf | src/pages/Settings.jsx:49-55 | each profile field is the fetched value, or "" when it is absent |
| Settings.Refetched | src/pages/Settings.jsx:72-82 | after a fetch the list equals the fetched array, non-array data empties it, and a failure keeps it |
| Settings.SettingsPage.constructor | src/pages/Settings.jsx:28-40 | the initial state |
| Settings.SettingsPage.FetchUserData | src/pages/Settings.jsx:44-67 | a fetch fills the profile; a failure keeps it |
| Settings.SettingsPage.FetchNotifications | src/pages/Settings.jsx:69-86 | the list becomes `Refetched` of the old one |
| Settings.SettingsPage.MarkAllAsRead | src/pages/Settings.jsx:142-152 | a success marks every item read; a failure changes nothing |
| Settings.SettingsPage.DeleteNotif | src/pages/Settings.jsx:154-164 | a success removes exactly that id; a failure changes nothing |
| Settings.SettingsPage.BeginAccept | src/pages/Settings.jsx:166-170 | an accept starts exactly when the task is not in flight |
| Settings.SettingsPage.FinishAccept | src/pages/Settings.jsx:171-186 | a success removes the notification locally; a failure keeps the list; the task leaves the in-flight set |
| Settings.SettingsPage.BeginDecline | src/pages/Settings.jsx:188-193 | a decline starts exactly when the task is not in flight and the dialog was confirmed |
| Settings.SettingsPage.FinishDecline | src/pages/Settings.jsx:194-210 | a success removes the notification locally; a failure keeps the list; the task leaves the in-flight set |
| CalendarPage.LeadingDigits | src/pages/CalendarPage.jsx:56 | the length of the leading digit run: digits before it and a non-digit at it |
| CalendarPage.CleanTitle | src/pages/CalendarPage.jsx:56 | the cleaned title is a suffix of the title, and a title not starting with a digit is unchanged |
| CalendarPage.CleanTitleRemovesLongestMatch | src/pages/CalendarPage.jsx:56 | a title starting with a digit loses exactly the longest prefix of the form digits, optional letter, white space; no other title has such a prefix |
| CalendarPage.EventDefaults | src/pages/CalendarPage.jsx:77-99 | an event keeps the original title next to the cleaned one, never has an empty status, priority or description, defaults them to "Not specified"/"No description", the owner to "Unknown" and missing lists to [] |
| CalendarPage.EventsOfDatedTasks | src/pages/CalendarPage.jsx:54-101 | the events are exactly the events of the tasks with a start date, in task order |
| CalendarPage.ExtensionSpec | src/pages/CalendarPage.jsx:196 | the extension is the lower-cased text after the last ".", or the whole lower-cased name when there is none |
| CalendarPage.LastPieceAfterDot | src/pages/CalendarPage.jsx:196 | the last `split(".")` piece of a name with a "." is the dot-free text after its last "." |
| CalendarPage.FileTypeOf | src/pages/CalendarPage.jsx:194-200 | the label is "Unknown" exactly for a falsy name |
| CalendarPage.FileTypeOfNamed | src/pages/CalendarPage.jsx:194-200 | for `stem.ext` with a dot-free extension, the extension read is `ext` lower-cased, and the label is "Image" for jpg, jpeg, png or gif, "PDF" for pdf, and "File" otherwise, in any letter case |
| CalendarPage.FileTypeWithoutDot | src/pages/CalendarPage.jsx:194-200 | a non-empty name with no "." is its own extension, so a bare "pdf" is a "PDF" and a bare "PNG" an "Image" |
| CalendarPage.PdfAgreesWithDashboard | src/pages/CalendarPage.jsx:194-200 | for a name with a ".", the calendar says "PDF" exactly when the dashboard's suffix rule says "PDF" |
| CalendarPage.StatusKey | src/pages/CalendarPage.jsx:236-238 | the key has no white space and no upper-case letter |
| CalendarPage.StatusKeyIdempotent | src/pages/CalendarPage.jsx:236-238 | a key is its own key |
| CalendarPage.StatusKeyOfServerStatus | src/pages/CalendarPage.jsx:236-244 | the server's "inProgress" maps to the tables' "inprogress" |
| CalendarPage.StatusColours | src/pages/CalendarPage.jsx:236-244 | the background, text and badge colours fall back to their defaults exactly for an unknown key, and statuses with the same key get the same colours |
| CalendarPage.PriorityBadgeSpec | src/pages/CalendarPage.jsx:333-334 | the priority badge ignores case and falls back to its default exactly for a priority other than low, medium or high |
| CalendarPage.IconAgreesWithColour | src/pages/CalendarPage.jsx:151-163 | for a status without white space, the icon and the colours agree on whether the status is known |
| CalendarPage.WindowAvatarBadge | src/pages/CalendarPage.jsx:377-424 | the window shows at most 4 avatars, and the "+(n-4)" badge exactly when n > 4 |
| CalendarPage.Calendar.constructor | src/pages/CalendarPage.jsx:37-39 | the window starts closed with no tasks |
| CalendarPage.Calendar.FetchData | src/pages/CalendarPage.jsx:41-52 | a fetch replaces the tasks, and a failure empties them |
| CalendarPage.Calendar.HandleEventClick | src/pages/CalendarPage.jsx:103-119 | the window opens on the clicked event's task |
| CalendarPage.Calendar.CloseModal | src/pages/CalendarPage.jsx:121-124 | the window closes and forgets its task |

## Left out

- Server calls, cookies and authentication are not modelled. Each outcome is a parameter. The request halves of `apiTask.js` and the other API modules (`apiAuth.js`, `apiComment.js`, `apiNotif.js`) are foreign network code.
- `downloadFile` and the download handlers are not modelled. They work through Blob, URL and DOM anchors.
- Polling with `setInterval`, the registration page's `setTimeout` delays and the redirects are not modelled. They only concern timing.
- `window.confirm` and the Swal dialogs are modelled only as a `confirmed` parameter.
- React batching and stale closures are not modelled. Each handler reads the state as it was when it ran. An in-flight guard would therefore behave the same under batching only if the updates happened one after another.
- After an action, the reloads (`loadTasks`, `loadTask`, `loadRecentActivity`) are separate method calls, not part of the action.
- `toLowerCase` is modelled for ASCII letters only. Unicode case mapping has no Dafny counterpart.
- Numbers in payload values are integers. Floats and NaN are not modelled, and neither are the chart percentages, the MB sizes or the progress-bar width.
- `JSON.stringify` is not modelled character by character. A JSON entry holds the value it serialises. The settings page's JSON text comparison is modelled as equality of the values.
- Locale and time-zone date formatting (`toLocaleDateString`, `toLocaleString`) is not modelled.
- The calendar event's end date is not modelled. It is computed by comparing locale date strings.
- The calendar's `formatDateOnly` is not modelled. Dates on an event are the server's text.
- `formatRelativeTime` takes the elapsed milliseconds as its argument; the clock is not modelled.
- DOM drag, touch (`elementFromPoint`, class lists), refs and rendering are not modelled.
- `ClickOutside` takes whether the click landed outside every menu as its input.
- `getInitialsAndColor` and the imported `getFileType` live in `src/utils/helpers`. That module is not part of this model.
- The activity-action formatters are commented out in the code and are not modelled.
- Mention parsing is not modelled. It is absent from the code.
- TaskDetail's status, priority and assignee select handlers are not modelled separately. They are the same record updates as the create form's, which are modelled as `TaskForm.TaskFormPage.HandleStatusChange`, `HandlePriorityChange` and `HandleAssignedToChange`. Its text-input `handleChange` is modelled, as `TaskDetail.TaskDetailPanel.HandleChange`.
- `TaskForm.TaskFormPage.HandleSubtaskChange` requires an in-range index. The handler is only wired to rendered rows, and JavaScript's write past the end, which grows the array, is not modelled.
- `TaskDetail.TaskDetailPanel.HandleSubtaskChange` and `HandleSubtaskToggle` also require an in-range index, for the same reason.
- `ApiTask.Outcome` follows the code in one respect that may not be intended. An "Invalid email addresses in assignedTo" error thrown inside `createTask`/`updateTask` is caught by the same function's `catch`. That error has no HTTP response, so the caller always sees the generic message.
- Colour lookups only model the keys present in the tables. Inherited object keys such as "constructor" are not modelled.
- The settings page's profile editing is not modelled: `handleInputChange`, `handleUpdateProfile`, avatar upload, and the password and two-factor windows.
- TaskDetail.LoadSubtask: fetched subtasks are assumed to have a string `title` and a boolean or missing `completed`. The code keeps `sub.title` and `sub.completed || false` as received, so a truthy non-boolean `completed` (such as 1) would count as done in the progress bar and be saved as false by `updateTask`, and a non-string title would make every later update fail with the generic error. These server-data cases are not modelled on the detail panel; `ApiTask.NormalizeSubtask` models them for the values `updateTask` receives.
- The calendar crashes on a task without a title, because `task.title.replace` is called on undefined. The model takes the title as a string, so this crash is not modelled.
- The calendar also crashes when the fetched data is not an array. The model takes the fetched data as an array or a failure.
- `CalendarPage.FileTypeOf` only names the "Unknown" case in its contract. The other labels are stated by `FileTypeOfNamed` and `FileTypeWithoutDot`, with `ExtensionSpec` saying which extension a name has.

## Findings

| source | as written | input that shows it | evidently intended | confidence | as-written member | corrected member |
|---|---|---|---|---|---|---|
| src/components/Dashboard.jsx:443-448 | `notif.message.replace(taskTitle, "<strong>" + taskTitle + "</strong>")` passes the title inside a replacement string, where `$$`, `$&`, `` $` `` and `$'` are substitution patterns. The same code is at src/pages/Settings.jsx:379-384. | a task titled "$$" with the message "$$ invited": the code draws "<strong>$</strong> invited" | the first occurrence of the title wrapped in `<strong>` verbatim: "<strong>$$</strong> invited" | not executed | Notifications.DollarTitleIsMangled | Notifications.FormatMessageSpec |
