/** The notification list the dashboard and the settings page both keep: the
    list operations behind "mark all as read", delete and the invitation
    answers, the unread badge, and how one notification is drawn. */
module Notifications {
  import opened Wrappers
  import opened JsString
  import opened Seqs

  /** `notif.task`: missing, a bare task id, or a populated task object with
      its `_id` and `title` fields (each possibly missing). */
  datatype TaskRef = NoTask | IdRef(ref: string) | Populated(id: Option<string>, title: Option<string>)

  datatype Notification = Notification(id: string, message: Option<string>, read: bool, task: TaskRef)

  /** The outcome of a server call that returns nothing the page keeps. */
  datatype CallResult = Done | Failed(message: string)

  /** What `fetchUserNotifications` gave: an array, something else, or an error. */
  datatype Fetched = ArrayOf(items: seq<Notification>) | NotAnArray | FetchFailed(message: string)

  // ---------------------------------------------------------- list updates

  function MarkedRead(n: Notification): Notification {
    n.(read := true)
  }

  /** `notifications.map((notif) => ({ ...notif, read: true }))` */
  function MarkAllRead(ns: seq<Notification>): (r: seq<Notification>)
    ensures |r| == |ns|
    ensures forall k :: 0 <= k < |r| ==> r[k].read
    ensures forall k :: 0 <= k < |r| ==>
      r[k].id == ns[k].id && r[k].message == ns[k].message && r[k].task == ns[k].task
  {
    Map(MarkedRead, ns)
  }

  /** The filter callback `(notif) => notif._id !== id`. */
  function NotId(id: string): Notification -> bool {
    (n: Notification) => n.id != id
  }

  /** `notifications.filter((notif) => notif._id !== id)` */
  function RemoveById(ns: seq<Notification>, id: string): (r: seq<Notification>)
    ensures IsSubsequence(r, ns)
    ensures forall k :: 0 <= k < |r| ==> r[k].id != id
    ensures forall k :: 0 <= k < |ns| && ns[k].id != id ==> ns[k] in r
    ensures forall n :: multiset(r)[n] == if n.id != id then multiset(ns)[n] else 0
  {
    FilterIsSubsequence(NotId(id), ns);
    FilterMultiset(NotId(id), ns);
    FilterMembers(NotId(id), ns);
    Filter(NotId(id), ns)
  }

  predicate IsUnread(n: Notification) { !n.read }

  /** `notifications.filter((notif) => !notif.read).length` */
  function UnreadCount(ns: seq<Notification>): nat {
    Count(IsUnread, ns)
  }

  /** After "mark all as read" the badge counts nothing, and marking again
      changes nothing. */
  lemma {:induction false} MarkAllReadClearsBadge(ns: seq<Notification>)
    ensures UnreadCount(MarkAllRead(ns)) == 0
    ensures MarkAllRead(MarkAllRead(ns)) == MarkAllRead(ns)
  {
    FilterNone(IsUnread, MarkAllRead(ns));
  }

  /** Deleting an id no notification carries changes nothing, and deleting the
      same id twice is deleting it once. */
  lemma {:induction false} RemoveByIdChanges(ns: seq<Notification>, id: string)
    ensures (forall k :: 0 <= k < |ns| ==> ns[k].id != id) ==> RemoveById(ns, id) == ns
    ensures RemoveById(RemoveById(ns, id), id) == RemoveById(ns, id)
  {
    var r := RemoveById(ns, id);
    FilterAll(NotId(id), r);
    if forall k :: 0 <= k < |ns| ==> ns[k].id != id {
      FilterAll(NotId(id), ns);
    }
  }

  /** Deleting notifications never raises the unread badge. */
  lemma {:induction false} RemoveByIdUnread(ns: seq<Notification>, id: string)
    ensures UnreadCount(RemoveById(ns, id)) <= UnreadCount(ns)
  {
    CountSubsequence(IsUnread, RemoveById(ns, id), ns);
  }

  // ------------------------------------------------------------- drawing

  /** `notif.message?.includes("invited")` */
  predicate IsInvitation(n: Notification) {
    n.message.Some? && Includes(n.message.value, "invited")
  }

  /** `typeof notif.task === "object" && notif.task?._id ? notif.task._id.toString()
      : notif.task?.toString()`; a populated task without an id prints as
      "[object Object]". */
  function TaskIdOf(n: Notification): (r: Option<string>)
    ensures n.task.NoTask? <==> r.None?
    ensures n.task.IdRef? ==> r == Some(n.task.ref)
  {
    match n.task
    case NoTask => None
    case IdRef(ref) => Some(ref)
    case Populated(id, _) => if id.Some? && id.value != "" then Some(id.value) else Some("[object Object]")
  }

  /** `notif.task?.title`, which only a populated task has. */
  function TitleOf(n: Notification): Option<string> {
    if n.task.Populated? then n.task.title else None
  }

  /** `isInvitation && notif.task?.title`, the condition for bolding the title. */
  predicate BoldsTitle(n: Notification) {
    IsInvitation(n) && TitleOf(n).Some? && TitleOf(n).value != ""
  }

  function Bold(title: string): string {
    "<strong>" + title + "</strong>"
  }

  const NoMessage := "No message available"

  /** The message as the code writes it: `notif.message.replace(taskTitle,
      "<strong>" + taskTitle + "</strong>")`, where the replacement string is
      subject to `$` substitution. */
  function FormatMessageAsWritten(n: Notification): string {
    if BoldsTitle(n) then Replace(n.message.value, TitleOf(n).value, Bold(TitleOf(n).value))
    else OrElse(n.message, NoMessage)
  }

  /** The message drawn for a notification: an invitation about a task with a
      title has the first occurrence of that title wrapped in `<strong>`; any
      other notification shows its message, or "No message available". */
  function FormatMessage(n: Notification): string {
    if BoldsTitle(n) then ReplaceFirst(n.message.value, TitleOf(n).value, Bold(TitleOf(n).value))
    else OrElse(n.message, NoMessage)
  }

  /** What the drawn message is, case by case. */
  lemma {:induction false} FormatMessageSpec(n: Notification)
    ensures !BoldsTitle(n) ==> FormatMessage(n) == (if n.message.Some? && n.message.value != "" then n.message.value else NoMessage)
    ensures BoldsTitle(n) && !Includes(n.message.value, TitleOf(n).value) ==> FormatMessage(n) == n.message.value
    ensures BoldsTitle(n) && Includes(n.message.value, TitleOf(n).value) ==>
      Includes(FormatMessage(n), Bold(TitleOf(n).value))
    ensures BoldsTitle(n) && Includes(n.message.value, TitleOf(n).value) ==>
      exists i: nat ::
        OccursAt(n.message.value, TitleOf(n).value, i) &&
        (forall j :: 0 <= j < i ==> !OccursAt(n.message.value, TitleOf(n).value, j)) &&
        FormatMessage(n) == n.message.value[..i] + Bold(TitleOf(n).value) + n.message.value[i + |TitleOf(n).value|..]
  {
    if BoldsTitle(n) && Includes(n.message.value, TitleOf(n).value) {
      ReplaceFirstInserts(n.message.value, TitleOf(n).value, Bold(TitleOf(n).value));
    }
  }

  /** The code as written draws the intended message whenever the title has
      no `$` in it. */
  lemma {:induction false} AsWrittenAgreesWithoutDollar(n: Notification)
    requires TitleOf(n).Some? && '$' !in TitleOf(n).value
    ensures FormatMessageAsWritten(n) == FormatMessage(n)
  {
    if BoldsTitle(n) {
      var t := TitleOf(n).value;
      assert forall k :: 0 <= k < |Bold(t)| ==> Bold(t)[k] != '$' by {
        assert Bold(t) == "<strong>" + t + "</strong>";
      }
      ReplaceWithoutDollar(n.message.value, t, Bold(t));
    }
  }

  /** An invitation about a task titled "$$" whose message starts with the
      title: the code as written draws "<strong>$</strong>", dropping one of
      the title's characters, where the intended message bolds "$$". */
  lemma {:induction false} DollarTitleIsMangled(n: Notification)
    requires n.message.Some? && |n.message.value| >= 2 && n.message.value[..2] == "$$"
    requires Includes(n.message.value, "invited")
    requires n.task.Populated? && n.task.title == Some("$$")
    ensures FormatMessageAsWritten(n) == "<strong>$</strong>" + n.message.value[2..]
    ensures FormatMessage(n) == "<strong>$$</strong>" + n.message.value[2..]
    ensures FormatMessageAsWritten(n) != FormatMessage(n)
  {
    var m := n.message.value;
    assert BoldsTitle(n) && TitleOf(n).value == "$$";
    assert FormatMessageAsWritten(n) == Replace(m, "$$", Bold("$$"));
    assert FormatMessage(n) == ReplaceFirst(m, "$$", Bold("$$"));
    DollarMessage(m);
    assert FormatMessageAsWritten(n)[9] == '<' && FormatMessage(n)[9] == '$';
  }

  /** The two ways of bolding "$$" at the head of a message. */
  lemma {:induction false} DollarMessage(m: string)
    requires |m| >= 2 && m[..2] == "$$"
    ensures Replace(m, "$$", Bold("$$")) == "<strong>$</strong>" + m[2..]
    ensures ReplaceFirst(m, "$$", Bold("$$")) == "<strong>$$</strong>" + m[2..]
  {
    assert OccursAt(m, "$$", 0);
    ReplaceAtStart(m, "$$", Bold("$$"));
    BoldDollarSubstitution(m[2..]);
  }

  /** Such a notification exists: the message "$$ invited". */
  lemma {:induction false} DollarTitleExample()
    ensures Includes("$$ invited", "invited") && "$$ invited"[..2] == "$$"
  {
    assert OccursAt("$$ invited", "invited", 3);
  }

  /** The bolded replacement for the title "$$" substitutes to "<strong>$</strong>". */
  lemma {:induction false} BoldDollarSubstitution(after: string)
    ensures Substitution(Bold("$$"), "$$", "", after) == "<strong>$</strong>"
  {
    var open, close := "<strong>", "</strong>";
    WrappedDoubleDollar(open, close, after);
    assert Bold("$$") == open + ("$$" + close);
    assert open + ("$" + close) == "<strong>$</strong>";
  }

  /** Between `$`-free text, a `$$` in the replacement substitutes to one `$`. */
  lemma {:induction false} WrappedDoubleDollar(open: string, close: string, after: string)
    requires '$' !in open && '$' !in close
    ensures Substitution(open + ("$$" + close), "$$", "", after) == open + ("$" + close)
  {
    SubstitutionWithoutDollar(close, "$$", "", after);
    DoubleDollarHead(close, "$$", "", after);
    SubstitutionConcat(open, "$$" + close, "$$", "", after);
  }

  /** A leading `$$` in the replacement substitutes to one `$`. */
  lemma {:induction false} DoubleDollarHead(rest: string, matched: string, before: string, after: string)
    ensures Substitution("$$" + rest, matched, before, after) == "$" + Substitution(rest, matched, before, after)
  {
    var rep := "$$" + rest;
    assert rep[0] == '$' && rep[1] == '$' && rep[2..] == rest;
  }

  /** A `$`-free head of the replacement substitutes to itself in front of the rest. */
  lemma {:induction false} SubstitutionConcat(a: string, b: string, matched: string, before: string, after: string)
    requires '$' !in a
    ensures Substitution(a + b, matched, before, after) == a + Substitution(b, matched, before, after)
  {
    if |a| > 0 {
      SubstitutionConcat(a[1..], b, matched, before, after);
      assert (a + b)[1..] == a[1..] + b;
      assert (a + b)[0] == a[0];
    } else {
      assert a + b == b;
    }
  }

  /** `isInvitation && !notif.read && taskId`: the Accept and Decline buttons. */
  predicate ShowsInvitationActions(n: Notification) {
    IsInvitation(n) && !n.read && TaskIdOf(n).Some? && TaskIdOf(n).value != ""
  }

  /** Once a list is marked read no notification offers Accept or Decline. */
  lemma {:induction false} MarkAllReadHidesActions(ns: seq<Notification>)
    ensures forall k :: 0 <= k < |ns| ==> !ShowsInvitationActions(MarkAllRead(ns)[k])
  {
  }
}
