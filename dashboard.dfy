/** The dashboard: task statistics, the notification panel with its
    invitation answers, and the file-type label of the activity feed. */
module Dashboard {
  import opened Wrappers
  import opened JsString
  import opened Seqs
  import opened Notifications

  /** The fields of a fetched task the statistics read. */
  datatype TaskSummary = TaskSummary(status: string, priority: string)

  datatype TaskStats = TaskStats(
    total: nat, pending: nat, inProgress: nat, completed: nat, low: nat, medium: nat, high: nat)

  const NoStats := TaskStats(0, 0, 0, 0, 0, 0, 0)

  /** The callback `(task) => task.status === status`. */
  function WithStatus(status: string): TaskSummary -> bool {
    (t: TaskSummary) => t.status == status
  }

  /** The callback `(task) => task.priority === priority`. */
  function WithPriority(priority: string): TaskSummary -> bool {
    (t: TaskSummary) => t.priority == priority
  }

  /** The `stats` object `loadTasks` builds from the fetched tasks. */
  function StatsOf(data: seq<TaskSummary>): TaskStats {
    TaskStats(
      |data|,
      Count(WithStatus("pending"), data),
      Count(WithStatus("inProgress"), data),
      Count(WithStatus("completed"), data),
      Count(WithPriority("low"), data),
      Count(WithPriority("medium"), data),
      Count(WithPriority("high"), data))
  }

  /** The status counts and the priority counts each add up to at most the
      total, and to the total exactly when every task has one of the three
      statuses (priorities). */
  lemma {:induction false} StatsBounds(data: seq<TaskSummary>)
    ensures StatsOf(data).pending + StatsOf(data).inProgress + StatsOf(data).completed <= StatsOf(data).total
    ensures StatsOf(data).low + StatsOf(data).medium + StatsOf(data).high <= StatsOf(data).total
    ensures StatsOf(data).pending + StatsOf(data).inProgress + StatsOf(data).completed == StatsOf(data).total <==>
      forall k :: 0 <= k < |data| ==> data[k].status in ["pending", "inProgress", "completed"]
    ensures StatsOf(data).low + StatsOf(data).medium + StatsOf(data).high == StatsOf(data).total <==>
      forall k :: 0 <= k < |data| ==> data[k].priority in ["low", "medium", "high"]
  {
    CountThree(WithStatus("pending"), WithStatus("inProgress"), WithStatus("completed"), data);
    CountThree(WithPriority("low"), WithPriority("medium"), WithPriority("high"), data);
  }

  /** Every count is the sum of the counts of two halves of the task list. */
  lemma {:induction false} StatsAppend(a: seq<TaskSummary>, b: seq<TaskSummary>)
    ensures StatsOf(a + b) == TaskStats(
      StatsOf(a).total + StatsOf(b).total,
      StatsOf(a).pending + StatsOf(b).pending,
      StatsOf(a).inProgress + StatsOf(b).inProgress,
      StatsOf(a).completed + StatsOf(b).completed,
      StatsOf(a).low + StatsOf(b).low,
      StatsOf(a).medium + StatsOf(b).medium,
      StatsOf(a).high + StatsOf(b).high)
  {
    FilterAppend(WithStatus("pending"), a, b);
    FilterAppend(WithStatus("inProgress"), a, b);
    FilterAppend(WithStatus("completed"), a, b);
    FilterAppend(WithPriority("low"), a, b);
    FilterAppend(WithPriority("medium"), a, b);
    FilterAppend(WithPriority("high"), a, b);
  }

  /** `getFileType(fileName)`: the label from the lower-cased name's suffix. */
  function FileTypeOf(fileName: string): (r: string)
    ensures r == "PDF" || r == "Image" || r == "Document"
  {
    var lower := ToLower(fileName);
    if EndsWith(lower, ".pdf") then "PDF"
    else if EndsWith(lower, ".jpg") || EndsWith(lower, ".jpeg") || EndsWith(lower, ".png") then "Image"
    else "Document"
  }

  /** `name` ends with `ext` once letter case is ignored. */
  predicate EndsWithIgnoringCase(name: string, ext: string) {
    |ext| <= |name| && ToLower(name[|name| - |ext|..]) == ToLower(ext)
  }

  /** The suffixes the label looks for are already lower-case. */
  lemma {:induction false} LowerCaseSuffixes()
    ensures ToLower(".pdf") == ".pdf" && ToLower(".jpg") == ".jpg"
    ensures ToLower(".jpeg") == ".jpeg" && ToLower(".png") == ".png"
  {
  }

  /** For a lower-case suffix, testing the lower-cased name is testing the
      name's own suffix with case ignored. */
  lemma {:induction false} LowerEndsWith(name: string, ext: string)
    requires ToLower(ext) == ext
    ensures EndsWith(ToLower(name), ext) <==> EndsWithIgnoringCase(name, ext)
  {
    if |ext| <= |name| {
      LowerOfSuffix(name, |name| - |ext|);
    }
  }

  /** The label by suffix, in any letter case: a name ending in ".pdf" is a
      "PDF", one ending in ".jpg", ".jpeg" or ".png" an "Image", and any other
      name a "Document". */
  lemma {:induction false} FileTypeBySuffix(fileName: string)
    ensures FileTypeOf(fileName) == "PDF" <==> EndsWithIgnoringCase(fileName, ".pdf")
    ensures FileTypeOf(fileName) == "Image" <==>
      EndsWithIgnoringCase(fileName, ".jpg") || EndsWithIgnoringCase(fileName, ".jpeg") ||
      EndsWithIgnoringCase(fileName, ".png")
    ensures FileTypeOf(fileName) == "Document" <==>
      !EndsWithIgnoringCase(fileName, ".pdf") && !EndsWithIgnoringCase(fileName, ".jpg") &&
      !EndsWithIgnoringCase(fileName, ".jpeg") && !EndsWithIgnoringCase(fileName, ".png")
  {
    LowerCaseSuffixes();
    LowerEndsWith(fileName, ".pdf");
    LowerEndsWith(fileName, ".jpg");
    LowerEndsWith(fileName, ".jpeg");
    LowerEndsWith(fileName, ".png");
    var lower := ToLower(fileName);
    if EndsWith(lower, ".pdf") {
      assert lower[|lower| - 1] == 'f';
    }
  }

  /** A stem with an extension appended gets that extension's label, in any
      letter case. */
  lemma {:induction false} FileTypeOfNamed(stem: string, ext: string)
    ensures ToLower(ext) == ".pdf" ==> FileTypeOf(stem + ext) == "PDF"
    ensures ToLower(ext) == ".jpg" || ToLower(ext) == ".jpeg" || ToLower(ext) == ".png" ==>
      FileTypeOf(stem + ext) == "Image"
  {
    FileTypeBySuffix(stem + ext);
    LowerCaseSuffixes();
    assert (stem + ext)[|stem + ext| - |ext|..] == ext;
  }

  /** The label does not depend on letter case. */
  lemma {:induction false} FileTypeIgnoresCase(fileName: string)
    ensures FileTypeOf(ToLower(fileName)) == FileTypeOf(fileName)
  {
    ToLowerIdempotent(fileName);
  }

  /** The list after `loadNotifications`: a fetched array replaces it, any
      other fetched value empties it, and a failed fetch keeps it. */
  function Reloaded(prev: seq<Notification>, fetched: Fetched): seq<Notification> {
    match fetched
    case ArrayOf(items) => items
    case NotAnArray => []
    case FetchFailed(_) => prev
  }

  const LoadNotificationsError := "Failed to load notifications"

  /** The dashboard's state; the outcome of each server call is a parameter,
      and an invitation answer is split at its `await` into `Begin…` and
      `Finish…`, so that other events can happen in between. */
  class DashboardPage {
    var tasks: seq<TaskSummary>
    var taskStats: TaskStats
    var notifications: seq<Notification>
    var showNotifications: bool
    var error: Option<string>
    var processingInvitations: set<string>

    /** The statistics always describe the current task list. */
    predicate Valid()
      reads this
    {
      taskStats == StatsOf(tasks)
    }

    constructor()
      ensures Valid()
      ensures tasks == [] && taskStats == NoStats && notifications == []
      ensures !showNotifications && error == None && processingInvitations == {}
    {
      tasks := [];
      taskStats := NoStats;
      notifications := [];
      showNotifications := false;
      error := None;
      processingInvitations := {};
    }

    /** `loadTasks`, given what `fetchTasks` returned. */
    method LoadTasks(fetched: Result<seq<TaskSummary>>)
      requires Valid()
      modifies this
      ensures Valid()
      ensures fetched.Success? ==> tasks == fetched.value && error == None
      ensures fetched.Failure? ==> tasks == old(tasks) && error == Some(fetched.error)
      ensures notifications == old(notifications) && showNotifications == old(showNotifications)
      ensures processingInvitations == old(processingInvitations)
    {
      if fetched.Success? {
        tasks := fetched.value;
        taskStats := StatsOf(fetched.value);
        error := None;
      } else {
        error := Some(fetched.error);
      }
    }

    /** `loadNotifications`, given what `fetchUserNotifications` returned. */
    method LoadNotifications(fetched: Fetched)
      requires Valid()
      modifies this
      ensures Valid()
      ensures notifications == Reloaded(old(notifications), fetched)
      ensures error == if fetched.FetchFailed? then Some(LoadNotificationsError) else old(error)
      ensures tasks == old(tasks) && showNotifications == old(showNotifications)
      ensures processingInvitations == old(processingInvitations)
    {
      match fetched
      case ArrayOf(items) => notifications := items;
      case NotAnArray => notifications := [];
      case FetchFailed(_) => error := Some(LoadNotificationsError);
    }

    /** The bell button. */
    method ToggleNotifications()
      requires Valid()
      modifies this
      ensures Valid()
      ensures showNotifications == !old(showNotifications)
      ensures tasks == old(tasks) && notifications == old(notifications) && error == old(error)
      ensures processingInvitations == old(processingInvitations)
    {
      showNotifications := !showNotifications;
    }

    /** `markAllAsRead`, given the outcome of `markAllNotificationsAsRead`. */
    method MarkAllAsRead(outcome: CallResult)
      requires Valid()
      modifies this
      ensures Valid()
      ensures outcome.Done? ==> notifications == MarkAllRead(old(notifications)) && error == old(error)
      ensures outcome.Failed? ==>
        notifications == old(notifications) &&
        error == Some("Failed to mark all notifications as read: " + outcome.message)
      ensures tasks == old(tasks) && showNotifications == old(showNotifications)
      ensures processingInvitations == old(processingInvitations)
    {
      if outcome.Done? {
        notifications := MarkAllRead(notifications);
      } else {
        error := Some("Failed to mark all notifications as read: " + outcome.message);
      }
    }

    /** `deleteNotif(notificationId)`, given the outcome of `deleteNotification`. */
    method DeleteNotif(notificationId: string, outcome: CallResult)
      requires Valid()
      modifies this
      ensures Valid()
      ensures outcome.Done? ==> notifications == RemoveById(old(notifications), notificationId) && error == old(error)
      ensures outcome.Failed? ==>
        notifications == old(notifications) &&
        error == Some("Failed to delete notification: " + outcome.message)
      ensures tasks == old(tasks) && showNotifications == old(showNotifications)
      ensures processingInvitations == old(processingInvitations)
    {
      if outcome.Done? {
        notifications := RemoveById(notifications, notificationId);
      } else {
        error := Some("Failed to delete notification: " + outcome.message);
      }
    }

    /** `handleAcceptInvitation` up to its `await`: refused while the same
        task is already being answered, otherwise the task is marked in flight. */
    method BeginAccept(taskId: string) returns (started: bool)
      requires Valid()
      modifies this
      ensures Valid()
      ensures started <==> taskId !in old(processingInvitations)
      ensures processingInvitations == old(processingInvitations) + {taskId}
      ensures tasks == old(tasks) && notifications == old(notifications) && error == old(error)
      ensures showNotifications == old(showNotifications)
    {
      if taskId in processingInvitations {
        return false;
      }
      processingInvitations := processingInvitations + {taskId};
      started := true;
    }

    /** The rest of `handleAcceptInvitation`, once `acceptInvitation` gave
        `outcome`: on success the list is reloaded from `reloaded`; in every
        case the task leaves the in-flight set. */
    method FinishAccept(taskId: string, outcome: CallResult, reloaded: Fetched)
      requires Valid()
      modifies this
      ensures Valid()
      ensures taskId !in processingInvitations
      ensures processingInvitations == old(processingInvitations) - {taskId}
      ensures outcome.Done? ==>
        notifications == Reloaded(old(notifications), reloaded) &&
        error == if reloaded.FetchFailed? then Some(LoadNotificationsError) else old(error)
      ensures outcome.Failed? ==>
        notifications == old(notifications) &&
        error == Some("Failed to accept invitation: " + outcome.message)
      ensures tasks == old(tasks) && showNotifications == old(showNotifications)
    {
      if outcome.Done? {
        LoadNotifications(reloaded);
      } else {
        error := Some("Failed to accept invitation: " + outcome.message);
      }
      processingInvitations := processingInvitations - {taskId};
    }

    /** `handleDeclineInvitation` up to its `await`: refused while the same
        task is being answered or when the confirmation is declined. */
    method BeginDecline(taskId: string, confirmed: bool) returns (started: bool)
      requires Valid()
      modifies this
      ensures Valid()
      ensures started <==> taskId !in old(processingInvitations) && confirmed
      ensures processingInvitations == if started then old(processingInvitations) + {taskId} else old(processingInvitations)
      ensures tasks == old(tasks) && notifications == old(notifications) && error == old(error)
      ensures showNotifications == old(showNotifications)
    {
      if taskId in processingInvitations || !confirmed {
        return false;
      }
      processingInvitations := processingInvitations + {taskId};
      started := true;
    }

    /** The rest of `handleDeclineInvitation`, once `declineInvitation` gave
        `outcome`. */
    method FinishDecline(taskId: string, outcome: CallResult, reloaded: Fetched)
      requires Valid()
      modifies this
      ensures Valid()
      ensures taskId !in processingInvitations
      ensures processingInvitations == old(processingInvitations) - {taskId}
      ensures outcome.Done? ==>
        notifications == Reloaded(old(notifications), reloaded) &&
        error == if reloaded.FetchFailed? then Some(LoadNotificationsError) else old(error)
      ensures outcome.Failed? ==>
        notifications == old(notifications) &&
        error == Some("Failed to decline invitation: " + outcome.message)
      ensures tasks == old(tasks) && showNotifications == old(showNotifications)
    {
      if outcome.Done? {
        LoadNotifications(reloaded);
      } else {
        error := Some("Failed to decline invitation: " + outcome.message);
      }
      processingInvitations := processingInvitations - {taskId};
    }
  }
}
