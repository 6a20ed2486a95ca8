/** The settings page: the profile form's prefill and the notification tab,
    whose invitation answers remove the notification locally. */
module Settings {
  import opened Wrappers
  import opened JsString
  import opened Notifications

  /** The profile fields `getMe` returned, each possibly missing. */
  datatype FetchedUser = FetchedUser(
    username: Option<string>, email: Option<string>, avatar: Option<string>,
    firstname: Option<string>, lastname: Option<string>)

  /** The `userData` state of the profile form. */
  datatype UserData = UserData(username: string, email: string, avatar: string, firstname: string, lastname: string)

  const EmptyUserData := UserData("", "", "", "", "")

  /** `setUserData({ username: data.username || "", ... })` */
  function UserDataOf(data: FetchedUser): (r: UserData)
    ensures r.username == (if data.username.Some? then data.username.value else "")
    ensures r.email == (if data.email.Some? then data.email.value else "")
    ensures r.avatar == (if data.avatar.Some? then data.avatar.value else "")
    ensures r.firstname == (if data.firstname.Some? then data.firstname.value else "")
    ensures r.lastname == (if data.lastname.Some? then data.lastname.value else "")
  {
    UserData(OrElse(data.username, ""), OrElse(data.email, ""), OrElse(data.avatar, ""),
      OrElse(data.firstname, ""), OrElse(data.lastname, ""))
  }

  /** The list after `fetchNotificationsData`: a fetched array different from
      the current list (by its JSON text) replaces it, an equal one keeps it,
      any other fetched value empties it, and a failed fetch keeps it. JSON
      text equality is modelled as equality of the values. */
  function Refetched(prev: seq<Notification>, fetched: Fetched): (r: seq<Notification>)
    ensures fetched.ArrayOf? ==> r == fetched.items
    ensures fetched.NotAnArray? ==> r == []
    ensures fetched.FetchFailed? ==> r == prev
  {
    match fetched
    case ArrayOf(items) => if prev != items then items else prev
    case NotAnArray => []
    case FetchFailed(_) => prev
  }

  /** The settings page's state; the outcome of each server call is a
      parameter, and an invitation answer is split at its `await` into
      `Begin…` and `Finish…`. Failures only raise a toast, so they leave the
      state as it was apart from the in-flight set. */
  class SettingsPage {
    var userData: UserData
    var notifications: seq<Notification>
    var processingInvitations: set<string>

    constructor()
      ensures userData == EmptyUserData && notifications == [] && processingInvitations == {}
    {
      userData := EmptyUserData;
      notifications := [];
      processingInvitations := {};
    }

    /** `fetchUserData`, given the `data` of `getMe` or None when it failed. */
    method FetchUserData(fetched: Option<FetchedUser>)
      modifies this
      ensures userData == if fetched.Some? then UserDataOf(fetched.value) else old(userData)
      ensures notifications == old(notifications) && processingInvitations == old(processingInvitations)
    {
      if fetched.Some? {
        userData := UserDataOf(fetched.value);
      }
    }

    /** `fetchNotificationsData`, given what `fetchUserNotifications` returned. */
    method FetchNotifications(fetched: Fetched)
      modifies this
      ensures notifications == Refetched(old(notifications), fetched)
      ensures userData == old(userData) && processingInvitations == old(processingInvitations)
    {
      match fetched
      case ArrayOf(items) =>
        if notifications != items {
          notifications := items;
        }
      case NotAnArray => notifications := [];
      case FetchFailed(_) =>
    }

    /** `markAllAsRead`, given the outcome of `markAllNotificationsAsRead`. */
    method MarkAllAsRead(outcome: CallResult)
      modifies this
      ensures notifications == if outcome.Done? then MarkAllRead(old(notifications)) else old(notifications)
      ensures userData == old(userData) && processingInvitations == old(processingInvitations)
    {
      if outcome.Done? {
        notifications := MarkAllRead(notifications);
      }
    }

    /** `deleteNotif(notificationId)`, given the outcome of `deleteNotification`. */
    method DeleteNotif(notificationId: string, outcome: CallResult)
      modifies this
      ensures notifications == if outcome.Done? then RemoveById(old(notifications), notificationId) else old(notifications)
      ensures userData == old(userData) && processingInvitations == old(processingInvitations)
    {
      if outcome.Done? {
        notifications := RemoveById(notifications, notificationId);
      }
    }

    /** `handleAcceptInvitation` up to its `await`: refused while the same
        task is already being answered. */
    method BeginAccept(taskId: string) returns (started: bool)
      modifies this
      ensures started <==> taskId !in old(processingInvitations)
      ensures processingInvitations == old(processingInvitations) + {taskId}
      ensures userData == old(userData) && notifications == old(notifications)
    {
      if taskId in processingInvitations {
        return false;
      }
      processingInvitations := processingInvitations + {taskId};
      started := true;
    }

    /** The rest of `handleAcceptInvitation` for the notification `notificationId`,
        once `acceptInvitation` gave `outcome`. */
    method FinishAccept(taskId: string, notificationId: string, outcome: CallResult)
      modifies this
      ensures processingInvitations == old(processingInvitations) - {taskId}
      ensures notifications == if outcome.Done? then RemoveById(old(notifications), notificationId) else old(notifications)
      ensures userData == old(userData)
    {
      if outcome.Done? {
        notifications := RemoveById(notifications, notificationId);
      }
      processingInvitations := processingInvitations - {taskId};
    }

    /** `handleDeclineInvitation` up to its `await`: refused while the same
        task is being answered or when the confirmation is declined. */
    method BeginDecline(taskId: string, confirmed: bool) returns (started: bool)
      modifies this
      ensures started <==> taskId !in old(processingInvitations) && confirmed
      ensures processingInvitations == if started then old(processingInvitations) + {taskId} else old(processingInvitations)
      ensures userData == old(userData) && notifications == old(notifications)
    {
      if taskId in processingInvitations || !confirmed {
        return false;
      }
      processingInvitations := processingInvitations + {taskId};
      started := true;
    }

    /** The rest of `handleDeclineInvitation`, once `declineInvitation` gave `outcome`. */
    method FinishDecline(taskId: string, notificationId: string, outcome: CallResult)
      modifies this
      ensures processingInvitations == old(processingInvitations) - {taskId}
      ensures notifications == if outcome.Done? then RemoveById(old(notifications), notificationId) else old(notifications)
      ensures userData == old(userData)
    {
      if outcome.Done? {
        notifications := RemoveById(notifications, notificationId);
      }
      processingInvitations := processingInvitations - {taskId};
    }
  }
}
