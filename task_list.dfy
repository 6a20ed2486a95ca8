/** The Kanban board: the per-card counters, the three status columns, and the
    board's own state (the card menu, the detail window and the dragged card). */
module TaskList {
  import opened Wrappers
  import opened Seqs
  import opened Avatars

  /** A comment on a card; `replies` is None when the field is missing. */
  datatype Comment = Comment(text: string, replies: Option<seq<string>>)

  /** The fields of a fetched task the board reads. `comments` and
      `attachment` are None when the field is missing (for `attachment`, also
      when it is not an array). */
  datatype BoardTask = BoardTask(
    id: string,
    status: string,
    assignedTo: Option<seq<User>>,
    comments: Option<seq<Comment>>,
    attachment: Option<seq<string>>)

  // -------------------------------------------------------- card counters

  /** `comment.replies ? comment.replies.length : 0` */
  function ReplyCount(c: Comment): nat {
    if c.replies.Some? then |c.replies.value| else 0
  }

  /** `comments.reduce((total, comment) => total + ReplyCount(comment), total)` */
  function SumReplies(comments: seq<Comment>, total: nat): nat
    decreases |comments|
  {
    if |comments| == 0 then total else SumReplies(comments[1..], total + ReplyCount(comments[0]))
  }

  /** `getTotalComments`: no comments give 0, otherwise the comments plus the
      replies summed over them. */
  function TotalComments(task: BoardTask): nat {
    if task.comments.None? || |task.comments.value| == 0 then 0
    else |task.comments.value| + SumReplies(task.comments.value, 0)
  }

  /** `getTotalAttachments`: the attachment count when it is an array, else 0. */
  function TotalAttachments(task: BoardTask): nat {
    if task.attachment.Some? then |task.attachment.value| else 0
  }

  /** The whole thread of a card read top to bottom: each comment followed by
      its replies. */
  function Thread(comments: seq<Comment>): seq<string> {
    if |comments| == 0 then []
    else
      [comments[0].text] + (if comments[0].replies.Some? then comments[0].replies.value else [])
      + Thread(comments[1..])
  }

  /** The reduction counts every reply of the thread on top of its start value. */
  lemma {:induction false} SumRepliesCountsThread(comments: seq<Comment>, total: nat)
    ensures SumReplies(comments, total) + |comments| == total + |Thread(comments)|
  {
    if |comments| > 0 {
      SumRepliesCountsThread(comments[1..], total + ReplyCount(comments[0]));
    }
  }

  /** The comment counter on a card is the number of entries in its thread, and
      it is 0 exactly when the card has no comments; the attachment counter is
      0 exactly when there is no attachment array or it is empty. */
  lemma {:induction false} CardCounters(task: BoardTask)
    ensures TotalComments(task) == |Thread(if task.comments.Some? then task.comments.value else [])|
    ensures TotalComments(task) == 0 <==> task.comments.None? || |task.comments.value| == 0
    ensures TotalAttachments(task) == 0 <==> task.attachment.None? || |task.attachment.value| == 0
  {
    if task.comments.Some? {
      SumRepliesCountsThread(task.comments.value, 0);
    }
  }

  /** The avatars a card draws: at most three, with a badge for the rest. */
  function CardAvatars(task: BoardTask): AvatarRow<User> {
    AvatarRowOf(task.assignedTo, 3)
  }

  /** A card shows the badge exactly when more than three users are assigned,
      and the badge counts the users left out. */
  lemma {:induction false} CardAvatarBadge(task: BoardTask)
    requires task.assignedTo.Some?
    ensures CardAvatars(task).Row? && CardAvatars(task).more.Some? <==> |task.assignedTo.value| > 3
    ensures CardAvatars(task).Row? && CardAvatars(task).more.Some? ==>
      |CardAvatars(task).shown| == 3 && CardAvatars(task).more.value == |task.assignedTo.value| - 3
  {
  }

  // ------------------------------------------------------------- columns

  predicate IsPending(t: BoardTask) { t.status == "pending" }
  predicate IsInProgress(t: BoardTask) { t.status == "inProgress" }
  predicate IsCompleted(t: BoardTask) { t.status == "completed" }

  predicate HasKnownStatus(t: BoardTask) { IsPending(t) || IsInProgress(t) || IsCompleted(t) }

  datatype Columns = Columns(pending: seq<BoardTask>, inProgress: seq<BoardTask>, completed: seq<BoardTask>)

  /** `tasks.filter((task) => task.status === ...)` for the three columns. */
  function ColumnsOf(tasks: seq<BoardTask>): Columns {
    Columns(Filter(IsPending, tasks), Filter(IsInProgress, tasks), Filter(IsCompleted, tasks))
  }

  /** Each column keeps the board order and holds only its own status, so no
      card is in two columns; between them the columns hold at most every task,
      and all of them exactly when every status is one of the three. */
  lemma {:induction false} ColumnsPartition(tasks: seq<BoardTask>)
    ensures IsSubsequence(ColumnsOf(tasks).pending, tasks)
    ensures IsSubsequence(ColumnsOf(tasks).inProgress, tasks)
    ensures IsSubsequence(ColumnsOf(tasks).completed, tasks)
    ensures forall t :: t in ColumnsOf(tasks).pending ==> t !in ColumnsOf(tasks).inProgress && t !in ColumnsOf(tasks).completed
    ensures forall t :: t in ColumnsOf(tasks).inProgress ==> t !in ColumnsOf(tasks).completed
    ensures |ColumnsOf(tasks).pending| + |ColumnsOf(tasks).inProgress| + |ColumnsOf(tasks).completed| <= |tasks|
    ensures |ColumnsOf(tasks).pending| + |ColumnsOf(tasks).inProgress| + |ColumnsOf(tasks).completed| == |tasks| <==>
      forall k :: 0 <= k < |tasks| ==> HasKnownStatus(tasks[k])
  {
    FilterIsSubsequence(IsPending, tasks);
    FilterIsSubsequence(IsInProgress, tasks);
    FilterIsSubsequence(IsCompleted, tasks);
    ColumnsDisjoint(tasks);
    ColumnsCount(tasks);
  }

  /** Each column holds every task of its own status, as often as it occurs on
      the board, and no task of another status. */
  lemma {:induction false} ColumnsComplete(tasks: seq<BoardTask>)
    ensures forall k :: 0 <= k < |tasks| && IsPending(tasks[k]) ==> tasks[k] in ColumnsOf(tasks).pending
    ensures forall k :: 0 <= k < |tasks| && IsInProgress(tasks[k]) ==> tasks[k] in ColumnsOf(tasks).inProgress
    ensures forall k :: 0 <= k < |tasks| && IsCompleted(tasks[k]) ==> tasks[k] in ColumnsOf(tasks).completed
    ensures forall t :: multiset(ColumnsOf(tasks).pending)[t] == if IsPending(t) then multiset(tasks)[t] else 0
    ensures forall t :: multiset(ColumnsOf(tasks).inProgress)[t] == if IsInProgress(t) then multiset(tasks)[t] else 0
    ensures forall t :: multiset(ColumnsOf(tasks).completed)[t] == if IsCompleted(t) then multiset(tasks)[t] else 0
  {
    FilterMembers(IsPending, tasks);
    FilterMembers(IsInProgress, tasks);
    FilterMembers(IsCompleted, tasks);
    FilterMultiset(IsPending, tasks);
    FilterMultiset(IsInProgress, tasks);
    FilterMultiset(IsCompleted, tasks);
  }

  /** The three status names differ. */
  lemma {:induction false} StatusesDistinct()
    ensures "pending" != "inProgress" && "pending" != "completed" && "inProgress" != "completed"
  {
    assert "pending"[0] != "inProgress"[0] && "pending"[0] != "completed"[0] && "inProgress"[0] != "completed"[0];
  }

  /** No card is in two columns. */
  lemma {:induction false} ColumnsDisjoint(tasks: seq<BoardTask>)
    ensures forall t :: t in Filter(IsPending, tasks) ==> t !in Filter(IsInProgress, tasks) && t !in Filter(IsCompleted, tasks)
    ensures forall t :: t in Filter(IsInProgress, tasks) ==> t !in Filter(IsCompleted, tasks)
  {
    StatusesDistinct();
  }

  /** The columns hold at most every task, and all of them exactly when every
      status is one of the three. */
  lemma {:induction false} ColumnsCount(tasks: seq<BoardTask>)
    ensures Count(IsPending, tasks) + Count(IsInProgress, tasks) + Count(IsCompleted, tasks) <= |tasks|
    ensures Count(IsPending, tasks) + Count(IsInProgress, tasks) + Count(IsCompleted, tasks) == |tasks| <==>
      forall k :: 0 <= k < |tasks| ==> HasKnownStatus(tasks[k])
  {
    StatusesDistinct();
    CountThree(IsPending, IsInProgress, IsCompleted, tasks);
  }

  // ---------------------------------------------------------- card menu

  /** `isListboxOpen` and `selectedTaskId`. */
  datatype Menu = Menu(open: bool, selected: Option<string>)

  const Closed := Menu(false, None)

  /** The menu is open exactly when a card is selected. */
  predicate MenuValid(m: Menu) { m.open <==> m.selected.Some? }

  /** `isListboxOpen && selectedTaskId === task._id`: the card whose menu is drawn. */
  predicate ShowsMenuFor(m: Menu, id: string) { m.open && m.selected == Some(id) }

  /** `toggleListbox(taskId)`: closes the menu of the card it is open on,
      otherwise opens it on that card. */
  function Toggle(m: Menu, id: string): (r: Menu)
    ensures MenuValid(r)
    ensures ShowsMenuFor(r, id) <==> !ShowsMenuFor(m, id)
    ensures forall other :: other != id ==> !ShowsMenuFor(r, other)
    ensures !ShowsMenuFor(r, id) ==> r == Closed
  {
    if m.open && m.selected == Some(id) then Closed else Menu(true, Some(id))
  }

  /** Toggling the same card twice undoes the first toggle on a valid menu ... */
  lemma {:induction false} ToggleTwice(m: Menu, id: string)
    requires MenuValid(m)
    ensures Toggle(Toggle(m, id), id) == if ShowsMenuFor(m, id) then m else Closed
  {
  }

  /** ... and at most one card ever shows its menu. */
  lemma {:induction false} OneMenuAtATime(m: Menu, a: string, b: string)
    requires ShowsMenuFor(m, a) && ShowsMenuFor(m, b)
    ensures a == b
  {
  }

  /** `!draggedTaskId` fails exactly for a dragged id that is a non-empty text. */
  predicate HasDraggedTask(dragged: Option<string>) {
    dragged.Some? && dragged.value != ""
  }

  const FetchError := "Failed to fetch tasks."
  const DeleteError := "Error deleting task."
  const StatusError := "Error updating task status."

  /** The board's state; the outcome of each server call is a parameter. */
  class Board {
    var tasks: seq<BoardTask>
    var error: Option<string>
    var isListboxOpen: bool
    var selectedTaskId: Option<string>
    var showTaskDetailModal: bool
    var modalTaskId: Option<string>
    var showTaskFormModal: bool
    var draggedTaskId: Option<string>

    function CurrentMenu(): Menu
      reads this
    {
      Menu(isListboxOpen, selectedTaskId)
    }

    /** The menu invariant, and the detail window is open exactly when it has
        a task. */
    predicate Valid()
      reads this
    {
      MenuValid(CurrentMenu()) && (showTaskDetailModal <==> modalTaskId.Some?)
    }

    constructor()
      ensures Valid()
      ensures tasks == [] && error == None && CurrentMenu() == Closed
      ensures !showTaskDetailModal && !showTaskFormModal && draggedTaskId == None
    {
      tasks := [];
      error := None;
      isListboxOpen := false;
      selectedTaskId := None;
      showTaskDetailModal := false;
      modalTaskId := None;
      showTaskFormModal := false;
      draggedTaskId := None;
    }

    /** `loadTasks`, given what `fetchTasks` returned. */
    method LoadTasks(fetched: Result<seq<BoardTask>>)
      requires Valid()
      modifies this
      ensures Valid()
      ensures fetched.Success? ==> tasks == fetched.value && error == None
      ensures fetched.Failure? ==> tasks == old(tasks) && error == Some(FetchError)
      ensures CurrentMenu() == old(CurrentMenu()) && draggedTaskId == old(draggedTaskId)
      ensures showTaskDetailModal == old(showTaskDetailModal) && modalTaskId == old(modalTaskId)
      ensures showTaskFormModal == old(showTaskFormModal)
    {
      if fetched.Success? {
        tasks := fetched.value;
        error := None;
      } else {
        error := Some(FetchError);
      }
    }

    /** `toggleListbox(taskId, e)` */
    method ToggleListbox(taskId: string)
      requires Valid()
      modifies this
      ensures Valid()
      ensures CurrentMenu() == Toggle(old(CurrentMenu()), taskId)
      ensures tasks == old(tasks) && error == old(error) && draggedTaskId == old(draggedTaskId)
      ensures showTaskDetailModal == old(showTaskDetailModal) && modalTaskId == old(modalTaskId)
      ensures showTaskFormModal == old(showTaskFormModal)
    {
      if isListboxOpen && selectedTaskId == Some(taskId) {
        isListboxOpen := false;
        selectedTaskId := None;
      } else {
        selectedTaskId := Some(taskId);
        isListboxOpen := true;
      }
    }

    /** The document `mousedown` listener; whether the click fell outside every
        card menu is decided by the DOM and is a parameter. */
    method ClickOutside(isOutside: bool)
      requires Valid()
      modifies this
      ensures Valid()
      ensures CurrentMenu() == if isOutside then Closed else old(CurrentMenu())
      ensures tasks == old(tasks) && error == old(error) && draggedTaskId == old(draggedTaskId)
      ensures showTaskDetailModal == old(showTaskDetailModal) && modalTaskId == old(modalTaskId)
      ensures showTaskFormModal == old(showTaskFormModal)
    {
      if isOutside {
        isListboxOpen := false;
        selectedTaskId := None;
      }
    }

    /** `openTaskDetailModal(taskId, e)`: opens the window and closes the menu. */
    method OpenTaskDetailModal(taskId: string)
      requires Valid()
      modifies this
      ensures Valid()
      ensures showTaskDetailModal && modalTaskId == Some(taskId) && CurrentMenu() == Closed
      ensures tasks == old(tasks) && error == old(error) && draggedTaskId == old(draggedTaskId)
      ensures showTaskFormModal == old(showTaskFormModal)
    {
      modalTaskId := Some(taskId);
      showTaskDetailModal := true;
      isListboxOpen := false;
      selectedTaskId := None;
    }

    /** `closeTaskDetailModal` */
    method CloseTaskDetailModal()
      requires Valid()
      modifies this
      ensures Valid()
      ensures !showTaskDetailModal && modalTaskId == None
      ensures tasks == old(tasks) && error == old(error) && draggedTaskId == old(draggedTaskId)
      ensures CurrentMenu() == old(CurrentMenu()) && showTaskFormModal == old(showTaskFormModal)
    {
      showTaskDetailModal := false;
      modalTaskId := None;
    }

    /** `openTaskFormModal` */
    method OpenTaskFormModal()
      requires Valid()
      modifies this
      ensures Valid()
      ensures showTaskFormModal
      ensures tasks == old(tasks) && error == old(error) && draggedTaskId == old(draggedTaskId)
      ensures CurrentMenu() == old(CurrentMenu())
      ensures showTaskDetailModal == old(showTaskDetailModal) && modalTaskId == old(modalTaskId)
    {
      showTaskFormModal := true;
    }

    /** `closeTaskFormModal` */
    method CloseTaskFormModal()
      requires Valid()
      modifies this
      ensures Valid()
      ensures !showTaskFormModal
      ensures tasks == old(tasks) && error == old(error) && draggedTaskId == old(draggedTaskId)
      ensures CurrentMenu() == old(CurrentMenu())
      ensures showTaskDetailModal == old(showTaskDetailModal) && modalTaskId == old(modalTaskId)
    {
      showTaskFormModal := false;
    }

    /** `handleTaskCreated`: closes the form window; the reload that follows is
        a separate `LoadTasks`. */
    method HandleTaskCreated()
      requires Valid()
      modifies this
      ensures Valid()
      ensures !showTaskFormModal
      ensures tasks == old(tasks) && error == old(error) && draggedTaskId == old(draggedTaskId)
      ensures CurrentMenu() == old(CurrentMenu())
      ensures showTaskDetailModal == old(showTaskDetailModal) && modalTaskId == old(modalTaskId)
    {
      showTaskFormModal := false;
    }

    /** `handleDeleteTask(taskId, e)` after the confirmation dialog answered
        `confirmed`; `succeeded` is the outcome of `deleteTask`. Returns the id
        whose deletion was requested. A successful delete closes the menu (the
        reload that follows is a separate `LoadTasks`). */
    method HandleDeleteTask(taskId: string, confirmed: bool, succeeded: bool) returns (requested: Option<string>)
      requires Valid()
      modifies this
      ensures Valid()
      ensures requested == if confirmed then Some(taskId) else None
      ensures CurrentMenu() == if confirmed && succeeded then Closed else old(CurrentMenu())
      ensures error == if confirmed && !succeeded then Some(DeleteError) else old(error)
      ensures tasks == old(tasks) && draggedTaskId == old(draggedTaskId)
      ensures showTaskDetailModal == old(showTaskDetailModal) && modalTaskId == old(modalTaskId)
      ensures showTaskFormModal == old(showTaskFormModal)
    {
      requested := None;
      if confirmed {
        requested := Some(taskId);
        if succeeded {
          isListboxOpen := false;
          selectedTaskId := None;
        } else {
          error := Some(DeleteError);
        }
      }
    }

    /** `handleDragStart(taskId, e)` */
    method HandleDragStart(taskId: string)
      requires Valid()
      modifies this
      ensures Valid()
      ensures draggedTaskId == Some(taskId)
      ensures tasks == old(tasks) && error == old(error) && CurrentMenu() == old(CurrentMenu())
      ensures showTaskDetailModal == old(showTaskDetailModal) && modalTaskId == old(modalTaskId)
      ensures showTaskFormModal == old(showTaskFormModal)
    {
      draggedTaskId := Some(taskId);
    }

    /** `handleDrop(newStatus, e)`; `succeeded` is the outcome of `updateTask`.
        Returns the `(id, status)` update it requests: none at all without a
        dragged card, which leaves the state as it was. */
    method HandleDrop(newStatus: string, succeeded: bool) returns (request: Option<(string, string)>)
      requires Valid()
      modifies this
      ensures Valid()
      ensures !HasDraggedTask(old(draggedTaskId)) ==> request == None && draggedTaskId == old(draggedTaskId) && error == old(error)
      ensures HasDraggedTask(old(draggedTaskId)) ==> request == Some((old(draggedTaskId).value, newStatus))
      ensures HasDraggedTask(old(draggedTaskId)) && succeeded ==> draggedTaskId == None && error == old(error)
      ensures HasDraggedTask(old(draggedTaskId)) && !succeeded ==>
        draggedTaskId == old(draggedTaskId) && error == Some(StatusError)
      ensures tasks == old(tasks) && CurrentMenu() == old(CurrentMenu())
      ensures showTaskDetailModal == old(showTaskDetailModal) && modalTaskId == old(modalTaskId)
      ensures showTaskFormModal == old(showTaskFormModal)
    {
      if !HasDraggedTask(draggedTaskId) {
        return None;
      }
      request := Some((draggedTaskId.value, newStatus));
      if succeeded {
        draggedTaskId := None;
      } else {
        error := Some(StatusError);
      }
    }

    /** `handleDragEnd(e)` */
    method HandleDragEnd()
      requires Valid()
      modifies this
      ensures Valid()
      ensures draggedTaskId == None
      ensures tasks == old(tasks) && error == old(error) && CurrentMenu() == old(CurrentMenu())
      ensures showTaskDetailModal == old(showTaskDetailModal) && modalTaskId == old(modalTaskId)
      ensures showTaskFormModal == old(showTaskFormModal)
    {
      draggedTaskId := None;
    }
  }
}
