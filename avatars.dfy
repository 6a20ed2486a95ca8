/** The assignee avatar row that task cards draw: the first few users and a
    "+n" badge for the rest. The board shows three avatars, the calendar's task
    window four. */
module Avatars {
  import opened Wrappers

  /** A populated user reference as the server sends it. */
  datatype User = User(username: string, avatar: Option<string>)

  /** Either the "no assignees" icon, or the avatars drawn and the number the
      badge shows. */
  datatype AvatarRow<T> = NoAssignees | Row(shown: seq<T>, more: Option<nat>)

  /** `Array.isArray(list) && list.length > 0` chooses the row; it draws
      `list.slice(0, limit)` and, when `list.length > limit`, the badge
      `+{list.length - limit}`. None stands for a value that is not an array. */
  function AvatarRowOf<T>(assignees: Option<seq<T>>, limit: nat): (r: AvatarRow<T>)
    ensures r.NoAssignees? <==> assignees.None? || |assignees.value| == 0
    ensures r.Row? ==> r.shown <= assignees.value
    ensures r.Row? ==> |r.shown| == if |assignees.value| < limit then |assignees.value| else limit
    ensures r.Row? ==> |r.shown| <= limit && (r.more.Some? ==> r.more.value >= 1)
    ensures r.Row? ==> (r.more.Some? <==> |assignees.value| > limit)
    ensures r.Row? ==> |r.shown| + (if r.more.Some? then r.more.value else 0) == |assignees.value|
  {
    if assignees.None? || |assignees.value| == 0 then NoAssignees
    else
      var list := assignees.value;
      var shown := if |list| < limit then list else list[..limit];
      Row(shown, if |list| > limit then Some(|list| - limit) else None)
  }
}
