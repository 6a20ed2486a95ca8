/** The records the task editing forms hold, subtasks and attached files, and
    the list edits the create form and the detail form share: tag parsing,
    the MIME filter on new files, and the subtask title/toggle updates. */
module TaskRecords {
  import opened JsString
  import opened Seqs

  datatype Subtask = Subtask(title: string, completed: bool)

  /** A browser `File`: its name and its MIME type (`file.type`). */
  datatype FileInfo = FileInfo(name: string, mime: string)

  /** What `addSubtask` appends. */
  const EmptySubtask := Subtask("", false)

  // ------------------------------------------------------------------ tags

  predicate NonEmpty(t: string) { t != "" }

  /** `tags ? tags.split(",").map((tag) => tag.trim()).filter((tag) => tag) : []` */
  function ParseTags(tags: string): (r: seq<string>)
    ensures forall k :: 0 <= k < |r| ==> r[k] != "" && IsTrimmed(r[k])
    ensures forall k :: 0 <= k < |r| ==> ',' !in r[k]
    ensures tags == "" ==> r == []
  {
    if tags == "" then []
    else
      var pieces := Map(Trim, Split(tags, ','));
      TrimmedPieces(Split(tags, ','));
      FilterMembers(NonEmpty, pieces);
      Filter(NonEmpty, pieces)
  }

  lemma {:induction false} TrimmedPieces(parts: seq<string>)
    requires forall k :: 0 <= k < |parts| ==> ',' !in parts[k]
    ensures forall k :: 0 <= k < |Map(Trim, parts)| ==>
      IsTrimmed(Map(Trim, parts)[k]) && ',' !in Map(Trim, parts)[k]
  {
    forall k | 0 <= k < |parts|
      ensures IsTrimmed(Trim(parts[k])) && ',' !in Trim(parts[k])
    {
      TrimIsTrimmed(parts[k]);
      TrimIsInfix(parts[k]);
    }
  }

  /** `tags.join(",")`, the form text of a loaded task's tags. */
  function JoinTags(tags: seq<string>): string {
    Join(tags, ",")
  }

  /** Parsing comma-joined, comma-free pieces gives back the trimmed pieces that
      are not blank, in order, each as often as it occurs. */
  lemma {:induction false} ParseJoinPieces(pieces: seq<string>)
    requires forall k :: 0 <= k < |pieces| ==> ',' !in pieces[k]
    ensures ParseTags(JoinTags(pieces)) == Filter(NonEmpty, Map(Trim, pieces))
    ensures forall t ::
      multiset(ParseTags(JoinTags(pieces)))[t] == if t != "" then multiset(Map(Trim, pieces))[t] else 0
  {
    var kept := Filter(NonEmpty, Map(Trim, pieces));
    if |pieces| == 1 && pieces[0] == "" {
      assert Trim("") == "" by { TrimmedIsFixed(""); }
      assert Map(Trim, pieces) == [""];
      assert kept == [];
    } else if |pieces| > 0 {
      assert JoinTags(pieces) != "";
      SplitJoin(pieces, ',');
    }
    assert ParseTags(JoinTags(pieces)) == kept;
    FilterMultiset(NonEmpty, Map(Trim, pieces));
  }

  /** Loading a task's tags into the form and parsing them back on save gives
      the same tags, provided each tag is non-empty, comma-free and trimmed. */
  lemma {:induction false} ParseJoinTags(tags: seq<string>)
    requires forall k :: 0 <= k < |tags| ==> tags[k] != "" && ',' !in tags[k] && IsTrimmed(tags[k])
    ensures ParseTags(JoinTags(tags)) == tags
  {
    ParseJoinPieces(tags);
    forall k | 0 <= k < |tags| ensures Trim(tags[k]) == tags[k] {
      TrimmedIsFixed(tags[k]);
    }
    assert Map(Trim, tags) == tags;
    FilterAll(NonEmpty, tags);
  }

  // ----------------------------------------------------------------- files

  /** `["image/jpeg", "image/png", "application/pdf"].includes(file.type)` */
  predicate IsAllowedFile(f: FileInfo) {
    f.mime == "image/jpeg" || f.mime == "image/png" || f.mime == "application/pdf"
  }

  /** The files `handleFileChange` keeps from a selection. */
  function AcceptedFiles(files: seq<FileInfo>): (r: seq<FileInfo>)
    ensures IsSubsequence(r, files)
    ensures forall k :: 0 <= k < |r| ==> IsAllowedFile(r[k])
    ensures forall k :: 0 <= k < |files| && IsAllowedFile(files[k]) ==> files[k] in r
    ensures |r| == |files| <==> forall k :: 0 <= k < |files| ==> IsAllowedFile(files[k])
    ensures forall f :: multiset(r)[f] == if IsAllowedFile(f) then multiset(files)[f] else 0
  {
    FilterIsSubsequence(IsAllowedFile, files);
    FilterMultiset(IsAllowedFile, files);
    CountFull(IsAllowedFile, files);
    FilterMembers(IsAllowedFile, files);
    Filter(IsAllowedFile, files)
  }

  // -------------------------------------------------------------- subtasks

  /** `updated[index] = { ...updated[index], title: value }` */
  function WithTitle(subtasks: seq<Subtask>, index: nat, value: string): (r: seq<Subtask>)
    requires index < |subtasks|
    ensures |r| == |subtasks|
    ensures r[index] == Subtask(value, subtasks[index].completed)
    ensures forall j :: 0 <= j < |r| && j != index ==> r[j] == subtasks[j]
  {
    subtasks[index := subtasks[index].(title := value)]
  }

  /** `updated[index] = { ...updated[index], completed: !updated[index].completed }` */
  function Toggled(subtasks: seq<Subtask>, index: nat): (r: seq<Subtask>)
    requires index < |subtasks|
    ensures |r| == |subtasks|
    ensures r[index] == Subtask(subtasks[index].title, !subtasks[index].completed)
    ensures forall j :: 0 <= j < |r| && j != index ==> r[j] == subtasks[j]
  {
    subtasks[index := subtasks[index].(completed := !subtasks[index].completed)]
  }

  predicate IsCompleted(s: Subtask) { s.completed }

  /** `subtask.filter((sub) => sub.completed).length` */
  function CompletedCount(subtasks: seq<Subtask>): nat {
    Count(IsCompleted, subtasks)
  }

  /** Toggling twice restores the list. */
  lemma {:induction false} ToggleInvolutive(subtasks: seq<Subtask>, index: nat)
    requires index < |subtasks|
    ensures Toggled(Toggled(subtasks, index), index) == subtasks
  {
  }

  /** Toggling one entry moves the completed count by exactly one. */
  lemma {:induction false} ToggleCount(subtasks: seq<Subtask>, index: nat)
    requires index < |subtasks|
    ensures CompletedCount(Toggled(subtasks, index)) ==
      if subtasks[index].completed then CompletedCount(subtasks) - 1 else CompletedCount(subtasks) + 1
  {
    var t := Toggled(subtasks, index);
    if index == 0 {
      assert t[1..] == subtasks[1..];
    } else {
      ToggleCount(subtasks[1..], index - 1);
      assert t[1..] == Toggled(subtasks[1..], index - 1);
      assert t[0] == subtasks[0];
    }
  }

  /** The detail page's progress: completed entries over the total, with the
      denominator `totalCount || 1`. */
  function ProgressRatio(subtasks: seq<Subtask>): (r: (nat, nat))
    ensures r.0 == CompletedCount(subtasks)
    ensures r.0 <= |subtasks| && r.0 <= r.1
    ensures r.1 >= 1 && (|subtasks| > 0 ==> r.1 == |subtasks|)
    ensures |subtasks| == 0 ==> r == (0, 1)
  {
    (CompletedCount(subtasks), if |subtasks| > 0 then |subtasks| else 1)
  }

  /** The progress text `${completedCount}/${totalCount || 1}`. */
  function ProgressText(subtasks: seq<Subtask>): string {
    var (done, total) := ProgressRatio(subtasks);
    NatToString(done) + "/" + NatToString(total)
  }
}
