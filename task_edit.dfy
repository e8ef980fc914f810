/** The edits a task goes through on the client before it is sent: the new-task forms of both
    pages and the edit form of the detail views. Every edit builds a new value from the old one
    (spread, `filter`, or a write into a fresh copy), so each is a function here. */
module TaskEdit {
  import opened Util
  import opened Models
  import opened JsText
  import opened Mongo

  // ----- the objective list -----

  /** `addObjective`: one empty objective at the end. */
  function AddObjective(objectives: seq<string>): (r: seq<string>)
    ensures |r| == |objectives| + 1 && r[..|objectives|] == objectives && r[|objectives|] == ""
  {
    objectives + [""]
  }

  /** `removeObjective(index)`, `filter((_, i) => i !== index)`: the objective at `index` leaves,
      the others keep their order; an index outside the list removes nothing. */
  function RemoveObjective(objectives: seq<string>, index: int): (r: seq<string>)
    ensures !(0 <= index < |objectives|) ==> r == objectives
    ensures 0 <= index < |objectives| ==>
      && |r| == |objectives| - 1
      && (forall j :: 0 <= j < index ==> r[j] == objectives[j])
      && (forall j :: index <= j < |r| ==> r[j] == objectives[j + 1])
  {
    if 0 <= index < |objectives| then objectives[..index] + objectives[index + 1..] else objectives
  }

  /** `handleObjectiveChange(index, value)` on a copy of the list. It is only called with the index
      of an objective on screen. */
  function SetObjective(objectives: seq<string>, index: nat, value: string): (r: seq<string>)
    requires index < |objectives|
    ensures |r| == |objectives| && r[index] == value
    ensures forall j :: 0 <= j < |r| && j != index ==> r[j] == objectives[j]
  {
    objectives[index := value]
  }

  /** Removing the objective just added gives the list back. */
  lemma AddThenRemoveObjective(objectives: seq<string>)
    ensures RemoveObjective(AddObjective(objectives), |objectives|) == objectives
  {
  }

  /** Removing an objective discards whatever was typed into it. */
  lemma SetThenRemoveObjective(objectives: seq<string>, index: nat, value: string)
    requires index < |objectives|
    ensures RemoveObjective(SetObjective(objectives, index, value), index) ==
            RemoveObjective(objectives, index)
  {
    var r := RemoveObjective(SetObjective(objectives, index, value), index);
    assert |r| == |objectives| - 1;
  }

  /** `objectives.filter(obj => obj.trim() !== "")`: the objectives a submit sends. */
  function DropBlank(objectives: seq<string>): (r: seq<string>)
    ensures |r| <= |objectives|
    ensures forall i :: 0 <= i < |r| ==> !IsBlank(r[i]) && r[i] in objectives
    ensures forall i :: 0 <= i < |objectives| && !IsBlank(objectives[i]) ==> objectives[i] in r
  {
    assert forall s :: Trim(s) == "" <==> IsBlank(s) by {
      forall s ensures Trim(s) == "" <==> IsBlank(s) {
        TrimEmptyIffBlank(s);
      }
    }
    Filter(objectives, (o: string) => Trim(o) != "")
  }

  /** Cleaning a list whose objectives are all filled in keeps it, order included. */
  lemma DropBlankKeepsFilled(objectives: seq<string>)
    requires forall i :: 0 <= i < |objectives| ==> !IsBlank(objectives[i])
    ensures DropBlank(objectives) == objectives
  {
    forall i | 0 <= i < |objectives| ensures Trim(objectives[i]) != "" {
      TrimEmptyIffBlank(objectives[i]);
    }
    FilterAll(objectives, (o: string) => Trim(o) != "");
  }

  /** An objective added and left empty is not sent. */
  lemma AddThenDropBlank(objectives: seq<string>)
    ensures DropBlank(AddObjective(objectives)) == DropBlank(objectives)
  {
    var p := (o: string) => Trim(o) != "";
    FilterAppend(objectives, [""], p);
    assert Filter([""], p) == [];
  }

  /** Cleaning keeps order and repeats: cleaning two runs of objectives one after the other gives
      the kept objectives of the first run followed by those of the second. */
  lemma DropBlankAppend(a: seq<string>, b: seq<string>)
    ensures DropBlank(a + b) == DropBlank(a) + DropBlank(b)
  {
    FilterAppend(a, b, (o: string) => Trim(o) != "");
  }

  /** A single objective is kept exactly when it is not blank. */
  lemma DropBlankOne(o: string)
    ensures DropBlank([o]) == if IsBlank(o) then [] else [o]
  {
    TrimEmptyIffBlank(o);
    assert [o][1..] == [];
  }

  /** Cleaning twice is cleaning once. */
  lemma DropBlankIdempotent(objectives: seq<string>)
    ensures DropBlank(DropBlank(objectives)) == DropBlank(objectives)
  {
    FilterIdempotent(objectives, (o: string) => Trim(o) != "");
  }

  // ----- the new-task forms -----

  /** The state of a page's new-task form (`newTask`). The user page's form leaves assignee,
      status and type empty; its submit fills them in. */
  datatype TaskForm = TaskForm(
    title: string,
    description: string,
    objectives: seq<string>,
    dueDate: string,
    priority: string,
    assignee: string,
    status: string,
    taskType: string)

  // ----- the detail views' edit form -----

  /** The fields the edit forms set through `handleInputChange`, by their `name` attribute. */
  datatype Field = Title | Description | Priority | Status | DueDate | Assignee | Type

  /** The value of a named field of a task. */
  function GetField(t: Task, f: Field): string
  {
    match f
    case Title => t.title
    case Description => t.description
    case Priority => t.priority
    case Status => t.status
    case DueDate => t.dueDate
    case Assignee => t.assignee
    case Type => t.taskType
  }

  /** `handleInputChange`, `{ ...prev, [name]: value }` on the edited copy: the named field takes
      the value and nothing else changes. */
  function SetField(t: Task, f: Field, value: string): (r: Task)
    ensures GetField(r, f) == value
    ensures forall g: Field :: g != f ==> GetField(r, g) == GetField(t, g)
    ensures r.id == t.id && r.objectives == t.objectives && r.createdAt == t.createdAt
  {
    match f
    case Title => t.(title := value)
    case Description => t.(description := value)
    case Priority => t.(priority := value)
    case Status => t.(status := value)
    case DueDate => t.(dueDate := value)
    case Assignee => t.(assignee := value)
    case Type => t.(taskType := value)
  }

  /** Setting a field to the value it already has changes nothing. */
  lemma SetFieldUnchanged(t: Task, f: Field)
    ensures SetField(t, f, GetField(t, f)) == t
  {
  }

  /** An update body carrying one field. */
  function FieldPatch(f: Field, value: string): TaskPatch
  {
    match f
    case Title => EmptyPatch.(title := Some(value))
    case Description => EmptyPatch.(description := Some(value))
    case Priority => EmptyPatch.(priority := Some(value))
    case Status => EmptyPatch.(status := Some(value))
    case DueDate => EmptyPatch.(dueDate := Some(value))
    case Assignee => EmptyPatch.(assignee := Some(value))
    case Type => EmptyPatch.(taskType := Some(value))
  }

  /** On the server, an update body carrying one field changes that field and nothing else, just
      as the edit form's `handleInputChange` does on the client. */
  lemma MergeOneField(t: Task, f: Field, value: string)
    ensures Merge(t, FieldPatch(f, value)) == SetField(t, f, value)
  {
  }

  /** A detail view: whether its edit form is open, and the edited copy of the task. */
  datatype DetailView = DetailView(editMode: bool, edited: Task)

  /** A detail view as it opens on `task`: not editing, holding a copy of the task. */
  function OpenDetail(task: Task): DetailView
  {
    DetailView(false, task)
  }

  /** `handleSubmit` of a detail view: what it hands to `onUpdate`, and the view afterwards. */
  datatype Saved = Saved(sent: Task, view: DetailView)

  function Save(v: DetailView): (r: Saved)
    ensures !r.view.editMode && r.sent == v.edited && r.view.edited == v.edited
  {
    Saved(v.edited, v.(editMode := false))
  }

  /** The page sends the saved copy whole; `findByIdAndUpdate` then sets every field, so after a
      single edit the stored task is the original with that one field changed. */
  lemma SavedEditIsStored(task: Task, f: Field, value: string)
    ensures var v := OpenDetail(task).(editMode := true);
      var saved := Save(v.(edited := SetField(v.edited, f, value)));
      Merge(task, FullPatch(saved.sent)) == SetField(task, f, value)
  {
    MergeFull(task, SetField(task, f, value));
  }

  /** The value of the date input: `dueDate.split('T')[0]`, the stored date up to its first 'T'. */
  function DueDateInput(dueDate: string): (r: string)
    ensures |r| <= |dueDate| && r == dueDate[..|r|] && 'T' !in r
    ensures |r| < |dueDate| ==> dueDate[|r|] == 'T'
  {
    SplitFirstPiece(dueDate, 'T');
    SplitOn(dueDate, 'T')[0]
  }

  /** A stored ISO timestamp shows its calendar date; a date the input itself produced shows
      unchanged. */
  lemma DueDateOfTimestamp(date: string, time: string)
    requires 'T' !in date
    ensures DueDateInput(date + "T" + time) == date
    ensures DueDateInput(date) == date
  {
    SplitAfterPiece(date, 'T', time);
    assert date + ['T'] + time == date + "T" + time;
    SplitWithoutSep(date, 'T');
  }
}
