/**
 * Mission documents as the store holds them (`hunters/{id}/tasks/{taskId}`),
 * the mission form, and the three field-level writes the planner makes to a
 * mission: creation (`addDoc`), edit (`updateDoc` merging the form fields) and
 * the completion toggle (`updateDoc` of `completed` and `completedAt`).
 */
module Quests {
  import opened Wrappers

  /** Timestamps: the source stores `new Date().toISOString()`; the model uses milliseconds. */
  type Time = int

  type TaskId = string

  /**
   * A stored mission. `stars` is the difficulty; 0 stands for any value that
   * JavaScript treats as false (a missing field, `NaN`, 0).
   */
  datatype Quest = Quest(
    name: string,
    details: string,
    stars: nat,
    monsterIcon: string,
    dueDate: Option<string>,
    completed: bool,
    completedAt: Option<Time>,
    createdAt: Time,
    updatedAt: Option<Time>)

  /** A mission as the list view holds it: `{ id: d.id, ...d.data() }`. */
  datatype Task = Task(id: TaskId, doc: Quest)

  /** The mission form; `stars` is the value chosen in the 1..9 selector, `dueDate` the raw input text. */
  datatype TaskForm = TaskForm(
    name: string,
    details: string,
    stars: int,
    monsterIcon: string,
    dueDate: string)

  /** The completion invariant: a mission is completed exactly when it carries a completion time. */
  predicate Consistent(q: Quest) {
    q.completed <==> q.completedAt.Some?
  }

  /** `formTask.dueDate || null`: the empty input is stored as null. */
  function DueField(input: string): (due: Option<string>)
    ensures due.None? <==> input == []
    ensures due.Some? ==> due.value == input
  {
    if input == [] then None else Some(input)
  }

  /** The content fields that the form writes. */
  predicate HasFormContent(q: Quest, form: TaskForm) {
    && q.name == form.name
    && q.details == form.details
    && q.stars == form.stars
    && q.monsterIcon == form.monsterIcon
    && q.dueDate == DueField(form.dueDate)
  }

  /** The document `addDoc` stores for a new mission. */
  function NewQuest(form: TaskForm, now: Time): (q: Quest)
    requires 1 <= form.stars <= 9
    ensures HasFormContent(q, form)
    ensures !q.completed && Consistent(q)
    ensures q.createdAt == now && q.updatedAt.None?
  {
    Quest(form.name, form.details, form.stars, form.monsterIcon, DueField(form.dueDate),
          false, None, now, None)
  }

  /** The document after `updateDoc` merges the form fields and `updatedAt` into it. */
  function Edited(q: Quest, form: TaskForm, now: Time): (r: Quest)
    requires 1 <= form.stars <= 9
    ensures HasFormContent(r, form) && r.updatedAt == Some(now)
    ensures r.completed == q.completed && r.completedAt == q.completedAt && r.createdAt == q.createdAt
    ensures Consistent(q) ==> Consistent(r)
  {
    q.(name := form.name, details := form.details, stars := form.stars,
       monsterIcon := form.monsterIcon, dueDate := DueField(form.dueDate), updatedAt := Some(now))
  }

  /**
   * The document after the toggle's `updateDoc`. `isCompleting` is the negation
   * of the `completed` flag that the list view showed for the mission.
   */
  function Toggled(q: Quest, isCompleting: bool, now: Time): (r: Quest)
    ensures r.completed == isCompleting && Consistent(r)
    ensures r.completedAt == if isCompleting then Some(now) else None
    ensures r.(completed := q.completed, completedAt := q.completedAt) == q
  {
    q.(completed := isCompleting, completedAt := if isCompleting then Some(now) else None)
  }

  /** Toggling from a view that is in step with the store flips the flag. */
  lemma ToggleFlips(q: Quest, now: Time)
    ensures Toggled(q, !q.completed, now).completed == !q.completed
  {
  }

  /**
   * Toggling twice restores the flag, and restores the completion time only
   * for a mission that was open: a completed mission gets the second call's time.
   */
  lemma ToggleTwice(q: Quest, t1: Time, t2: Time)
    requires Consistent(q)
    ensures var once := Toggled(q, !q.completed, t1);
      var twice := Toggled(once, !once.completed, t2);
      && twice.completed == q.completed
      && (!q.completed ==> twice == q)
      && (q.completed ==> twice == q.(completedAt := Some(t2)))
  {
  }

  /** A concrete case where the completion time is not restored. */
  lemma ToggleTwiceLosesCompletionTime(q: Quest)
    requires q.completed && q.completedAt == Some(5)
    ensures var once := Toggled(q, false, 7);
      Toggled(once, true, 9).completedAt != q.completedAt
  {
  }

  /** Edits and toggles write disjoint fields, so their order does not matter. */
  lemma EditToggleCommute(q: Quest, form: TaskForm, isCompleting: bool, t1: Time, t2: Time)
    requires 1 <= form.stars <= 9
    ensures Edited(Toggled(q, isCompleting, t1), form, t2) == Toggled(Edited(q, form, t2), isCompleting, t1)
  {
  }

  /** The icon a mission without one is shown and edited with. */
  const DefaultIcon: string := "Great_Jagras_Icon.webp"

  /**
   * `startEditTask`: the form filled from a mission, with an empty due date
   * and the default icon standing in for missing ones.
   */
  function EditForm(q: Quest): (form: TaskForm)
    ensures form.name == q.name && form.details == q.details && form.stars == q.stars
    ensures form.monsterIcon == if q.monsterIcon == [] then DefaultIcon else q.monsterIcon
    ensures DueField(form.dueDate) == if q.dueDate == Some([]) then None else q.dueDate
  {
    TaskForm(q.name, q.details, q.stars, if q.monsterIcon == [] then DefaultIcon else q.monsterIcon,
             match q.dueDate case None => [] case Some(d) => d)
  }

  /**
   * Opening a mission for editing and saving the form untouched only stamps
   * `updatedAt`, provided the mission has an icon, a due date that is not
   * the empty text and a star count the selector offers.
   */
  lemma SaveUnchangedEdit(q: Quest, now: Time)
    requires 1 <= q.stars <= 9 && q.monsterIcon != [] && q.dueDate != Some([])
    ensures Edited(q, EditForm(q), now) == q.(updatedAt := Some(now))
  {
  }

  /** A mission without an icon picks up the default icon when it is saved from the edit form. */
  lemma SaveEditFillsIcon(q: Quest, now: Time)
    requires 1 <= q.stars <= 9 && q.monsterIcon == []
    ensures Edited(q, EditForm(q), now).monsterIcon == DefaultIcon
  {
  }

  /** The ids of a list of missions. */
  function TaskIds(ts: seq<Task>): (ids: set<TaskId>)
    ensures forall t :: t in ts ==> t.id in ids
    ensures forall id :: id in ids ==> exists t :: t in ts && t.id == id
  {
    set t | t in ts :: t.id
  }
}
