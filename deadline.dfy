/**
 * How a mission card classifies its due date against the current instant:
 * overdue, due within a day, or neither.
 */
module Deadline {
  import opened Wrappers
  import opened Quests

  /** Milliseconds in a day. */
  const DayMs: int := 24 * 60 * 60 * 1000

  /**
   * `isOverdue`: the mission has a due instant, the current instant is past
   * it, and it is not completed. `due` is the parsed due date, None when
   * the mission has none.
   */
  predicate IsOverdue(due: Option<Time>, completed: bool, now: Time) {
    due.Some? && now > due.value && !completed
  }

  /** `isNearDue`: not overdue, not completed, and less than a day ahead. */
  predicate IsNearDue(due: Option<Time>, completed: bool, now: Time) {
    due.Some? && !IsOverdue(due, completed, now) && !completed && due.value - now < DayMs
  }

  datatype Urgency = Done | Overdue | NearDue | OnTime

  /** The look of the card: a completed mission first, then an overdue one. */
  function Classify(due: Option<Time>, completed: bool, now: Time): (u: Urgency)
    ensures u == Done <==> completed
    ensures u == Overdue <==> IsOverdue(due, completed, now)
    ensures u == NearDue <==> IsNearDue(due, completed, now)
  {
    if completed then Done
    else if IsOverdue(due, completed, now) then Overdue
    else if IsNearDue(due, completed, now) then NearDue
    else OnTime
  }

  /** A mission is near its due date exactly when that date lies in the coming day. */
  lemma NearDueWindow(due: Option<Time>, completed: bool, now: Time)
    ensures IsNearDue(due, completed, now) <==> !completed && due.Some? && now <= due.value < now + DayMs
  {
  }

  /** Time only moves a pending mission towards being overdue: once overdue it stays so. */
  lemma OverdueStays(due: Option<Time>, now: Time, later: Time)
    requires now <= later
    requires IsOverdue(due, false, now)
    ensures IsOverdue(due, false, later)
  {
  }
}
