/**
  The pure derivations of the homework page (client/src/pages/homework-page.tsx):
  the date-range filter, the status toggle and the status label.

  Dates are local-time millisecond timestamps; truncating one to midnight is taking
  its day number. The page reads "today" from the clock, so today's day number and
  weekday (Sunday = 0) are inputs.
 */
module HomeworkPage {
  import opened Wrappers
  import opened Schema
  import opened Seqs
  import opened Text
  import opened Storage
  import opened Routes

  const MsPerDay := 86400000

  /** `d.setHours(0, 0, 0, 0)`: the day a timestamp falls on. */
  function DayOf(t: Timestamp): int {
    t / MsPerDay
  }

  /** What the page reads from `new Date()`: today's day number and its weekday. */
  datatype Today = Today(day: int, weekday: int)

  /** `today.getDay()` is 0 (Sunday) to 6 (Saturday). */
  predicate ValidToday(t: Today) {
    0 <= t.weekday <= 6
  }

  /** `today` moved back by its weekday: the Sunday that starts this week. */
  function WeekStart(t: Today): int {
    t.day - t.weekday
  }

  /** The callback of `homeworks.filter`, for the selected filter. */
  function Keeps(filter: string, t: Today): Homework -> bool {
    (h: Homework) =>
      var due := DayOf(h.data.dueDate);
      if filter == "today" then due == t.day
      else if filter == "yesterday" then due == t.day - 1
      else if filter == "thisWeek" then WeekStart(t) <= due <= t.day
      else if filter == "lastWeek" then WeekStart(t) - 7 <= due <= WeekStart(t) - 1
      else true
  }

  /**
    `filteredHomeworks`: the homeworks whose due day falls in the selected range,
    in fetched order. "thisWeek" runs from this week's Sunday up to today, not to
    the end of the week; "lastWeek" is the seven days before this week's Sunday;
    any other filter keeps everything.
   */
  function FilterHomeworks(hs: seq<Homework>, filter: string, t: Today): (r: seq<Homework>)
    ensures IsSubseq(r, hs)
    ensures filter == "today" ==>
      forall h :: h in r <==> h in hs && DayOf(h.data.dueDate) == t.day
    ensures filter == "yesterday" ==>
      forall h :: h in r <==> h in hs && DayOf(h.data.dueDate) == t.day - 1
    ensures filter == "thisWeek" ==>
      forall h :: h in r <==> h in hs && t.day - t.weekday <= DayOf(h.data.dueDate) <= t.day
    ensures filter == "lastWeek" ==>
      forall h :: h in r <==> h in hs && t.day - t.weekday - 7 <= DayOf(h.data.dueDate) < t.day - t.weekday
    ensures filter !in {"today", "yesterday", "thisWeek", "lastWeek"} ==> r == hs
  {
    FilterIsSubseq(hs, Keeps(filter, t));
    UnknownFilterKeepsAll(hs, filter, t);
    Filter(hs, Keeps(filter, t))
  }

  /** The switch's default case keeps every homework. */
  lemma UnknownFilterKeepsAll(hs: seq<Homework>, filter: string, t: Today)
    ensures filter !in {"today", "yesterday", "thisWeek", "lastWeek"} ==> Filter(hs, Keeps(filter, t)) == hs
  {
    if filter !in {"today", "yesterday", "thisWeek", "lastWeek"} {
      FilterKeepsAll(hs, Keeps(filter, t));
    }
  }

  /** Everything due today is also in this week's list, in the same order. */
  lemma TodayWithinThisWeek(hs: seq<Homework>, t: Today)
    requires ValidToday(t)
    ensures IsSubseq(FilterHomeworks(hs, "today", t), FilterHomeworks(hs, "thisWeek", t))
  {
    FilterMonotone(hs, Keeps("today", t), Keeps("thisWeek", t));
  }

  /** On a Sunday, yesterday (Saturday) is the last day of last week. */
  lemma YesterdayWithinLastWeekOnSunday(hs: seq<Homework>, t: Today)
    requires t.weekday == 0
    ensures IsSubseq(FilterHomeworks(hs, "yesterday", t), FilterHomeworks(hs, "lastWeek", t))
  {
    FilterMonotone(hs, Keeps("yesterday", t), Keeps("lastWeek", t));
  }

  /** Last week and this week never share a homework. */
  lemma LastWeekDisjointFromThisWeek(hs: seq<Homework>, t: Today)
    ensures forall h :: h in FilterHomeworks(hs, "lastWeek", t) ==> h !in FilterHomeworks(hs, "thisWeek", t)
  {
  }

  /** A homework due later this week than today is in neither "today" nor "thisWeek". */
  lemma LaterThisWeekExcluded(hs: seq<Homework>, t: Today, h: Homework)
    requires DayOf(h.data.dueDate) > t.day
    ensures h !in FilterHomeworks(hs, "today", t) && h !in FilterHomeworks(hs, "thisWeek", t)
  {
  }

  // ----- Status toggle -----

  /** `handleStatusChange`: "completed" becomes "pending", anything else (also a missing status) "completed". */
  function NextStatus(current: Option<string>): (r: string)
    ensures r == "pending" <==> current == Some("completed")
    ensures r == "completed" <==> current != Some("completed")
  {
    if current == Some("completed") then "pending" else "completed"
  }

  /** Toggling twice restores a status that is "pending" or "completed". */
  lemma ToggleTwice(current: Option<string>)
    requires current == Some("pending") || current == Some("completed")
    ensures Some(NextStatus(Some(NextStatus(current)))) == current
  {
  }

  /**
    The status the page sends always passes the route's whitelist, and the id it
    writes into the URL parses back to the record's id, so toggling a stored
    homework answers 200 with that homework's status flipped.
   */
  lemma TogglePatchSucceeds(s: MemStorage, h: Homework)
    requires Invariant(s) && h in s.homeworks.rows
    ensures var r := PatchHomeworkStatus(s, NatToString(h.id), Some(NextStatus(h.data.status)));
            r.0 == Json(200, Entity(h.id, h.data.(status := Some(NextStatus(h.data.status))))) &&
            r.1.homeworks.rows[h.id - 1].data.status == Some(NextStatus(h.data.status))
  {
    ParseIntNatToString(h.id);
    var i :| 0 <= i < |s.homeworks.rows| && s.homeworks.rows[i] == h;
    assert h.id == i + 1;
  }

  // ----- Status label -----

  /**
    The badge: "Completed" for a completed homework; otherwise "Overdue" once the
    due timestamp itself (not its day) is before now, and "Due Soon" before that.
   */
  function StatusLabel(status: Option<string>, dueDate: Timestamp, now: Timestamp): (r: string)
    ensures r == "Completed" || r == "Overdue" || r == "Due Soon"
    ensures r == "Completed" <==> status == Some("completed")
    ensures r == "Overdue" <==> status != Some("completed") && dueDate < now
    ensures r == "Due Soon" <==> status != Some("completed") && now <= dueDate
  {
    if status == Some("completed") then "Completed"
    else if dueDate < now then "Overdue"
    else "Due Soon"
  }

  /** The switch is on exactly when the label says "Completed", and one toggle flips both. */
  lemma LabelFollowsToggle(status: Option<string>, dueDate: Timestamp, now: Timestamp)
    ensures StatusLabel(Some(NextStatus(status)), dueDate, now) == "Completed" <==>
            StatusLabel(status, dueDate, now) != "Completed"
  {
  }

  /** A pending homework due on a later day than today is never shown as overdue. */
  lemma LaterDayNeverOverdue(status: Option<string>, dueDate: Timestamp, now: Timestamp)
    requires DayOf(now) < DayOf(dueDate)
    ensures StatusLabel(status, dueDate, now) != "Overdue"
  {
  }
}
