/**
  The status label of a class card on the live-classes page
  (client/src/pages/live-classes-page.tsx, `getStatusLabel`).

  Times are millisecond timestamps; the clock reading and the "h:mm a" formatter
  are parameters.
 */
module LiveClassesPage {
  import opened Wrappers
  import opened Text

  const MsPerMinute := 60000

  /**
    `Math.round(diffMs / 60000)`: the nearest whole number of minutes, halves
    rounded up, which on integers is adding half a minute and taking the floor.
   */
  function DiffMins(diffMs: int): (r: int)
    ensures r * MsPerMinute - 30000 <= diffMs < r * MsPerMinute + 30000
  {
    (diffMs + 30000) / MsPerMinute
  }

  /** Rounding is monotone: a later start never gives fewer minutes. */
  lemma DiffMinsMonotone(a: int, b: int)
    requires a <= b
    ensures DiffMins(a) <= DiffMins(b)
  {
  }

  /**
    A live class says "Live Now" whatever its times. Otherwise a start that rounds
    to 0..59 minutes from now says "In N mins"; a start in the past or an hour or
    more away shows the formatted start time.
   */
  function StatusLabel(status: Option<string>, startTime: int, now: int, format: int -> string): (r: string)
    ensures status == Some("live") ==> r == "Live Now"
    ensures status != Some("live") && (startTime - now < -30000 || startTime - now >= 3570000) ==>
      r == format(startTime)
    ensures status != Some("live") && -30000 <= startTime - now < 3570000 ==>
      exists n :: 0 <= n < 60 && r == "In " + NatToString(n) + " mins" &&
                  n * MsPerMinute - 30000 <= startTime - now < n * MsPerMinute + 30000
  {
    if status == Some("live") then "Live Now"
    else
      var diffMins := DiffMins(startTime - now);
      if diffMins < 0 then format(startTime)
      else if diffMins < 60 then "In " + NatToString(diffMins) + " mins"
      else format(startTime)
  }

  /** The countdown only goes down: as the clock moves on, the minutes shown never increase. */
  lemma CountdownNeverIncreases(startTime: int, now1: int, now2: int, n1: nat, n2: nat)
    requires now1 <= now2
    requires n1 < 60 && n2 < 60
    requires n1 * MsPerMinute - 30000 <= startTime - now1 < n1 * MsPerMinute + 30000
    requires n2 * MsPerMinute - 30000 <= startTime - now2 < n2 * MsPerMinute + 30000
    ensures n2 <= n1
  {
    assert DiffMins(startTime - now1) == n1;
    assert DiffMins(startTime - now2) == n2;
    DiffMinsMonotone(startTime - now2, startTime - now1);
  }
}
