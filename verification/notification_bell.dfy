/** The notification bell in the navigation bar: how long ago each
    notification arrived, the unread badge, and what the dropdown shows. */
module NotificationBell {
  import opened Common
  import opened Records

  /** Whole seconds from `criadaEm` to `now`, both in milliseconds, rounded
      down (negative when the notification is dated in the future). */
  function ElapsedSeconds(now: int, criadaEm: int): (d: int)
    ensures 1000 * d <= now - criadaEm < 1000 * (d + 1)
  {
    FloorDiv(now - criadaEm, 1000)
  }

  /** The relative age shown next to a notification. */
  datatype Age = Agora | Minutes(m: int) | Hours(h: int) | Days(d: int)

  /** The age of an elapsed time in seconds: under a minute (future dates
      included) is "agora"; then whole minutes, whole hours, whole days. */
  function AgeOf(diff: int): (a: Age)
    ensures a == Agora <==> diff < 60
    ensures a.Minutes? <==> 60 <= diff < 3600
    ensures a.Hours? <==> 3600 <= diff < 86400
    ensures a.Days? <==> 86400 <= diff
    ensures a.Minutes? ==> 1 <= a.m <= 59 && 60 * a.m <= diff < 60 * (a.m + 1)
    ensures a.Hours? ==> 1 <= a.h <= 23 && 3600 * a.h <= diff < 3600 * (a.h + 1)
    ensures a.Days? ==> 1 <= a.d && 86400 * a.d <= diff < 86400 * (a.d + 1)
  {
    if diff < 60 then Agora
    else if diff < 3600 then Minutes(FloorDiv(diff, 60))
    else if diff < 86400 then Hours(FloorDiv(diff, 3600))
    else Days(FloorDiv(diff, 86400))
  }

  /** The letter after the number of an age other than "agora". */
  function UnitLetter(a: Age): char
  {
    match a
    case Agora => 'a'
    case Minutes(_) => 'm'
    case Hours(_) => 'h'
    case Days(_) => 'd'
  }

  /** The text of an age: "agora", or the number followed by "m", "h" or "d";
      the number reads back as the age's amount. */
  function AgeText(a: Age): (text: string)
    ensures a == Agora ==> text == "agora"
    ensures a != Agora ==>
      && |text| >= 2
      && text[|text| - 1] == UnitLetter(a)
      && ParseInt(text[..|text| - 1]) == Some(Amount(a))
  {
    IntToStringRoundTrip(Amount(a));
    match a
    case Agora => "agora"
    case Minutes(m) => IntToString(m) + "m"
    case Hours(h) => IntToString(h) + "h"
    case Days(d) => IntToString(d) + "d"
  }

  /** The age text of a notification: "agora" exactly when less than a
      minute has passed (or the date is in the future). */
  function TimeSince(now: int, criadaEm: int): (text: string)
    ensures text == "agora" <==> now - criadaEm < 60000
    ensures now - criadaEm >= 60000 ==> |text| >= 2 && text[|text| - 1] in "mhd"
  {
    AgeText(AgeOf(ElapsedSeconds(now, criadaEm)))
  }

  /** Order of the units, for comparing ages. */
  function Unit(a: Age): nat
  {
    match a
    case Agora => 0
    case Minutes(_) => 1
    case Hours(_) => 2
    case Days(_) => 3
  }

  function Amount(a: Age): int
  {
    match a
    case Agora => 0
    case Minutes(m) => m
    case Hours(h) => h
    case Days(d) => d
  }

  /** An older notification never shows a younger age: its unit is at least
      as large, and in the same unit its number is at least as large. */
  lemma AgeMonotone(now: int, older: int, newer: int)
    requires older <= newer
    ensures var a, b := AgeOf(ElapsedSeconds(now, older)), AgeOf(ElapsedSeconds(now, newer));
            Unit(a) >= Unit(b) && (Unit(a) == Unit(b) ==> Amount(a) >= Amount(b))
  {
    var x, y := ElapsedSeconds(now, older), ElapsedSeconds(now, newer);
    assert x >= y by {
      if x < y {
        MulMonotone(1000, x + 1, y);
      }
    }
  }

  /** The unread badge: hidden at zero, the count up to 9, "9+" above. */
  function BadgeLabel(count: int): (r: Option<string>)
    ensures r.Some? <==> count > 0
    ensures count > 9 ==> r == Some("9+")
    ensures 0 < count <= 9 ==> r.Some? && |r.value| == 1 && ParseInt(r.value) == Some(count)
  {
    if count <= 0 then None
    else if count > 9 then Some("9+")
    else
      IntToStringRoundTrip(count);
      Some(IntToString(count))
  }

  /** The dropdown keeps the first five unread notifications, in order. */
  function Kept(naoLidas: seq<Notificacao>): (r: seq<Notificacao>)
    ensures |r| == if |naoLidas| < 5 then |naoLidas| else 5
    ensures r <= naoLidas
  {
    Take(naoLidas, 5)
  }

  datatype Dropdown = Dropdown(markAllShown: bool, emptyMessageShown: bool,
                               items: seq<Notificacao>)

  /** The dropdown: the mark-all button while the unread count is positive,
      the "Nenhuma notificação nova" message when nothing was kept, otherwise
      the kept notifications. */
  function DropdownFor(count: int, kept: seq<Notificacao>): (d: Dropdown)
    ensures d.markAllShown <==> count > 0
    ensures d.emptyMessageShown <==> |kept| == 0
    ensures d.items == kept
  {
    Dropdown(count > 0, |kept| == 0, kept)
  }

  /** The mark-all button appears together with the unread badge. */
  lemma MarkAllWithBadge(count: int, kept: seq<Notificacao>)
    ensures DropdownFor(count, kept).markAllShown <==> BadgeLabel(count).Some?
  {
  }
}
