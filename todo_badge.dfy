/** src/core/components/todo/TodoBadge.tsx: the due-date badge's label and
    colour. The display format (DD/MM/YYYY) and the day comparisons against
    the clock are inputs here. */
module TodoBadge {

  const FutureCompletedColor := "primary.main"
  const PresentColor := "primary.success"
  const PastColor := "error.main"

  datatype Badge = Badge(text: string, color: string)

  /** Label and colour from the completion flag, whether the due date is
      today and whether it is past; `formatted` is the displayed date. */
  function BadgeFor(isCompleted: bool, isToday: bool, isPast: bool, formatted: string): (b: Badge)
    ensures isCompleted ==> b == Badge(formatted, FutureCompletedColor)
    ensures !isCompleted && isToday ==> b == Badge("Today", PresentColor)
    ensures !isCompleted && !isToday && isPast ==> b == Badge("Overdue - " + formatted, PastColor)
    ensures !isCompleted && !isToday && !isPast ==> b == Badge(formatted, FutureCompletedColor)
  {
    if !isCompleted then
      if isToday then Badge("Today", PresentColor)
      else if isPast then Badge("Overdue - " + formatted, PastColor)
      else Badge(formatted, FutureCompletedColor)
    else Badge(formatted, FutureCompletedColor)
  }

  /** The error colour appears exactly for an incomplete todo that is past
      and not due today, and the success colour exactly for an incomplete
      todo due today. */
  lemma BadgeColors(isCompleted: bool, isToday: bool, isPast: bool, formatted: string)
    ensures BadgeFor(isCompleted, isToday, isPast, formatted).color == PastColor <==> !isCompleted && !isToday && isPast
    ensures BadgeFor(isCompleted, isToday, isPast, formatted).color == PresentColor <==> !isCompleted && isToday
  {
  }
}
