/** The operation status badge that `js/history.js` and `js/main.js` both
    draw: a CSS class and a caption per status, with a fallback for any
    status outside the three known ones. */
module StatusBadge {

  /** The statuses the pages know by name. */
  predicate Known(status: string)
  {
    status == "completed" || status == "pending" || status == "cancelled"
  }

  /** `getStatusClass(status)`. */
  function StatusClass(status: string): (r: string)
    ensures !Known(status) ==> r == "status-pending"
    ensures Known(status) ==> r == "status-" + status
  {
    match status
    case "completed" => "status-completed"
    case "pending" => "status-pending"
    case "cancelled" => "status-cancelled"
    case _ => "status-pending"
  }

  const UnknownText := "Неизвестно"

  /** `getStatusText(status)`. */
  function StatusText(status: string): (r: string)
    ensures !Known(status) ==> r == UnknownText
    ensures status == "completed" ==> r == "Завершено"
    ensures status == "pending" ==> r == "В обработке"
    ensures status == "cancelled" ==> r == "Отменено"
  {
    match status
    case "completed" => "Завершено"
    case "pending" => "В обработке"
    case "cancelled" => "Отменено"
    case _ => UnknownText
  }

  /** The caption names the status: 'Неизвестно' appears exactly for the
      unknown ones, and statuses with one caption share one class.  An
      unknown status is drawn in the colour of a pending one but with its
      own caption. */
  lemma CaptionDeterminesClass(a: string, b: string)
    ensures StatusText(a) == UnknownText <==> !Known(a)
    ensures StatusText(a) == StatusText(b) ==> StatusClass(a) == StatusClass(b)
    ensures !Known(a) ==> StatusClass(a) == StatusClass("pending") && StatusText(a) != StatusText("pending")
  {
  }
}
