/** How the admin site lists notifications: the message column is shortened
    to a summary. */
module AdminDisplay {

  /** Messages longer than this are cut in the summary column. */
  const SummaryWidth: nat := 50

  function Min(a: int, b: int): int {
    if a <= b then a else b
  }

  /** NotificationAdmin.message_summary: a message of at most 50 characters is
      shown whole; a longer one as its first 50 characters followed by "...". */
  function MessageSummary(message: string): (summary: string)
    ensures |message| <= SummaryWidth ==> summary == message
    ensures |message| > SummaryWidth ==> summary == message[..SummaryWidth] + "..."
    ensures |summary| <= SummaryWidth + 3
    ensures |summary| >= Min(SummaryWidth, |message|)
    ensures summary[..Min(SummaryWidth, |message|)] == message[..Min(SummaryWidth, |message|)]
  {
    if |message| > SummaryWidth then message[..SummaryWidth] + "..." else message
  }
}
