/** The report row produced by the query engine and the badge classification
    the HTML report applies to each row's score. */
module Reports {

  /** One reported IP address as it appears in the final report. */
  datatype ReportRow = ReportRow(
    ipAddress: string,
    countryName: string,
    numReports: int,
    abuseConfidenceScore: int,
    lastReportedAt: string)

  /** The Bootstrap badge colour chosen for an abuse confidence score. */
  function ScoreClass(score: int): (badge: string)
    ensures badge == "danger" <==> score >= 75
    ensures badge == "warning" <==> 50 <= score < 75
    ensures badge == "info" <==> 0 < score < 50
    ensures badge == "secondary" <==> score <= 0
  {
    if score >= 75 then "danger"
    else if score >= 50 then "warning"
    else if score > 0 then "info"
    else "secondary"
  }

  /** How alarming a badge is: secondary < info < warning < danger.
      Any other text ranks below all four. */
  function Severity(badge: string): int
  {
    if badge == "danger" then 3
    else if badge == "warning" then 2
    else if badge == "info" then 1
    else if badge == "secondary" then 0
    else -1
  }

  /** Every score gets one of the four badges, and a higher score never gets a
      less alarming badge than a lower one. */
  lemma ScoreClassMonotone(lo: int, hi: int)
    requires lo <= hi
    ensures 0 <= Severity(ScoreClass(lo)) <= Severity(ScoreClass(hi)) <= 3
  {
  }
}
