/**
 * The alert record every component of the dashboard receives, and the
 * severity scale shared by the table and the severity chart.
 */
module Alerts {

  datatype Option<T> = None | Some(value: T)

  /**
   * One intrusion-detection alert. `timestamp` is the instant the record's
   * ISO-8601 string denotes, in milliseconds since the Unix epoch.
   */
  datatype Alert = Alert(
    timestamp: int,
    srcIp: string,
    destIp: string,
    destPort: int,
    proto: string,
    category: string,
    severity: int)

  /** The severity scale: 1 is the most severe, 4 the least. */
  predicate IsKnownSeverity(severity: int)
  {
    1 <= severity <= 4
  }

  /** The table's badge text for a severity; anything off the scale reads "Unknown". */
  function SeverityLabel(severity: int): (r: string)
    ensures r == "Unknown" <==> !IsKnownSeverity(severity)
  {
    match severity
    case 1 => "Critical"
    case 2 => "High"
    case 3 => "Medium"
    case 4 => "Low"
    case _ => "Unknown"
  }

  /** Distinct severities on the scale get distinct labels. */
  lemma SeverityLabelInjective(s: int, t: int)
    requires IsKnownSeverity(s) && IsKnownSeverity(t) && SeverityLabel(s) == SeverityLabel(t)
    ensures s == t
  {
  }
}
