/** The summary card of the results page: an overall status chosen by the
    worst severity present, its icon, and the issue count's noun. */
module SummaryCard {
  import opened Wrappers

  /** The four overall statuses. */
  datatype SecurityStatus = Critical | Warning | MinorIssues | Secure
  {
    /** The text the card shows, which is also the key of the icon switch. */
    function Text(): string
    {
      match this
      case Critical => "Critical"
      case Warning => "Warning"
      case MinorIssues => "Minor Issues"
      case Secure => "Secure"
    }
  }

  /** `getSecurityStatus`: the first non-zero count, from high to low,
      decides. Counts are compared with `> 0`, so negative counts count as
      absent. */
  function GetSecurityStatus(high: int, medium: int, low: int): (s: SecurityStatus)
    ensures s == Critical <==> high > 0
    ensures s == Warning <==> high <= 0 && medium > 0
    ensures s == MinorIssues <==> high <= 0 && medium <= 0 && low > 0
    ensures s == Secure <==> high <= 0 && medium <= 0 && low <= 0
  {
    if high > 0 then Critical
    else if medium > 0 then Warning
    else if low > 0 then MinorIssues
    else Secure
  }

  datatype IconShape = AlertCircle | AlertTriangle | InfoIcon | CheckCircle
  datatype Icon = Icon(shape: IconShape, color: string)

  /** `getStatusIcon`'s switch over the status text. It has no default
      branch, so any other text renders nothing. */
  function StatusIcon(status: string): (icon: Option<Icon>)
    ensures icon.Some? <==> status in {"Critical", "Warning", "Minor Issues", "Secure"}
    ensures status == "Critical" ==> icon == Some(Icon(AlertCircle, "text-red-500"))
    ensures status == "Warning" ==> icon == Some(Icon(AlertTriangle, "text-yellow-500"))
    ensures status == "Minor Issues" ==> icon == Some(Icon(InfoIcon, "text-blue-500"))
    ensures status == "Secure" ==> icon == Some(Icon(CheckCircle, "text-green-500"))
  {
    match status
    case "Critical" => Some(Icon(AlertCircle, "text-red-500"))
    case "Warning" => Some(Icon(AlertTriangle, "text-yellow-500"))
    case "Minor Issues" => Some(Icon(InfoIcon, "text-blue-500"))
    case "Secure" => Some(Icon(CheckCircle, "text-green-500"))
    case _ => None
  }

  /** Every status the card can compute has an icon, and different statuses
      get different icons. */
  lemma IconTotal(s: SecurityStatus, t: SecurityStatus)
    ensures StatusIcon(s.Text()).Some?
    ensures s != t ==> StatusIcon(s.Text()) != StatusIcon(t.Text())
  {
  }

  /** The status text tells the statuses apart. */
  lemma TextInjective(s: SecurityStatus, t: SecurityStatus)
    ensures s.Text() == t.Text() <==> s == t
  {
  }

  /** How bad a status is, from `Secure` up to `Critical`. */
  function Rank(s: SecurityStatus): (rank: nat)
    ensures rank <= 3
    ensures rank == 0 <==> s == Secure
  {
    match s
    case Secure => 0
    case MinorIssues => 1
    case Warning => 2
    case Critical => 3
  }

  /** Raising a count never makes the status look better: the status ranks
      the worst severity present. */
  lemma StatusMonotone(h: int, m: int, l: int, h2: int, m2: int, l2: int)
    requires h <= h2 && m <= m2 && l <= l2
    ensures Rank(GetSecurityStatus(h, m, l)) <= Rank(GetSecurityStatus(h2, m2, l2))
  {
  }

  /** The noun after the issue count: singular exactly for one issue, so
      zero issues are "issues". */
  function IssueWord(totalIssues: int): (word: string)
    ensures word == "issue" <==> totalIssues == 1
    ensures word == "issues" <==> totalIssues != 1
  {
    if totalIssues == 1 then "issue" else "issues"
  }
}
