/**
 * The project status badges and labels of the user's project list
 * (src/pages/UserDashboard.jsx) and of the admin table
 * (src/pages/ProjectManagement.jsx). A project's status is one of four
 * strings; anything else falls to each switch's default case.
 */
module UserDashboard {
  import opened Strings

  /** The four statuses a project moves through. */
  const Statuses: seq<string> := ["ASSIGNED", "UNDERREVIEW", "APPROVED", "REJECTED"]

  /** The badge classes of a status no case names. */
  const GrayClasses := "bg-gray-100 text-gray-800"

  /** `getStatusColor`: blue, yellow, green and red badges for the four
      statuses, gray for anything else. */
  function StatusColor(status: string): (classes: string)
    ensures classes == GrayClasses <==> status !in Statuses
  {
    if status == "ASSIGNED" then "bg-blue-100 text-blue-800"
    else if status == "UNDERREVIEW" then "bg-yellow-100 text-yellow-800"
    else if status == "APPROVED" then "bg-green-100 text-green-800"
    else if status == "REJECTED" then "bg-red-100 text-red-800"
    else GrayClasses
  }

  /** `getStatusText`: a readable label for the four statuses; any other
      status is shown as it is. */
  function StatusText(status: string): (text: string)
    ensures status !in Statuses ==> text == status
    ensures status in Statuses ==> text != status && text !in Statuses
  {
    if status == "ASSIGNED" then "Assigned"
    else if status == "UNDERREVIEW" then "Under Review"
    else if status == "APPROVED" then "Approved"
    else if status == "REJECTED" then "Rejected"
    else status
  }

  /** Different statuses get different badges and different labels, so a
      badge identifies its status. */
  lemma StatusesDistinguished(s: string, t: string)
    requires s in Statuses && t in Statuses && s != t
    ensures StatusColor(s) != StatusColor(t)
    ensures StatusText(s) != StatusText(t)
  {
  }

  /** The denominator of "Progress: n / m": the number of comma-separated
      pieces of the list, which is one more than its commas, so never 0. */
  function ProgressDenominator(totalNumbers: string): (pieces: nat)
    ensures pieces >= 1 && pieces == Count(totalNumbers, ',') + 1
  {
    SplitLength(totalNumbers, ',');
    |Split(totalNumbers, ',')|
  }

  /** "Total: n project", with an "s" unless there is exactly one. */
  function TotalLabel(total: nat): (line: string)
    ensures |line| > 7 && line[..7] == "Total: "
    ensures line[|line| - 1] == 's' <==> total != 1
  {
    "Total: " + Decimal(total) + " project" + (if total != 1 then "s" else "")
  }

  /** The line is plural exactly when the total is not 1, and it carries
      the total in decimal. */
  lemma TotalLabelPlural(total: nat)
    ensures var line := TotalLabel(total);
            && (line[|line| - 1] == 's' <==> total != 1)
            && line[..7] == "Total: "
            && DigitsValue(line[7..7 + |Decimal(total)|]) == total
  {
    var line := TotalLabel(total);
    var d := Decimal(total);
    DecimalValue(total);
    assert line[7..7 + |d|] == d;
  }
}

module ProjectManagement {
  import UserDashboard

  /** `getStatusColor` of the admin table. */
  function StatusColor(status: string): (classes: string)
    ensures classes == UserDashboard.GrayClasses <==> status !in UserDashboard.Statuses
  {
    if status == "ASSIGNED" then "bg-blue-100 text-blue-800"
    else if status == "UNDERREVIEW" then "bg-yellow-100 text-yellow-800"
    else if status == "APPROVED" then "bg-green-100 text-green-800"
    else if status == "REJECTED" then "bg-red-100 text-red-800"
    else UserDashboard.GrayClasses
  }

  /** The admin table and the user's list colour every status alike. */
  lemma SameColoursAsDashboard(status: string)
    ensures StatusColor(status) == UserDashboard.StatusColor(status)
  {
  }

  /** An entry of the status selector: the value sent and the caption shown. */
  datatype StatusOption = StatusOption(value: string, caption: string)

  const StatusOptions: seq<StatusOption> := [
    StatusOption("ASSIGNED", "Assigned"),
    StatusOption("UNDERREVIEW", "Under Review"),
    StatusOption("APPROVED", "Approved"),
    StatusOption("REJECTED", "Rejected")
  ]

  /** The selector offers exactly the four statuses, in order, each labelled
      as the user's list labels it. */
  lemma StatusOptionsMatchStatuses()
    ensures |StatusOptions| == |UserDashboard.Statuses|
    ensures forall i :: 0 <= i < |StatusOptions| ==>
      && StatusOptions[i].value == UserDashboard.Statuses[i]
      && StatusOptions[i].caption == UserDashboard.StatusText(StatusOptions[i].value)
  {
  }
}
