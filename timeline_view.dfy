/** The timeline organism: milestones by date, with a status badge, a status label
    and a coloured dot. */
module TimelineView {
  import opened Entities
  import opened Sorting
  import Text

  /** The comparator of `sortedMilestones`: date difference. */
  function ByDate(a: Milestone, b: Milestone): (r: int)
    ensures r < 0 <==> a.date < b.date
    ensures r == 0 <==> a.date == b.date
  {
    a.date - b.date
  }

  /** `sortedMilestones` */
  function SortedMilestones(milestones: seq<Milestone>): (r: seq<Milestone>)
    ensures multiset(r) == multiset(milestones)
  {
    Sort(milestones, ByDate)
  }

  /** The timeline shows its milestones in ascending date order. */
  lemma SortedMilestonesAscending(milestones: seq<Milestone>)
    ensures forall i, j :: 0 <= i < j < |SortedMilestones(milestones)| ==>
      SortedMilestones(milestones)[i].date <= SortedMilestones(milestones)[j].date
  {
    var anyMilestone := (m: Milestone) => true;
    assert ConsistentOn(ByDate, anyMilestone) by {
      forall x, y, z | Chain(ByDate, x, y, z)
        ensures ByDate(x, z) <= 0
      {
      }
    }
    SortSorted(milestones, ByDate, anyMilestone);
    var r := SortedMilestones(milestones);
    forall i, j | 0 <= i < j < |r|
      ensures r[i].date <= r[j].date
    {
      assert ByDate(r[i], r[j]) <= 0;
    }
  }

  /** `getStatusBadge`: completed is success, in-progress warning, anything else info. */
  function StatusBadge(status: string): (v: Variant)
    ensures v == Success <==> status == "completed"
    ensures v == Warning <==> status == "in-progress"
    ensures v == Info <==> status != "completed" && status != "in-progress"
  {
    if status == "completed" then Success
    else if status == "in-progress" then Warning
    else Info
  }

  /** The colour of the timeline dot: success, warning, or primary for anything else. */
  function DotColour(status: string): (v: Variant)
    ensures v in {Success, Warning, Primary}
  {
    if status == "completed" then Success
    else if status == "in-progress" then Warning
    else Primary
  }

  /** The dot and the badge agree, except that the badge's fallback is info and the
      dot's is primary. */
  lemma DotMatchesBadge(status: string)
    ensures DotColour(status) == (if StatusBadge(status) == Info then Primary else StatusBadge(status))
  {
  }

  /** `status.replace('-', ' ')`: only the first hyphen becomes a space. */
  function StatusLabel(status: string): (shown: string)
    ensures |shown| == |status|
  {
    Text.ReplaceFirst(status, '-', ' ')
  }

  /** The first hyphen becomes a space and any later one survives: "in-progress" reads
      "in progress", "a-b-c" reads "a b-c". */
  lemma StatusLabelFirstHyphen(before: string, after: string)
    requires '-' !in before
    ensures StatusLabel(before + "-" + after) == before + " " + after
  {
    Text.ReplaceFirstSplit(before, after, '-', ' ');
  }

  /** A status without a hyphen, such as "pending", is shown as it is. */
  lemma StatusLabelNoHyphen(status: string)
    requires '-' !in status
    ensures StatusLabel(status) == status
  {
    Text.ReplaceFirstAbsent(status, '-', ' ');
  }

}
