/** The kanban board (components/kanban-board.tsx): one column per status, the
    skills each column holds, and the store call a finished drag makes. */
module Kanban {
  import opened Types
  import opened Seqs
  import Store
  import Dashboard
  import AllSkills

  datatype Column = Column(id: Status, title: string, color: string)

  /** The fixed columns, in pipeline order. */
  const Columns: seq<Column> := [
    Column(ToLearn, "To Learn", "bg-gray-100"),
    Column(Learning, "Learning", "bg-blue-100"),
    Column(Practiced, "Practiced", "bg-yellow-100"),
    Column(Mastered, "Mastered", "bg-green-100")
  ]

  /** The columns are the four statuses in pipeline order, one each, titled with
      the labels the all-skills page uses. */
  lemma ColumnsAreStatuses()
    ensures |Columns| == |AllStatuses|
    ensures forall i :: 0 <= i < |Columns| ==> Columns[i].id == AllStatuses[i]
    ensures forall i :: 0 <= i < |Columns| ==> Columns[i].title == AllSkills.StatusLabel(Columns[i].id)
    ensures forall i, j :: 0 <= i < j < |Columns| ==> Columns[i].id != Columns[j].id
  {
  }

  /** The one column a status is shown in. */
  function ColumnIndex(s: Status): (i: nat)
    ensures i < |Columns| && Columns[i].id == s
    ensures forall j :: 0 <= j < |Columns| && Columns[j].id == s ==> j == i
  {
    match s
    case ToLearn => 0
    case Learning => 1
    case Practiced => 2
    case Mastered => 3
  }

  /** The board, the dashboard's status pie and the all-skills cards name the
      statuses alike, and the pie's slice for a status is that column's badge. */
  lemma ViewsAgree(skills: seq<Skill>)
    ensures var slices := Dashboard.AllSlices(Dashboard.ComputeStats(skills));
            && |slices| == |Columns|
            && forall i :: 0 <= i < |Columns| ==>
                 slices[i].name == Columns[i].title == AllSkills.StatusLabel(Columns[i].id)
                 && slices[i].value == Badge(skills, Columns[i])
  {
    var stats := Dashboard.ComputeStats(skills);
    var slices := Dashboard.AllSlices(stats);
    forall i | 0 <= i < |Columns|
      ensures slices[i].name == Columns[i].title == AllSkills.StatusLabel(Columns[i].id)
      ensures slices[i].value == Badge(skills, Columns[i])
    {
      var c := Columns[i];
      assert slices[i].value == Dashboard.StatusCount(skills, c.id) by {
        if i == 0 { assert c.id == ToLearn; }
        else if i == 1 { assert c.id == Learning; }
        else if i == 2 { assert c.id == Practiced; }
        else { assert c.id == Mastered; }
      }
    }
  }

  /** `getSkillsByStatus`: the column's cards, in store order. */
  function ColumnSkills(skills: seq<Skill>, status: Status): (r: seq<Skill>)
    ensures forall s :: s in r <==> s in skills && s.status == status
    ensures forall s :: multiset(r)[s] == if s.status == status then multiset(skills)[s] else 0
    ensures IsSubseq(r, skills)
  {
    FilterIsSubseq(skills, Store.HasStatus(status));
    Filter(skills, Store.HasStatus(status))
  }

  /** A column's badge: the number of cards in it. */
  function Badge(skills: seq<Skill>, c: Column): (r: nat)
    ensures r == Dashboard.StatusCount(skills, c.id)
  {
    |ColumnSkills(skills, c.id)|
  }

  /** Every skill lands in exactly one column, so the badges add up to the number of skills. */
  lemma BadgesSumToTotal(skills: seq<Skill>)
    ensures Badge(skills, Columns[0]) + Badge(skills, Columns[1])
          + Badge(skills, Columns[2]) + Badge(skills, Columns[3]) == |skills|
    ensures forall s :: s in skills ==> s in ColumnSkills(skills, Columns[ColumnIndex(s.status)].id)
  {
    Dashboard.StatusCountsSum(skills);
    ColumnsAreStatuses();
  }

  /** Where a card was picked up or dropped: a column and a position in it. */
  datatype Location = Location(droppableId: Status, index: int)

  datatype DropResult = DropResult(draggableId: string, source: Location, destination: Option<Location>)

  /** The store call a drag makes. */
  datatype DragCall = NoUpdate | UpdateStatus(id: string, status: Status)

  /** `handleDragEnd`: nothing for a drop outside the columns or back on the spot it
      came from; otherwise set the dragged skill's status to the target column. */
  function HandleDragEnd(result: DropResult): (r: DragCall)
    ensures result.destination.None? ==> r == NoUpdate
    ensures result.destination.Some? && result.destination.value == result.source ==> r == NoUpdate
    ensures result.destination.Some? && result.destination.value != result.source ==>
              r == UpdateStatus(result.draggableId, result.destination.value.droppableId)
  {
    match result.destination
    case None => NoUpdate
    case Some(d) =>
      if d.droppableId == result.source.droppableId && d.index == result.source.index then NoUpdate
      else UpdateStatus(result.draggableId, d.droppableId)
  }

  /** The update a drag call hands to the store: the status and nothing else. */
  function PatchOf(status: Status): Store.SkillPatch
  {
    Store.NoChanges.(status := Put(status))
  }

  /** The state after a drag, given the clock reading and the fresh log id. */
  function ApplyDrag(st: Store.State, result: DropResult, now: string, logId: string, logTime: string): (r: Store.State)
    ensures HandleDragEnd(result).NoUpdate? ==> r == st
  {
    match HandleDragEnd(result)
    case NoUpdate => st
    case UpdateStatus(id, status) => Store.UpdateSkill(st, id, PatchOf(status), now, logId, logTime)
  }

  /** Reordering a card within its column keeps its status but still logs
      `status_changed` through the store. */
  lemma ReorderStillLogs(st: Store.State, i: int, from: int, to: int, now: string, logId: string, logTime: string)
    requires 0 <= i < |st.skills| && from != to
    ensures var s := st.skills[i];
            var result := DropResult(s.id, Location(s.status, from), Some(Location(s.status, to)));
            var r := ApplyDrag(st, result, now, logId, logTime);
            && r.skills[i].status == s.status
            && Store.Pushed(st.activityLogs, r.activityLogs, Store.StatusChangedEntry(s.id, s.status, logId, logTime))
  {
    var s := st.skills[i];
    Store.UpdateLogsIff(st, s.id, PatchOf(s.status), now);
  }

  /** A drag onto another column moves every skill with the dragged id to that
      column and leaves every other skill as it was, apart from the refresh of
      `updatedAt` on the moved ones. */
  lemma DragMovesCard(st: Store.State, result: DropResult, now: string, logId: string, logTime: string)
    requires result.destination.Some? && result.destination.value.droppableId != result.source.droppableId
    ensures var r := ApplyDrag(st, result, now, logId, logTime);
            && |r.skills| == |st.skills|
            && (forall k :: 0 <= k < |st.skills| && st.skills[k].id == result.draggableId ==>
                  r.skills[k] == st.skills[k].(status := result.destination.value.droppableId, updatedAt := now))
            && (forall k :: 0 <= k < |st.skills| && st.skills[k].id != result.draggableId ==>
                  r.skills[k] == st.skills[k])
  {
  }
}
