/** The skill dialog (components/skill-dialog.tsx): the form it loads, the edits of
    its tag, milestone and resource lists, and the store call a submission makes. */
module SkillDialog {
  import opened Types
  import opened Seqs
  import opened Text
  import Store

  /** The dialog's form. `targetDate` is the date input's text, empty when no date is set. */
  datatype SkillForm = SkillForm(
    title: string,
    description: string,
    category: string,
    status: Status,
    progress: int,
    targetDate: string,
    tags: seq<string>,
    milestones: seq<Milestone>,
    resources: seq<Resource>)

  /** `value || ''` on an optional string. */
  function OrEmpty(v: Option<string>): (r: string)
    ensures v.Some? ==> r == v.value
    ensures v.None? ==> r == ""
  {
    if v.Some? then v.value else ""
  }

  /** The form the dialog opens with: the edited skill's fields, or an empty form
      whose category is the first category's id (empty without categories). */
  function LoadForm(skill: Option<Skill>, categories: seq<Category>): (r: SkillForm)
    ensures skill.Some? ==>
              && r.title == skill.value.title && r.description == skill.value.description
              && r.category == skill.value.category && r.status == skill.value.status
              && r.progress == skill.value.progress && r.targetDate == OrEmpty(skill.value.targetDate)
              && r.tags == skill.value.tags && r.milestones == skill.value.milestones
              && r.resources == skill.value.resources
    ensures skill.None? ==>
              && r.title == "" && r.description == "" && r.status == ToLearn && r.progress == 0
              && r.targetDate == "" && r.tags == [] && r.milestones == [] && r.resources == []
              && r.category == (if |categories| > 0 then categories[0].id else "")
  {
    match skill
    case Some(s) =>
      SkillForm(s.title, s.description, s.category, s.status, s.progress, OrEmpty(s.targetDate),
                s.tags, s.milestones, s.resources)
    case None =>
      SkillForm("", "", if |categories| > 0 then categories[0].id else "", ToLearn, 0, "", [], [], [])
  }

  /** The tag list together with the tag input's text. */
  datatype TagEdit = TagEdit(tags: seq<string>, input: string)

  /** `addTag`: append the trimmed input when it is not blank and not yet a tag,
      then clear the input; otherwise change nothing. */
  function AddTag(tags: seq<string>, input: string): (r: TagEdit)
    ensures forall x :: x in r.tags <==> x in tags || (x == Trim(input) && !AllSpace(input))
    ensures |tags| <= |r.tags| <= |tags| + 1 && r.tags[..|tags|] == tags
    ensures r.tags == tags <==> r.input == input
    ensures r.tags != tags ==> r.input == ""
    ensures AllSpace(input) || Trim(input) in tags ==> r == TagEdit(tags, input)
  {
    BlankIffAllSpace(input);
    var t := Trim(input);
    if t != "" && t !in tags then TagEdit(tags + [t], "") else TagEdit(tags, input)
  }

  /** A duplicate-free tag list stays duplicate-free, and a second identical add is a no-op. */
  lemma AddTagKeepsNoDup(tags: seq<string>, input: string)
    requires NoDup(tags)
    ensures NoDup(AddTag(tags, input).tags)
    ensures AddTag(AddTag(tags, input).tags, input).tags == AddTag(tags, input).tags
  {
    var r := AddTag(tags, input).tags;
    if r != tags {
      assert r == tags + [Trim(input)];
      assert forall i :: 0 <= i < |tags| ==> r[i] == tags[i];
      assert Trim(input) in r;
    }
  }

  function NotTag(tag: string): string -> bool
  {
    (t: string) => t != tag
  }

  /** `removeTag`: every occurrence of the tag goes, the other tags keep their order. */
  function RemoveTag(tags: seq<string>, tag: string): (r: seq<string>)
    ensures tag !in r
    ensures forall x :: x in r <==> x in tags && x != tag
    ensures forall x :: multiset(r)[x] == if x != tag then multiset(tags)[x] else 0
    ensures IsSubseq(r, tags)
    ensures tag !in tags ==> r == tags
  {
    FilterIsSubseq(tags, NotTag(tag));
    AbsentTagKeepsAll(tags, tag);
    Filter(tags, NotTag(tag))
  }

  lemma AbsentTagKeepsAll(tags: seq<string>, tag: string)
    ensures tag !in tags ==> Filter(tags, NotTag(tag)) == tags
  {
    if tag !in tags {
      FilterAll(tags, NotTag(tag));
    }
  }

  /** Removing a tag that was just added gives back the earlier list. */
  lemma RemoveUndoesAddTag(tags: seq<string>, input: string)
    requires !AllSpace(input) && Trim(input) !in tags
    ensures RemoveTag(AddTag(tags, input).tags, Trim(input)) == tags
  {
    var t := Trim(input);
    BlankIffAllSpace(input);
    assert AddTag(tags, input).tags == tags + [t];
    FilterConcat(tags, [t], NotTag(t));
    FilterAll(tags, NotTag(t));
    assert Filter([t], NotTag(t)) == [] by {
      assert [t][1..] == [];
    }
  }

  /** The milestone inputs. */
  datatype MilestoneInput = MilestoneInput(title: string, description: string)

  datatype MilestoneEdit = MilestoneEdit(milestones: seq<Milestone>, input: MilestoneInput)

  /** `addMilestone`: for a title that is not blank, append a new incomplete milestone
      with the fresh id and the untrimmed title and clear the inputs; otherwise change nothing. */
  function AddMilestone(ms: seq<Milestone>, input: MilestoneInput, id: string): (r: MilestoneEdit)
    ensures AllSpace(input.title) ==> r == MilestoneEdit(ms, input)
    ensures !AllSpace(input.title) ==>
              && |r.milestones| == |ms| + 1
              && r.milestones[..|ms|] == ms
              && r.milestones[|ms|] == Milestone(id, input.title, input.description, false, None)
              && r.input == MilestoneInput("", "")
  {
    BlankIffAllSpace(input.title);
    if !IsBlank(input.title) then
      MilestoneEdit(ms + [Milestone(id, input.title, input.description, false, None)], MilestoneInput("", ""))
    else MilestoneEdit(ms, input)
  }

  /** One milestone after a toggle at time `now`. */
  function Toggled(m: Milestone, now: string): (r: Milestone)
    ensures r.completed == !m.completed
    ensures r.completedAt == (if r.completed then Some(now) else None)
    ensures r.id == m.id && r.title == m.title && r.description == m.description
  {
    m.(completed := !m.completed, completedAt := if !m.completed then Some(now) else None)
  }

  /** `toggleMilestone`: flip the milestones with the id, stamping completion with
      `now` and clearing the stamp on reverting; the others are untouched. */
  function ToggleMilestone(ms: seq<Milestone>, id: string, now: string): (r: seq<Milestone>)
    ensures |r| == |ms|
    ensures forall i :: 0 <= i < |ms| && ms[i].id != id ==> r[i] == ms[i]
    ensures forall i :: 0 <= i < |ms| && ms[i].id == id ==>
              && r[i].completed == !ms[i].completed
              && r[i].completedAt == (if r[i].completed then Some(now) else None)
              && r[i].id == ms[i].id && r[i].title == ms[i].title && r[i].description == ms[i].description
  {
    seq(|ms|, i requires 0 <= i < |ms| => if ms[i].id == id then Toggled(ms[i], now) else ms[i])
  }

  /** Toggling twice restores every completion flag; a milestone that was
      incomplete and unstamped comes back exactly as it was. */
  lemma ToggleTwice(ms: seq<Milestone>, id: string, t1: string, t2: string)
    ensures var r := ToggleMilestone(ToggleMilestone(ms, id, t1), id, t2);
            && |r| == |ms|
            && (forall i :: 0 <= i < |ms| ==> r[i].completed == ms[i].completed)
            && (forall i :: 0 <= i < |ms| && ms[i].id == id && ms[i].completed ==> r[i].completedAt == Some(t2))
            && (forall i :: 0 <= i < |ms| && !ms[i].completed && ms[i].completedAt.None? ==> r[i] == ms[i])
  {
    var r1 := ToggleMilestone(ms, id, t1);
    var r := ToggleMilestone(r1, id, t2);
    forall i | 0 <= i < |ms| && !ms[i].completed && ms[i].completedAt.None?
      ensures r[i] == ms[i]
    {
      if ms[i].id == id {
        assert r1[i].id == id;
      }
    }
  }

  function MilestoneNotHasId(id: string): Milestone -> bool
  {
    (m: Milestone) => m.id != id
  }

  /** `removeMilestone`: every milestone with the id goes, the rest keep their order. */
  function RemoveMilestone(ms: seq<Milestone>, id: string): (r: seq<Milestone>)
    ensures forall i :: 0 <= i < |r| ==> r[i].id != id
    ensures forall m :: m in r <==> m in ms && m.id != id
    ensures forall m :: multiset(r)[m] == if m.id != id then multiset(ms)[m] else 0
    ensures IsSubseq(r, ms)
  {
    FilterIsSubseq(ms, MilestoneNotHasId(id));
    Filter(ms, MilestoneNotHasId(id))
  }

  /** Removing the milestone just added under a fresh id gives back the earlier list. */
  lemma RemoveUndoesAddMilestone(ms: seq<Milestone>, input: MilestoneInput, id: string)
    requires !AllSpace(input.title)
    requires forall i :: 0 <= i < |ms| ==> ms[i].id != id
    ensures RemoveMilestone(AddMilestone(ms, input, id).milestones, id) == ms
  {
    var added := Milestone(id, input.title, input.description, false, None);
    assert AddMilestone(ms, input, id).milestones == ms + [added];
    FilterConcat(ms, [added], MilestoneNotHasId(id));
    FilterAll(ms, MilestoneNotHasId(id));
    assert Filter([added], MilestoneNotHasId(id)) == [] by {
      assert [added][1..] == [];
    }
  }

  /** The resource inputs. */
  datatype ResourceInput = ResourceInput(title: string, url: string, kind: ResourceType)

  datatype ResourceEdit = ResourceEdit(resources: seq<Resource>, input: ResourceInput)

  /** `addResource`: with a title and a url that are both not blank, append the
      resource under the fresh id and reset the inputs to an empty article;
      otherwise change nothing. */
  function AddResource(rs: seq<Resource>, input: ResourceInput, id: string): (r: ResourceEdit)
    ensures AllSpace(input.title) || AllSpace(input.url) ==> r == ResourceEdit(rs, input)
    ensures !AllSpace(input.title) && !AllSpace(input.url) ==>
              && |r.resources| == |rs| + 1
              && r.resources[..|rs|] == rs
              && r.resources[|rs|] == Resource(id, input.title, input.url, input.kind)
              && r.input == ResourceInput("", "", Article)
  {
    BlankIffAllSpace(input.title);
    BlankIffAllSpace(input.url);
    if !IsBlank(input.title) && !IsBlank(input.url) then
      ResourceEdit(rs + [Resource(id, input.title, input.url, input.kind)], ResourceInput("", "", Article))
    else ResourceEdit(rs, input)
  }

  function ResourceNotHasId(id: string): Resource -> bool
  {
    (x: Resource) => x.id != id
  }

  /** `removeResource`: every resource with the id goes, the rest keep their order. */
  function RemoveResource(rs: seq<Resource>, id: string): (r: seq<Resource>)
    ensures forall i :: 0 <= i < |r| ==> r[i].id != id
    ensures forall x :: x in r <==> x in rs && x.id != id
    ensures forall x :: multiset(r)[x] == if x.id != id then multiset(rs)[x] else 0
    ensures IsSubseq(r, rs)
  {
    FilterIsSubseq(rs, ResourceNotHasId(id));
    Filter(rs, ResourceNotHasId(id))
  }

  /** Removing the resource just added under a fresh id gives back the earlier list. */
  lemma RemoveUndoesAddResource(rs: seq<Resource>, input: ResourceInput, id: string)
    requires !AllSpace(input.title) && !AllSpace(input.url)
    requires forall i :: 0 <= i < |rs| ==> rs[i].id != id
    ensures RemoveResource(AddResource(rs, input, id).resources, id) == rs
  {
    var added := Resource(id, input.title, input.url, input.kind);
    assert AddResource(rs, input, id).resources == rs + [added];
    FilterConcat(rs, [added], ResourceNotHasId(id));
    FilterAll(rs, ResourceNotHasId(id));
    assert Filter([added], ResourceNotHasId(id)) == [] by {
      assert [added][1..] == [];
    }
  }

  /** The store call a submission makes. */
  datatype SkillCall =
    | NoSkillCall
    | AddSkillCall(draft: Store.SkillDraft)
    | UpdateSkillCall(id: string, patch: Store.SkillPatch)

  /** The form as `addSkill`'s argument: the date text is stored as given and the
      skill gets neither a todo list nor daily progress. */
  function DraftOfForm(f: SkillForm): Store.SkillDraft
  {
    Store.SkillDraft(f.title, f.description, f.category, f.status, f.progress, f.milestones,
                     f.tags, f.resources, Some(f.targetDate), None, None)
  }

  /** The form as `updateSkill`'s argument: its nine fields, nothing else. */
  function PatchOfForm(f: SkillForm): Store.SkillPatch
  {
    Store.NoChanges.(title := Put(f.title), description := Put(f.description),
      category := Put(f.category), status := Put(f.status), progress := Put(f.progress),
      targetDate := Put(Some(f.targetDate)), tags := Put(f.tags), milestones := Put(f.milestones),
      resources := Put(f.resources))
  }

  /** `handleSubmit`: nothing for a blank title or no category; otherwise update the
      edited skill with the whole form, or add a new skill from it. */
  function HandleSubmit(form: SkillForm, editing: Option<Skill>): (r: SkillCall)
    ensures r.NoSkillCall? <==> AllSpace(form.title) || form.category == ""
    ensures r.AddSkillCall? <==> !r.NoSkillCall? && editing.None?
    ensures r.AddSkillCall? ==>
              && r.draft.title == form.title && r.draft.description == form.description
              && r.draft.category == form.category && r.draft.status == form.status
              && r.draft.progress == form.progress && r.draft.milestones == form.milestones
              && r.draft.tags == form.tags && r.draft.resources == form.resources
              && r.draft.targetDate == Some(form.targetDate)
              && r.draft.todos.None? && r.draft.dailyProgress.None?
    ensures r.UpdateSkillCall? ==>
              && editing.Some? && r.id == editing.value.id
              && r.patch.title == Put(form.title) && r.patch.description == Put(form.description)
              && r.patch.category == Put(form.category) && r.patch.status == Put(form.status)
              && r.patch.progress == Put(form.progress) && r.patch.milestones == Put(form.milestones)
              && r.patch.tags == Put(form.tags) && r.patch.resources == Put(form.resources)
              && r.patch.targetDate == Put(Some(form.targetDate))
              && r.patch.id.Keep? && r.patch.createdAt.Keep? && r.patch.updatedAt.Keep?
              && r.patch.todos.Keep? && r.patch.dailyProgress.Keep?
  {
    BlankIffAllSpace(form.title);
    if IsBlank(form.title) || form.category == "" then NoSkillCall
    else if editing.Some? then UpdateSkillCall(editing.value.id, PatchOfForm(form))
    else AddSkillCall(DraftOfForm(form))
  }

  /** Saving the dialog on an existing skill always logs `status_changed`, even when
      the status was not touched, because the form always carries a status. */
  lemma EditAlwaysLogsStatus(st: Store.State, form: SkillForm, i: int, now: string, logId: string, logTime: string)
    requires 0 <= i < |st.skills|
    requires !AllSpace(form.title) && form.category != ""
    ensures var call := HandleSubmit(form, Some(st.skills[i]));
            && call.UpdateSkillCall?
            && Store.Pushed(st.activityLogs,
                            Store.UpdateSkill(st, call.id, call.patch, now, logId, logTime).activityLogs,
                            Store.StatusChangedEntry(st.skills[i].id, form.status, logId, logTime))
  {
    var call := HandleSubmit(form, Some(st.skills[i]));
    Store.UpdateLogsIff(st, call.id, call.patch, now);
  }

  /** Opening a skill and saving it unchanged refreshes `updatedAt` and turns a missing
      target date into the empty string; nothing else changes. */
  lemma LoadThenSaveUnchanged(skill: Skill, categories: seq<Category>, now: string)
    requires !AllSpace(skill.title) && skill.category != ""
    ensures var call := HandleSubmit(LoadForm(Some(skill), categories), Some(skill));
            && call.UpdateSkillCall?
            && Store.MergeSkill(skill, call.patch, now)
                 == skill.(updatedAt := now, targetDate := Some(OrEmpty(skill.targetDate)))
  {
  }

  /** A skill added from the dialog has no todo list and no daily progress. */
  lemma AddedSkillHasNoTodos(st: Store.State, form: SkillForm, id: string, createdAt: string,
                             updatedAt: string, logId: string, logTime: string)
    requires !AllSpace(form.title) && form.category != ""
    ensures var call := HandleSubmit(form, None);
            && call.AddSkillCall?
            && var r := Store.AddSkill(st, call.draft, id, createdAt, updatedAt, logId, logTime);
               r.skills[|st.skills|].todos.None? && r.skills[|st.skills|].dailyProgress.None?
  {
    var call := HandleSubmit(form, None);
    var r := Store.AddSkill(st, call.draft, id, createdAt, updatedAt, logId, logTime);
    assert Store.DraftOf(r.skills[|st.skills|]) == call.draft;
  }
}
