/** The skill store (lib/store.ts): the in-memory aggregate of skills, categories
    and the activity log, and its operations as functions from state to state.
    Fresh ids and the current time are parameters of each operation. */
module Store {
  import opened Types
  import opened Seqs
  import Categories

  datatype State = State(skills: seq<Skill>, categories: seq<Category>, activityLogs: seq<ActivityLog>)

  /** The activity log keeps at most this many entries. */
  const MaxLogs: nat := 100

  /** What `addSkill` is given: every skill field except `id`, `createdAt` and `updatedAt`. */
  datatype SkillDraft = SkillDraft(
    title: string,
    description: string,
    category: string,
    status: Status,
    progress: int,
    milestones: seq<Milestone>,
    tags: seq<string>,
    resources: seq<Resource>,
    targetDate: Option<string>,
    dailyProgress: Option<seq<DailyProgress>>,
    todos: Option<seq<Todo>>)

  /** A `Partial<Skill>` update: every field may be given, `id` and the timestamps included. */
  datatype SkillPatch = SkillPatch(
    id: Patch<string>,
    title: Patch<string>,
    description: Patch<string>,
    category: Patch<string>,
    status: Patch<Status>,
    progress: Patch<int>,
    createdAt: Patch<string>,
    updatedAt: Patch<string>,
    milestones: Patch<seq<Milestone>>,
    tags: Patch<seq<string>>,
    resources: Patch<seq<Resource>>,
    targetDate: Patch<Option<string>>,
    dailyProgress: Patch<Option<seq<DailyProgress>>>,
    todos: Patch<Option<seq<Todo>>>)

  /** The empty update `{}`. */
  const NoChanges: SkillPatch :=
    SkillPatch(Keep, Keep, Keep, Keep, Keep, Keep, Keep, Keep, Keep, Keep, Keep, Keep, Keep, Keep)

  /** What `addCategory` is given: every category field except `id`. */
  datatype CategoryDraft = CategoryDraft(name: string, icon: string, color: string, description: string)

  /** A `Partial<Category>` update. */
  datatype CategoryPatch = CategoryPatch(
    id: Patch<string>,
    name: Patch<string>,
    icon: Patch<string>,
    color: Patch<string>,
    description: Patch<string>)

  /** What `addActivityLog` is given: every entry field except `id` and `timestamp`. */
  datatype LogDraft = LogDraft(skillId: string, action: Action, description: string)

  /** The state before anything was persisted: no skills, no log, the built-in categories. */
  function Initial(): (st: State)
    ensures |st.skills| == 0 && |st.activityLogs| == 0
    ensures |st.categories| == 10
    ensures forall i, j :: 0 <= i < j < |st.categories| ==> st.categories[i].id != st.categories[j].id
  {
    Categories.DefaultsDistinctIds();
    State([], Categories.Defaults, [])
  }

  /** `after` is `before` with `entry` put in front and the oldest entries
      beyond `MaxLogs` dropped. */
  predicate Pushed(before: seq<ActivityLog>, after: seq<ActivityLog>, entry: ActivityLog)
  {
    && |after| == Min(|before| + 1, MaxLogs)
    && after[0] == entry
    && forall i :: 1 <= i < |after| ==> after[i] == before[i - 1]
  }

  /** addActivityLog: stamp the entry, put it first, keep the newest 100. */
  function AddActivityLog(st: State, d: LogDraft, id: string, timestamp: string): (r: State)
    ensures Pushed(st.activityLogs, r.activityLogs, ActivityLog(id, d.skillId, d.action, d.description, timestamp))
    ensures |r.activityLogs| <= MaxLogs
    ensures r.skills == st.skills && r.categories == st.categories
  {
    var entry := ActivityLog(id, d.skillId, d.action, d.description, timestamp);
    st.(activityLogs := Take([entry] + st.activityLogs, MaxLogs))
  }

  /** The skill `addSkill` builds: the draft spread, then the fresh id and timestamps. */
  function NewSkill(d: SkillDraft, id: string, createdAt: string, updatedAt: string): Skill
  {
    Skill(id, d.title, d.description, d.category, d.status, d.progress, createdAt, updatedAt,
          d.milestones, d.tags, d.resources, d.targetDate, d.dailyProgress, d.todos)
  }

  /** `Omit<Skill, 'id' | 'createdAt' | 'updatedAt'>`: the fields a caller supplies. */
  function DraftOf(s: Skill): SkillDraft
  {
    SkillDraft(s.title, s.description, s.category, s.status, s.progress, s.milestones,
               s.tags, s.resources, s.targetDate, s.dailyProgress, s.todos)
  }

  /** addSkill: append the new skill, then log its creation. `createdAt` and
      `updatedAt` come from two separate clock readings. */
  function AddSkill(st: State, d: SkillDraft, id: string, createdAt: string, updatedAt: string,
                    logId: string, logTime: string): (r: State)
    ensures |r.skills| == |st.skills| + 1
    ensures r.skills[..|st.skills|] == st.skills
    ensures DraftOf(r.skills[|st.skills|]) == d
    ensures r.skills[|st.skills|].id == id
    ensures r.skills[|st.skills|].createdAt == createdAt && r.skills[|st.skills|].updatedAt == updatedAt
    ensures Pushed(st.activityLogs, r.activityLogs,
                   ActivityLog(logId, id, Created, "Created skill: " + d.title, logTime))
    ensures r.categories == st.categories
  {
    var skill := NewSkill(d, id, createdAt, updatedAt);
    var st1 := st.(skills := st.skills + [skill]);
    AddActivityLog(st1, LogDraft(id, Created, "Created skill: " + d.title), logId, logTime)
  }

  /** The position of the first skill with the id, or -1 (Array.prototype.findIndex). */
  function FindIndex(skills: seq<Skill>, id: string): (r: int)
    ensures -1 <= r < |skills|
    ensures r == -1 <==> forall i :: 0 <= i < |skills| ==> skills[i].id != id
    ensures r >= 0 ==> skills[r].id == id && forall j :: 0 <= j < r ==> skills[j].id != id
  {
    if skills == [] then -1
    else if skills[0].id == id then 0
    else
      var k := FindIndex(skills[1..], id);
      if k == -1 then -1 else k + 1
  }

  /** Array.prototype.find on skills by id: the first skill with that id. */
  function FindSkill(skills: seq<Skill>, id: string): (r: Option<Skill>)
    ensures r.None? <==> forall i :: 0 <= i < |skills| ==> skills[i].id != id
    ensures r.Some? ==> r.value.id == id && r.value in skills
    ensures r.Some? ==> exists k :: 0 <= k < |skills| && skills[k] == r.value
                                    && forall j :: 0 <= j < k ==> skills[j].id != id
  {
    var k := FindIndex(skills, id);
    if k == -1 then None else Some(skills[k])
  }

  /** A freshly created skill is found by its id, and finding it gives back the draft. */
  lemma AddSkillThenFind(st: State, d: SkillDraft, id: string, createdAt: string, updatedAt: string,
                         logId: string, logTime: string)
    requires forall i :: 0 <= i < |st.skills| ==> st.skills[i].id != id
    ensures var r := AddSkill(st, d, id, createdAt, updatedAt, logId, logTime);
            && FindSkill(r.skills, id).Some?
            && DraftOf(FindSkill(r.skills, id).value) == d
            && FindSkill(r.skills, id).value.createdAt == createdAt
  {
    var r := AddSkill(st, d, id, createdAt, updatedAt, logId, logTime);
    assert r.skills[|st.skills|].id == id;
    assert FindIndex(r.skills, id) == |st.skills|;
  }

  /** `{ ...skill, ...updates, updatedAt: now }`. */
  function MergeSkill(s: Skill, u: SkillPatch, now: string): (r: Skill)
    ensures r.updatedAt == now
    ensures u == NoChanges ==> r == s.(updatedAt := now)
    ensures Overwrites(u.id, s.id, r.id) && Overwrites(u.title, s.title, r.title)
    ensures Overwrites(u.description, s.description, r.description)
    ensures Overwrites(u.category, s.category, r.category) && Overwrites(u.status, s.status, r.status)
    ensures Overwrites(u.progress, s.progress, r.progress) && Overwrites(u.createdAt, s.createdAt, r.createdAt)
    ensures Overwrites(u.milestones, s.milestones, r.milestones) && Overwrites(u.tags, s.tags, r.tags)
    ensures Overwrites(u.resources, s.resources, r.resources)
    ensures Overwrites(u.targetDate, s.targetDate, r.targetDate)
    ensures Overwrites(u.dailyProgress, s.dailyProgress, r.dailyProgress)
    ensures Overwrites(u.todos, s.todos, r.todos)
  {
    Skill(u.id.Apply(s.id), u.title.Apply(s.title), u.description.Apply(s.description),
          u.category.Apply(s.category), u.status.Apply(s.status), u.progress.Apply(s.progress),
          u.createdAt.Apply(s.createdAt), now, u.milestones.Apply(s.milestones),
          u.tags.Apply(s.tags), u.resources.Apply(s.resources), u.targetDate.Apply(s.targetDate),
          u.dailyProgress.Apply(s.dailyProgress), u.todos.Apply(s.todos))
  }

  /** The skills after merging `u` into every skill whose id is `id`. */
  function MergeById(skills: seq<Skill>, id: string, u: SkillPatch, now: string): (r: seq<Skill>)
    ensures |r| == |skills|
    ensures forall i :: 0 <= i < |skills| && skills[i].id != id ==> r[i] == skills[i]
    ensures forall i :: 0 <= i < |skills| && skills[i].id == id ==> r[i] == MergeSkill(skills[i], u, now)
  {
    seq(|skills|, i requires 0 <= i < |skills| =>
      if skills[i].id == id then MergeSkill(skills[i], u, now) else skills[i])
  }

  /** The store's condition for logging an update: the update carries a status and
      a skill with the id is found after the merge. */
  predicate UpdateLogs(skillsAfter: seq<Skill>, id: string, u: SkillPatch)
  {
    u.status.Put? && FindSkill(skillsAfter, id).Some?
  }

  function StatusChangedEntry(id: string, status: Status, logId: string, logTime: string): ActivityLog
  {
    ActivityLog(logId, id, StatusChanged, "Changed status to: " + StatusValue(status), logTime)
  }

  /** updateSkill: merge into the skills with the id, refreshing `updatedAt`;
      log `status_changed` whenever the update carries a status, even an unchanged one. */
  function UpdateSkill(st: State, id: string, u: SkillPatch, now: string, logId: string, logTime: string): (r: State)
    ensures |r.skills| == |st.skills|
    ensures forall i :: 0 <= i < |st.skills| && st.skills[i].id != id ==> r.skills[i] == st.skills[i]
    ensures forall i :: 0 <= i < |st.skills| && st.skills[i].id == id ==>
              r.skills[i] == MergeSkill(st.skills[i], u, now)
    ensures r.categories == st.categories
    ensures UpdateLogs(r.skills, id, u) ==>
              Pushed(st.activityLogs, r.activityLogs, StatusChangedEntry(id, u.status.value, logId, logTime))
    ensures !UpdateLogs(r.skills, id, u) ==> r.activityLogs == st.activityLogs
  {
    var st1 := st.(skills := MergeById(st.skills, id, u, now));
    if UpdateLogs(st1.skills, id, u) then
      AddActivityLog(st1, LogDraft(id, StatusChanged, "Changed status to: " + StatusValue(u.status.value)),
                     logId, logTime)
    else st1
  }

  /** An update is logged exactly when it carries a status, some skill has the id,
      and the update does not move that skill to another id. */
  lemma UpdateLogsIff(st: State, id: string, u: SkillPatch, now: string)
    ensures UpdateLogs(MergeById(st.skills, id, u, now), id, u)
        <==> u.status.Put? && (exists i :: 0 <= i < |st.skills| && st.skills[i].id == id) && u.id.Apply(id) == id
  {
    var after := MergeById(st.skills, id, u, now);
    if u.status.Put? && (exists i :: 0 <= i < |st.skills| && st.skills[i].id == id) && u.id.Apply(id) == id {
      var i :| 0 <= i < |st.skills| && st.skills[i].id == id;
      assert after[i].id == id;
    }
    if FindSkill(after, id).Some? {
      var i :| 0 <= i < |after| && after[i].id == id;
      assert st.skills[i].id == id;
    }
  }

  /** Setting a skill's status to the value it already has still logs `status_changed`. */
  lemma SameStatusStillLogs(st: State, i: int, now: string, logId: string, logTime: string)
    requires 0 <= i < |st.skills|
    ensures var s := st.skills[i];
            var r := UpdateSkill(st, s.id, NoChanges.(status := Put(s.status)), now, logId, logTime);
            && r.skills[i].status == s.status
            && Pushed(st.activityLogs, r.activityLogs, StatusChangedEntry(s.id, s.status, logId, logTime))
  {
    var s := st.skills[i];
    var u := NoChanges.(status := Put(s.status));
    UpdateLogsIff(st, s.id, u, now);
  }

  /** An update for an id no skill has changes nothing at all. */
  lemma UpdateUnknownIdIsNoOp(st: State, id: string, u: SkillPatch, now: string, logId: string, logTime: string)
    requires forall i :: 0 <= i < |st.skills| ==> st.skills[i].id != id
    ensures UpdateSkill(st, id, u, now, logId, logTime) == st
  {
    var r := UpdateSkill(st, id, u, now, logId, logTime);
    UpdateLogsIff(st, id, u, now);
    assert r.skills == st.skills;
  }

  /** Nothing keeps `progress` in its documented 0-100 range: an update can put any number there. */
  lemma ProgressNotClamped(st: State, i: int, p: int, now: string, logId: string, logTime: string)
    requires 0 <= i < |st.skills|
    ensures UpdateSkill(st, st.skills[i].id, NoChanges.(progress := Put(p)), now, logId, logTime).skills[i].progress == p
  {
  }

  function NotHasId(id: string): Skill -> bool
  {
    (s: Skill) => s.id != id
  }

  function LogNotFor(id: string): ActivityLog -> bool
  {
    (l: ActivityLog) => l.skillId != id
  }

  /** deleteSkill: drop every skill with the id and every log entry about it. */
  function DeleteSkill(st: State, id: string): (r: State)
    ensures forall s :: s in r.skills <==> s in st.skills && s.id != id
    ensures forall s :: multiset(r.skills)[s] == if s.id != id then multiset(st.skills)[s] else 0
    ensures IsSubseq(r.skills, st.skills)
    ensures forall l :: l in r.activityLogs <==> l in st.activityLogs && l.skillId != id
    ensures forall l :: multiset(r.activityLogs)[l] == if l.skillId != id then multiset(st.activityLogs)[l] else 0
    ensures IsSubseq(r.activityLogs, st.activityLogs)
    ensures r.categories == st.categories
  {
    st.(skills := SkillsWithout(st.skills, id), activityLogs := LogsWithout(st.activityLogs, id))
  }

  function SkillsWithout(skills: seq<Skill>, id: string): (r: seq<Skill>)
    ensures forall s :: s in r <==> s in skills && s.id != id
    ensures forall s :: multiset(r)[s] == if s.id != id then multiset(skills)[s] else 0
    ensures IsSubseq(r, skills)
  {
    FilterIsSubseq(skills, NotHasId(id));
    Filter(skills, NotHasId(id))
  }

  function LogsWithout(logs: seq<ActivityLog>, id: string): (r: seq<ActivityLog>)
    ensures forall l :: l in r <==> l in logs && l.skillId != id
    ensures forall l :: multiset(r)[l] == if l.skillId != id then multiset(logs)[l] else 0
    ensures IsSubseq(r, logs)
  {
    FilterIsSubseq(logs, LogNotFor(id));
    Filter(logs, LogNotFor(id))
  }

  /** The category `addCategory` builds. */
  function NewCategory(d: CategoryDraft, id: string): Category
  {
    Category(id, d.name, d.icon, d.color, d.description)
  }

  function CategoryDraftOf(c: Category): CategoryDraft
  {
    CategoryDraft(c.name, c.icon, c.color, c.description)
  }

  /** addCategory: append one category with a fresh id. */
  function AddCategory(st: State, d: CategoryDraft, id: string): (r: State)
    ensures |r.categories| == |st.categories| + 1
    ensures r.categories[..|st.categories|] == st.categories
    ensures r.categories[|st.categories|].id == id
    ensures CategoryDraftOf(r.categories[|st.categories|]) == d
    ensures r.skills == st.skills && r.activityLogs == st.activityLogs
  {
    st.(categories := st.categories + [NewCategory(d, id)])
  }

  /** `{ ...category, ...updates }`. */
  function MergeCategory(c: Category, u: CategoryPatch): (r: Category)
    ensures u.name.Keep? && u.icon.Keep? && u.color.Keep? && u.description.Keep? && u.id.Keep? ==> r == c
    ensures Overwrites(u.id, c.id, r.id) && Overwrites(u.name, c.name, r.name)
    ensures Overwrites(u.icon, c.icon, r.icon) && Overwrites(u.color, c.color, r.color)
    ensures Overwrites(u.description, c.description, r.description)
  {
    Category(u.id.Apply(c.id), u.name.Apply(c.name), u.icon.Apply(c.icon), u.color.Apply(c.color),
             u.description.Apply(c.description))
  }

  /** updateCategory: merge into the categories with the id; nothing else changes. */
  function UpdateCategory(st: State, id: string, u: CategoryPatch): (r: State)
    ensures |r.categories| == |st.categories|
    ensures forall i :: 0 <= i < |st.categories| && st.categories[i].id != id ==> r.categories[i] == st.categories[i]
    ensures forall i :: 0 <= i < |st.categories| && st.categories[i].id == id ==>
              r.categories[i] == MergeCategory(st.categories[i], u)
    ensures r.skills == st.skills && r.activityLogs == st.activityLogs
  {
    st.(categories := seq(|st.categories|, i requires 0 <= i < |st.categories| =>
      if st.categories[i].id == id then MergeCategory(st.categories[i], u) else st.categories[i]))
  }

  function CategoryNotHasId(id: string): Category -> bool
  {
    (c: Category) => c.id != id
  }

  /** deleteCategory: drop the categories with the id; skills keep their (now dangling) references. */
  function DeleteCategory(st: State, id: string): (r: State)
    ensures forall c :: c in r.categories <==> c in st.categories && c.id != id
    ensures forall c :: multiset(r.categories)[c] == if c.id != id then multiset(st.categories)[c] else 0
    ensures IsSubseq(r.categories, st.categories)
    ensures r.skills == st.skills && r.activityLogs == st.activityLogs
  {
    FilterIsSubseq(st.categories, CategoryNotHasId(id));
    st.(categories := Filter(st.categories, CategoryNotHasId(id)))
  }

  /** After deleting a category, a skill that referenced it still does, and no category has that id. */
  lemma DeleteCategoryLeavesDangling(st: State, id: string, i: int)
    requires 0 <= i < |st.skills| && st.skills[i].category == id
    ensures var r := DeleteCategory(st, id);
            && r.skills[i].category == id
            && forall c :: c in r.categories ==> c.id != r.skills[i].category
  {
  }

  function InCategory(categoryId: string): Skill -> bool
  {
    (s: Skill) => s.category == categoryId
  }

  function HasStatus(status: Status): Skill -> bool
  {
    (s: Skill) => s.status == status
  }

  /** getSkillsByCategory: exactly the skills in the category, in store order. */
  function GetSkillsByCategory(st: State, categoryId: string): (r: seq<Skill>)
    ensures forall s :: s in r <==> s in st.skills && s.category == categoryId
    ensures forall s :: multiset(r)[s] == if s.category == categoryId then multiset(st.skills)[s] else 0
    ensures IsSubseq(r, st.skills)
  {
    FilterIsSubseq(st.skills, InCategory(categoryId));
    Filter(st.skills, InCategory(categoryId))
  }

  /** getSkillsByStatus: exactly the skills with the status, in store order. */
  function GetSkillsByStatus(st: State, status: Status): (r: seq<Skill>)
    ensures forall s :: s in r <==> s in st.skills && s.status == status
    ensures forall s :: multiset(r)[s] == if s.status == status then multiset(st.skills)[s] else 0
    ensures IsSubseq(r, st.skills)
  {
    FilterIsSubseq(st.skills, HasStatus(status));
    Filter(st.skills, HasStatus(status))
  }

  /** A call of one store action, with the fresh ids and clock readings it uses. */
  datatype Op =
    | AddSkillOp(draft: SkillDraft, id: string, createdAt: string, updatedAt: string, logId: string, logTime: string)
    | UpdateSkillOp(id: string, patch: SkillPatch, now: string, logId: string, logTime: string)
    | DeleteSkillOp(id: string)
    | AddCategoryOp(categoryDraft: CategoryDraft, id: string)
    | UpdateCategoryOp(id: string, categoryPatch: CategoryPatch)
    | DeleteCategoryOp(id: string)
    | AddActivityLogOp(logDraft: LogDraft, id: string, timestamp: string)

  function Step(st: State, op: Op): State
  {
    match op
    case AddSkillOp(d, id, c, u, li, lt) => AddSkill(st, d, id, c, u, li, lt)
    case UpdateSkillOp(id, p, now, li, lt) => UpdateSkill(st, id, p, now, li, lt)
    case DeleteSkillOp(id) => DeleteSkill(st, id)
    case AddCategoryOp(d, id) => AddCategory(st, d, id)
    case UpdateCategoryOp(id, p) => UpdateCategory(st, id, p)
    case DeleteCategoryOp(id) => DeleteCategory(st, id)
    case AddActivityLogOp(d, id, t) => AddActivityLog(st, d, id, t)
  }

  /** The state after a sequence of actions, applied in order. */
  function Run(st: State, ops: seq<Op>): State
    decreases |ops|
  {
    if ops == [] then st else Run(Step(st, ops[0]), ops[1..])
  }

  /** Every action keeps the activity log within its bound. */
  lemma StepKeepsLogBound(st: State, op: Op)
    requires |st.activityLogs| <= MaxLogs
    ensures |Step(st, op).activityLogs| <= MaxLogs
  {
    match op
    case DeleteSkillOp(id) =>
      assert |Step(st, op).activityLogs| <= |st.activityLogs|;
    case _ =>
  }

  /** From any state within the bound, every sequence of actions stays within it. */
  lemma {:induction false} RunKeepsLogBound(st: State, ops: seq<Op>)
    requires |st.activityLogs| <= MaxLogs
    ensures |Run(st, ops).activityLogs| <= MaxLogs
    decreases |ops|
  {
    if ops != [] {
      StepKeepsLogBound(st, ops[0]);
      RunKeepsLogBound(Step(st, ops[0]), ops[1..]);
    }
  }

  /** Every state reachable from the initial one has at most 100 log entries. */
  lemma ReachableLogBound(ops: seq<Op>)
    ensures |Run(Initial(), ops).activityLogs| <= MaxLogs
  {
    RunKeepsLogBound(Initial(), ops);
  }
}
