/** The entity records of the tracker and their closed enumerations (lib/types.ts). */
module Types {

  /** An optional field: absent (`undefined`) or present. */
  datatype Option<+T> = None | Some(value: T)

  /** One field of a `Partial<...>` update record: left out of the update, or given. */
  datatype Patch<T> = Keep | Put(value: T)
  {
    /** The field's value once the update is spread over a record holding `current`. */
    function Apply(current: T): T
    {
      if Put? then value else current
    }
  }

  /** One field after a spread: the update's value when it gives one, the old value otherwise. */
  predicate Overwrites<T(==)>(u: Patch<T>, before: T, after: T)
  {
    && (u.Put? ==> after == u.value)
    && (u.Keep? ==> after == before)
  }

  /** The pipeline a skill moves through. */
  datatype Status = ToLearn | Learning | Practiced | Mastered

  const AllStatuses: seq<Status> := [ToLearn, Learning, Practiced, Mastered]

  /** The string the application stores for a status. */
  function StatusValue(s: Status): string
  {
    match s
    case ToLearn => "to-learn"
    case Learning => "learning"
    case Practiced => "practiced"
    case Mastered => "mastered"
  }

  /** Reads a stored status string; anything but the four values is rejected. */
  function ParseStatus(v: string): (r: Option<Status>)
    ensures r.Some? ==> StatusValue(r.value) == v
  {
    if v == "to-learn" then Some(ToLearn)
    else if v == "learning" then Some(Learning)
    else if v == "practiced" then Some(Practiced)
    else if v == "mastered" then Some(Mastered)
    else None
  }

  /** The status strings are exactly four distinct values, one per status. */
  lemma StatusValuesExact(s: Status, t: Status)
    ensures ParseStatus(StatusValue(s)) == Some(s)
    ensures StatusValue(s) == StatusValue(t) ==> s == t
    ensures s in AllStatuses && |AllStatuses| == 4
    ensures forall i, j :: 0 <= i < j < |AllStatuses| ==> AllStatuses[i] != AllStatuses[j]
  {
  }

  datatype Priority = Low | Medium | High

  function PriorityValue(p: Priority): string
  {
    match p
    case Low => "low"
    case Medium => "medium"
    case High => "high"
  }

  function ParsePriority(v: string): (r: Option<Priority>)
    ensures r.Some? ==> PriorityValue(r.value) == v
  {
    if v == "low" then Some(Low)
    else if v == "medium" then Some(Medium)
    else if v == "high" then Some(High)
    else None
  }

  lemma PriorityValuesExact(p: Priority, q: Priority)
    ensures ParsePriority(PriorityValue(p)) == Some(p)
    ensures PriorityValue(p) == PriorityValue(q) ==> p == q
  {
  }

  datatype ResourceType = Article | Video | Book | Course | Other

  function ResourceTypeValue(t: ResourceType): string
  {
    match t
    case Article => "article"
    case Video => "video"
    case Book => "book"
    case Course => "course"
    case Other => "other"
  }

  function ParseResourceType(v: string): (r: Option<ResourceType>)
    ensures r.Some? ==> ResourceTypeValue(r.value) == v
  {
    if v == "article" then Some(Article)
    else if v == "video" then Some(Video)
    else if v == "book" then Some(Book)
    else if v == "course" then Some(Course)
    else if v == "other" then Some(Other)
    else None
  }

  lemma ResourceTypeValuesExact(t: ResourceType, u: ResourceType)
    ensures ParseResourceType(ResourceTypeValue(t)) == Some(t)
    ensures ResourceTypeValue(t) == ResourceTypeValue(u) ==> t == u
  {
  }

  /** What an activity-log entry records. */
  datatype Action = Created | Updated | MilestoneCompleted | StatusChanged | DailyCheckin | TodoCompleted

  function ActionValue(a: Action): string
  {
    match a
    case Created => "created"
    case Updated => "updated"
    case MilestoneCompleted => "milestone_completed"
    case StatusChanged => "status_changed"
    case DailyCheckin => "daily_checkin"
    case TodoCompleted => "todo_completed"
  }

  function ParseAction(v: string): (r: Option<Action>)
    ensures r.Some? ==> ActionValue(r.value) == v
  {
    if v == "created" then Some(Created)
    else if v == "updated" then Some(Updated)
    else if v == "milestone_completed" then Some(MilestoneCompleted)
    else if v == "status_changed" then Some(StatusChanged)
    else if v == "daily_checkin" then Some(DailyCheckin)
    else if v == "todo_completed" then Some(TodoCompleted)
    else None
  }

  lemma ActionValuesExact(a: Action, b: Action)
    ensures ParseAction(ActionValue(a)) == Some(a)
    ensures ActionValue(a) == ActionValue(b) ==> a == b
  {
  }

  /** A practice record for one calendar day; `date` is meant to be YYYY-MM-DD. */
  datatype DailyProgress = DailyProgress(date: string, practiced: bool, notes: Option<string>)

  datatype Todo = Todo(
    id: string,
    title: string,
    completed: bool,
    completedAt: Option<string>,
    priority: Priority,
    dueDate: Option<string>)

  datatype Milestone = Milestone(
    id: string,
    title: string,
    description: string,
    completed: bool,
    completedAt: Option<string>)

  datatype Resource = Resource(id: string, title: string, url: string, kind: ResourceType)

  datatype Category = Category(id: string, name: string, icon: string, color: string, description: string)

  datatype ActivityLog = ActivityLog(
    id: string,
    skillId: string,
    action: Action,
    description: string,
    timestamp: string)

  /** The central entity. `progress` is documented as a 0-100 percentage, which
      nothing enforces. `dailyProgress` and `todos` are declared as required
      arrays but a skill created without them has neither, hence `Option`. */
  datatype Skill = Skill(
    id: string,
    title: string,
    description: string,
    category: string,
    status: Status,
    progress: int,
    createdAt: string,
    updatedAt: string,
    milestones: seq<Milestone>,
    tags: seq<string>,
    resources: seq<Resource>,
    targetDate: Option<string>,
    dailyProgress: Option<seq<DailyProgress>>,
    todos: Option<seq<Todo>>)

  /** A skill's progress lies in the documented percentage range. */
  predicate ProgressInRange(s: Skill)
  {
    0 <= s.progress <= 100
  }

  predicate IsDigit(c: char)
  {
    '0' <= c <= '9'
  }

  /** A calendar-day string YYYY-MM-DD, with no time part. */
  predicate IsCalendarDay(d: string)
  {
    && |d| == 10
    && d[4] == '-' && d[7] == '-'
    && forall i :: 0 <= i < 10 && i != 4 && i != 7 ==> IsDigit(d[i])
  }
}
