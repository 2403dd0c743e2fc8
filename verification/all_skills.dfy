/** The all-skills page (app/all-skills/page.tsx): the skill list filtered by
    search text, status and category, and what each card shows. */
module AllSkills {
  import opened Types
  import opened Seqs
  import opened Text
  import Store

  /** The page's selectors, as the strings the select inputs hold: `status` and
      `category` are "all" or a status value / category id; `search` is the raw text. */
  datatype SkillQuery = SkillQuery(search: string, status: string, category: string)

  /** `getStatusLabel`. */
  function StatusLabel(s: Status): string
  {
    match s
    case ToLearn => "To Learn"
    case Learning => "Learning"
    case Practiced => "Practiced"
    case Mastered => "Mastered"
  }

  /** The four statuses have four different labels. */
  lemma StatusLabelInjective(s: Status, t: Status)
    ensures StatusLabel(s) == StatusLabel(t) ==> s == t
  {
    if StatusLabel(s) == StatusLabel(t) {
      assert StatusLabel(s)[0] == StatusLabel(t)[0];
      if s.Learning? || t.Learning? {
        assert |StatusLabel(s)| == |StatusLabel(t)|;
      }
    }
  }

  /** The lower-cased query occurs in the title, the description or some tag, each lower-cased. */
  predicate MatchesSearch(s: Skill, query: string)
  {
    || Contains(Lower(s.title), Lower(query))
    || Contains(Lower(s.description), Lower(query))
    || exists k :: 0 <= k < |s.tags| && Contains(Lower(s.tags[k]), Lower(query))
  }

  predicate MatchesStatus(s: Skill, filter: string)
  {
    filter == "all" || StatusValue(s.status) == filter
  }

  predicate MatchesCategory(s: Skill, filter: string)
  {
    filter == "all" || s.category == filter
  }

  predicate Listed(s: Skill, q: SkillQuery)
  {
    MatchesSearch(s, q.search) && MatchesStatus(s, q.status) && MatchesCategory(s, q.category)
  }

  function ListedBy(q: SkillQuery): Skill -> bool
  {
    (s: Skill) => Listed(s, q)
  }

  /** `filteredSkills`: the skills matching search, status and category, in store order. */
  function FilteredSkills(skills: seq<Skill>, q: SkillQuery): (r: seq<Skill>)
    ensures forall s :: s in r <==>
              (s in skills && MatchesSearch(s, q.search) && MatchesStatus(s, q.status) && MatchesCategory(s, q.category))
    ensures forall s :: multiset(r)[s] == if Listed(s, q) then multiset(skills)[s] else 0
    ensures IsSubseq(r, skills)
    ensures |r| <= |skills|
  {
    FilterIsSubseq(skills, ListedBy(q));
    Filter(skills, ListedBy(q))
  }

  /** An empty query matches every skill. */
  lemma EmptySearchMatches(s: Skill)
    ensures MatchesSearch(s, "")
  {
    ContainsEmpty(Lower(s.title));
  }

  /** With an empty search and both selectors on "all", every skill is listed in order. */
  lemma NoSelectionListsAll(skills: seq<Skill>, q: SkillQuery)
    requires q.search == "" && q.status == "all" && q.category == "all"
    ensures FilteredSkills(skills, q) == skills
  {
    forall s | s in skills
      ensures ListedBy(q)(s)
    {
      EmptySearchMatches(s);
    }
    FilterAll(skills, ListedBy(q));
  }

  /** A selector on "all" restricts nothing: the list is the one without that selector's test. */
  lemma AllSelectorIsNoRestriction(skills: seq<Skill>, q: SkillQuery, s: Skill)
    requires s in skills
    ensures q.status == "all" ==>
              (s in FilteredSkills(skills, q) <==> MatchesSearch(s, q.search) && MatchesCategory(s, q.category))
    ensures q.category == "all" ==>
              (s in FilteredSkills(skills, q) <==> MatchesSearch(s, q.search) && MatchesStatus(s, q.status))
  {
  }

  /** Selecting one status with no other restriction lists exactly what the store's
      `getSkillsByStatus` returns. */
  lemma StatusSelectionIsStoreQuery(st: Store.State, status: Status)
    ensures FilteredSkills(st.skills, SkillQuery("", StatusValue(status), "all"))
              == Store.GetSkillsByStatus(st, status)
  {
    var q := SkillQuery("", StatusValue(status), "all");
    forall s | s in st.skills
      ensures ListedBy(q)(s) == Store.HasStatus(status)(s)
    {
      EmptySearchMatches(s);
      StatusValuesExact(s.status, status);
    }
    FilterExt(st.skills, ListedBy(q), Store.HasStatus(status));
  }

  /** Selecting one category with no other restriction lists exactly what the store's
      `getSkillsByCategory` returns. */
  lemma CategorySelectionIsStoreQuery(st: Store.State, categoryId: string)
    requires categoryId != "all"
    ensures FilteredSkills(st.skills, SkillQuery("", "all", categoryId))
              == Store.GetSkillsByCategory(st, categoryId)
  {
    var q := SkillQuery("", "all", categoryId);
    forall s | s in st.skills
      ensures ListedBy(q)(s) == Store.InCategory(categoryId)(s)
    {
      EmptySearchMatches(s);
    }
    FilterExt(st.skills, ListedBy(q), Store.InCategory(categoryId));
  }

  /** A status selector that is neither "all" nor a status value lists nothing. */
  lemma UnknownStatusListsNothing(skills: seq<Skill>, q: SkillQuery)
    requires q.status != "all" && ParseStatus(q.status).None?
    ensures FilteredSkills(skills, q) == []
  {
    forall s | s in skills
      ensures !ListedBy(q)(s)
    {
      StatusValuesExact(s.status, s.status);
    }
  }

  function IsCompleted(): Milestone -> bool
  {
    (m: Milestone) => m.completed
  }

  /** The "n / m milestones" line of a card. */
  function MilestoneProgress(s: Skill): (r: (nat, nat))
    ensures r.0 == |Filter(s.milestones, IsCompleted())|
    ensures r.1 == |s.milestones|
    ensures r.0 <= r.1
    ensures r.0 == r.1 <==> forall i :: 0 <= i < |s.milestones| ==> s.milestones[i].completed
  {
    CompletedCount(s.milestones);
    (|Filter(s.milestones, IsCompleted())|, |s.milestones|)
  }

  /** All milestones are counted as completed exactly when all are completed. */
  lemma CompletedCount(ms: seq<Milestone>)
    ensures |Filter(ms, IsCompleted())| == |ms| <==> forall i :: 0 <= i < |ms| ==> ms[i].completed
  {
    if forall i :: 0 <= i < |ms| ==> ms[i].completed {
      assert forall m :: m in ms ==> IsCompleted()(m);
      FilterAll(ms, IsCompleted());
    } else {
      FilterPartition(ms, IsCompleted());
      var i :| 0 <= i < |ms| && !ms[i].completed;
      assert ms[i] in Filter(ms, Not(IsCompleted()));
    }
  }
}
