/** The todos view (components/todos-view.tsx): every todo of every skill in one
    list, its filters and sort orders, the summary counts, and the check made
    before a todo form is handed to the store. */
module TodosView {
  import opened Types
  import opened Seqs
  import opened Text

  /** A todo together with the skill it belongs to. */
  datatype TodoWithSkill = TodoWithSkill(todo: Todo, skill: Skill, skillId: string)

  /** One skill's todos, each tagged with the skill; nothing when the skill has
      no todo list or an empty one. */
  function Tagged(s: Skill): (r: seq<TodoWithSkill>)
    ensures s.todos.None? ==> r == []
    ensures s.todos.Some? ==> |r| == |s.todos.value|
    ensures s.todos.Some? ==> forall k :: 0 <= k < |r| ==> r[k] == TodoWithSkill(s.todos.value[k], s, s.id)
  {
    if s.todos.Some? && |s.todos.value| > 0 then
      seq(|s.todos.value|, k requires 0 <= k < |s.todos.value| => TodoWithSkill(s.todos.value[k], s, s.id))
    else []
  }

  /** The todo count of a skill, zero when it has no list. */
  function TodoCountOf(s: Skill): nat
  {
    if s.todos.Some? then |s.todos.value| else 0
  }

  function TodoCount(skills: seq<Skill>): nat
  {
    if skills == [] then 0 else TodoCountOf(skills[0]) + TodoCount(skills[1..])
  }

  /** `allTodos`: the todos of the skills in skill order, each tagged with its skill. */
  function AllTodos(skills: seq<Skill>): (r: seq<TodoWithSkill>)
    ensures |r| == TodoCount(skills)
    ensures forall k :: 0 <= k < |r| ==>
              && r[k].skillId == r[k].skill.id
              && r[k].skill in skills
              && r[k].skill.todos.Some?
              && r[k].todo in r[k].skill.todos.value
  {
    if skills == [] then []
    else
      var head := Tagged(skills[0]);
      var rest := AllTodos(skills[1..]);
      var r := head + rest;
      assert forall k :: |head| <= k < |r| ==> r[k] == rest[k - |head|];
      r
  }

  lemma {:induction false} AllTodosConcat(a: seq<Skill>, b: seq<Skill>)
    ensures AllTodos(a + b) == AllTodos(a) + AllTodos(b)
  {
    if a == [] {
      assert a + b == b;
    } else {
      assert (a + b)[0] == a[0];
      assert (a + b)[1..] == a[1..] + b;
      AllTodosConcat(a[1..], b);
    }
  }

  /** Every todo of every skill is listed, tagged with that skill. */
  lemma {:induction false} AllTodosComplete(skills: seq<Skill>, i: int, k: int)
    requires 0 <= i < |skills| && skills[i].todos.Some? && 0 <= k < |skills[i].todos.value|
    ensures TodoWithSkill(skills[i].todos.value[k], skills[i], skills[i].id) in AllTodos(skills)
  {
    if i == 0 {
      assert Tagged(skills[0])[k] == TodoWithSkill(skills[i].todos.value[k], skills[i], skills[i].id);
    } else {
      AllTodosComplete(skills[1..], i - 1, k);
    }
  }

  /** Listing one more skill appends that skill's tagged todos. */
  lemma AllTodosSnoc(skills: seq<Skill>, i: int)
    requires 0 <= i < |skills|
    ensures AllTodos(skills[..i + 1]) == AllTodos(skills[..i]) + Tagged(skills[i])
  {
    assert skills[..i + 1] == skills[..i] + [skills[i]];
    AllTodosConcat(skills[..i], [skills[i]]);
    assert AllTodos([skills[i]]) == Tagged(skills[i]) + AllTodos([]);
  }

  /** The inner loop of the view: push each todo of one skill, tagged with it. */
  method PushTodos(todos: seq<TodoWithSkill>, skill: Skill) returns (r: seq<TodoWithSkill>)
    ensures r == todos + Tagged(skill)
  {
    r := todos;
    if skill.todos.Some? && |skill.todos.value| > 0 {
      var tagged := Tagged(skill);
      var j := 0;
      while j < |skill.todos.value|
        invariant 0 <= j <= |skill.todos.value|
        invariant r == todos + tagged[..j]
      {
        r := r + [TodoWithSkill(skill.todos.value[j], skill, skill.id)];
        assert tagged[..j + 1] == tagged[..j] + [tagged[j]];
        j := j + 1;
      }
      assert tagged[..j] == tagged;
    } else {
      assert Tagged(skill) == [];
    }
  }

  /** The loop of the view: walk the skills and push each todo of each one. */
  method CollectTodos(skills: seq<Skill>) returns (todos: seq<TodoWithSkill>)
    ensures todos == AllTodos(skills)
  {
    todos := [];
    var i := 0;
    while i < |skills|
      invariant 0 <= i <= |skills|
      invariant todos == AllTodos(skills[..i])
    {
      todos := PushTodos(todos, skills[i]);
      AllTodosSnoc(skills, i);
      i := i + 1;
    }
    assert skills[..i] == skills;
  }

  /** The status selector of the view. */
  datatype StatusFilter = Everything | ActiveOnly | CompletedOnly

  /** The priority selector: `all` or one priority. */
  datatype PriorityFilter = AnyPriority | OnlyPriority(priority: Priority)

  /** The sort selector. Sorting by skill title is not part of this model. */
  datatype SortMode = ByDueDate | ByPriority | ByCreated

  /** The view's selectors; `skill` is "all" or a skill id, `search` is the raw query text. */
  datatype TodoQuery = TodoQuery(status: StatusFilter, priority: PriorityFilter, skill: string, search: string, sortBy: SortMode)

  function KeepsStatus(f: StatusFilter): TodoWithSkill -> bool
  {
    (t: TodoWithSkill) =>
      match f
      case Everything => true
      case ActiveOnly => !t.todo.completed
      case CompletedOnly => t.todo.completed
  }

  function HasPriority(p: Priority): TodoWithSkill -> bool
  {
    (t: TodoWithSkill) => t.todo.priority == p
  }

  function OfSkill(id: string): TodoWithSkill -> bool
  {
    (t: TodoWithSkill) => t.skillId == id
  }

  /** The search test: the lower-cased query, untrimmed, occurs in the todo's or the skill's title. */
  predicate TitleHit(t: TodoWithSkill, query: string)
  {
    Contains(Lower(t.todo.title), Lower(query)) || Contains(Lower(t.skill.title), Lower(query))
  }

  function SearchHits(query: string): TodoWithSkill -> bool
  {
    (t: TodoWithSkill) => TitleHit(t, query)
  }

  /** The four filters of the view, applied one after another, each skipped when its selector is off. */
  function ApplyFilters(all: seq<TodoWithSkill>, q: TodoQuery): seq<TodoWithSkill>
  {
    var a := if q.status == Everything then all else Filter(all, KeepsStatus(q.status));
    var b := if q.priority.AnyPriority? then a else Filter(a, HasPriority(q.priority.priority));
    var c := if q.skill == "all" then b else Filter(b, OfSkill(q.skill));
    if !IsBlank(q.search) then Filter(c, SearchHits(q.search)) else c
  }

  /** The conjunction a listed todo satisfies, stated selector by selector. */
  predicate Matches(t: TodoWithSkill, q: TodoQuery)
  {
    && (q.status == ActiveOnly ==> !t.todo.completed)
    && (q.status == CompletedOnly ==> t.todo.completed)
    && (q.priority.OnlyPriority? ==> t.todo.priority == q.priority.priority)
    && (q.skill != "all" ==> t.skillId == q.skill)
    && (!IsBlank(q.search) ==> TitleHit(t, q.search))
  }

  function MatchesQuery(q: TodoQuery): TodoWithSkill -> bool
  {
    (t: TodoWithSkill) => Matches(t, q)
  }

  function StatusStage(q: TodoQuery): TodoWithSkill -> bool
  {
    (t: TodoWithSkill) => (q.status == ActiveOnly ==> !t.todo.completed) && (q.status == CompletedOnly ==> t.todo.completed)
  }

  function PriorityStage(q: TodoQuery): TodoWithSkill -> bool
  {
    (t: TodoWithSkill) => q.priority.OnlyPriority? ==> t.todo.priority == q.priority.priority
  }

  function SkillStage(q: TodoQuery): TodoWithSkill -> bool
  {
    (t: TodoWithSkill) => q.skill != "all" ==> t.skillId == q.skill
  }

  function SearchStage(q: TodoQuery): TodoWithSkill -> bool
  {
    (t: TodoWithSkill) => !IsBlank(q.search) ==> TitleHit(t, q.search)
  }

  /** A filter applied only when `skip` is false is a filter by the predicate that
      also holds whenever `skip` does. */
  lemma SkippableStage(s: seq<TodoWithSkill>, skip: bool, p: TodoWithSkill -> bool, stage: TodoWithSkill -> bool)
    requires forall x :: stage(x) == (skip || p(x))
    ensures (if skip then s else Filter(s, p)) == Filter(s, stage)
  {
    if skip {
      FilterAll(s, stage);
    } else {
      FilterExt(s, p, stage);
    }
  }

  /** The four stage predicates together say exactly what `Matches` says. */
  lemma StagesAgree(q: TodoQuery, x: TodoWithSkill)
    ensures And(And(And(StatusStage(q), PriorityStage(q)), SkillStage(q)), SearchStage(q))(x) == Matches(x, q)
  {
    var p1, p2, p3, p4 := StatusStage(q), PriorityStage(q), SkillStage(q), SearchStage(q);
    assert And(And(And(p1, p2), p3), p4)(x) == (And(And(p1, p2), p3)(x) && p4(x));
    assert And(And(p1, p2), p3)(x) == (And(p1, p2)(x) && p3(x));
    assert And(p1, p2)(x) == (p1(x) && p2(x));
  }

  /** Running the filters in sequence keeps exactly the todos matching every selector. */
  lemma ApplyFiltersIsConjunction(all: seq<TodoWithSkill>, q: TodoQuery)
    ensures ApplyFilters(all, q) == Filter(all, MatchesQuery(q))
  {
    var p1, p2, p3, p4 := StatusStage(q), PriorityStage(q), SkillStage(q), SearchStage(q);
    var a := if q.status == Everything then all else Filter(all, KeepsStatus(q.status));
    var b := if q.priority.AnyPriority? then a else Filter(a, HasPriority(q.priority.priority));
    var c := if q.skill == "all" then b else Filter(b, OfSkill(q.skill));
    assert a == Filter(all, p1) by {
      SkippableStage(all, q.status == Everything, KeepsStatus(q.status), p1);
    }
    assert b == Filter(a, p2) by {
      if q.priority.AnyPriority? {
        FilterAll(a, p2);
      } else {
        FilterExt(a, HasPriority(q.priority.priority), p2);
      }
    }
    assert c == Filter(b, p3) by {
      SkippableStage(b, q.skill == "all", OfSkill(q.skill), p3);
    }
    assert ApplyFilters(all, q) == Filter(c, p4) by {
      SkippableStage(c, IsBlank(q.search), SearchHits(q.search), p4);
    }
    var conj := And(And(And(p1, p2), p3), p4);
    assert Filter(c, p4) == Filter(all, conj) by {
      FilterFilter(all, p1, p2);
      FilterFilter(all, And(p1, p2), p3);
      FilterFilter(all, And(And(p1, p2), p3), p4);
    }
    assert Filter(all, conj) == Filter(all, MatchesQuery(q)) by {
      forall x | x in all
        ensures conj(x) == MatchesQuery(q)(x)
      {
        StagesAgree(q, x);
      }
      FilterExt(all, conj, MatchesQuery(q));
    }
  }

  /** A todo has a due date when the field is present and not the empty string. */
  predicate HasDueDate(t: Todo)
  {
    t.dueDate.Some? && t.dueDate.value != ""
  }

  /** high = 0, medium = 1, low = 2. */
  function PriorityRank(p: Priority): int
  {
    match p
    case High => 0
    case Medium => 1
    case Low => 2
  }

  /** The view's comparator, with the difference of two parsed due dates replaced
      by the three-way comparison of the date strings. */
  function CompareTodos(a: TodoWithSkill, b: TodoWithSkill, mode: SortMode): int
  {
    match mode
    case ByDueDate =>
      if !HasDueDate(a.todo) && !HasDueDate(b.todo) then 0
      else if !HasDueDate(a.todo) then 1
      else if !HasDueDate(b.todo) then -1
      else LexCompare(Codes(a.todo.dueDate.value), Codes(b.todo.dueDate.value))
    case ByPriority => PriorityRank(a.todo.priority) - PriorityRank(b.todo.priority)
    case ByCreated => 0
  }

  /** The sort key that orders todos as the comparator does: dated todos by date,
      then the undated ones; or by priority rank; or all equal. */
  function TodoKey(mode: SortMode): TodoWithSkill -> seq<int>
  {
    (t: TodoWithSkill) =>
      match mode
      case ByDueDate => if HasDueDate(t.todo) then [0] + Codes(t.todo.dueDate.value) else [1]
      case ByPriority => [PriorityRank(t.todo.priority)]
      case ByCreated => []
  }

  /** The comparator and the key agree: `a` may precede `b` exactly when its key is not above `b`'s,
      and the comparator answers 0 exactly on equal keys. */
  lemma CompareAgreesWithKey(a: TodoWithSkill, b: TodoWithSkill, mode: SortMode)
    ensures CompareTodos(a, b, mode) <= 0 <==> LexLe(TodoKey(mode)(a), TodoKey(mode)(b))
    ensures CompareTodos(a, b, mode) == 0 <==> TodoKey(mode)(a) == TodoKey(mode)(b)
  {
    if mode == ByDueDate && HasDueDate(a.todo) && HasDueDate(b.todo) {
      var ca := Codes(a.todo.dueDate.value);
      var cb := Codes(b.todo.dueDate.value);
      LexCompareAgrees(ca, cb);
      assert ([0] + ca)[1..] == ca && ([0] + cb)[1..] == cb;
      assert [0] + ca == [0] + cb <==> ca == cb by {
        if [0] + ca == [0] + cb {
          assert ca == ([0] + ca)[1..];
        }
      }
    }
  }

  /** `filteredTodos`: the filtered todos in the order the sort selector asks for. */
  function FilteredTodos(all: seq<TodoWithSkill>, q: TodoQuery): (r: seq<TodoWithSkill>)
    ensures forall t :: t in r <==> t in all && Matches(t, q)
    ensures multiset(r) == multiset(Filter(all, MatchesQuery(q)))
    ensures SortedBy(r, TodoKey(q.sortBy))
    ensures q.sortBy == ByCreated ==> r == Filter(all, MatchesQuery(q)) && IsSubseq(r, all)
  {
    SortedFilteredFacts(all, q);
    SortBy(ApplyFilters(all, q), TodoKey(q.sortBy))
  }

  lemma SortedFilteredFacts(all: seq<TodoWithSkill>, q: TodoQuery)
    ensures var r := SortBy(ApplyFilters(all, q), TodoKey(q.sortBy));
            && (forall t :: t in r <==> t in all && Matches(t, q))
            && multiset(r) == multiset(Filter(all, MatchesQuery(q)))
            && SortedBy(r, TodoKey(q.sortBy))
            && (q.sortBy == ByCreated ==> r == Filter(all, MatchesQuery(q)) && IsSubseq(r, all))
  {
    ApplyFiltersIsConjunction(all, q);
    var f := ApplyFilters(all, q);
    SortBySorted(f, TodoKey(q.sortBy));
    if q.sortBy == ByCreated {
      SortBySingleKey(f, TodoKey(q.sortBy), []);
      FilterIsSubseq(all, MatchesQuery(q));
    }
    var r := SortBy(f, TodoKey(q.sortBy));
    assert forall t :: t in r <==> t in multiset(r);
    assert forall t :: t in f <==> t in multiset(f);
  }

  /** With the status selector on `active` the list holds exactly the incomplete todos
      passing the other selectors; on `completed`, exactly the completed ones. */
  lemma StatusSelector(all: seq<TodoWithSkill>, q: TodoQuery, t: TodoWithSkill)
    requires t in all && Matches(t, q.(status := Everything))
    ensures q.status == ActiveOnly ==> (t in FilteredTodos(all, q) <==> !t.todo.completed)
    ensures q.status == CompletedOnly ==> (t in FilteredTodos(all, q) <==> t.todo.completed)
    ensures q.status == Everything ==> t in FilteredTodos(all, q)
  {
  }

  /** A query of white space only filters nothing. */
  lemma BlankSearchKeepsAll(all: seq<TodoWithSkill>, q: TodoQuery)
    requires IsBlank(q.search)
    ensures ApplyFilters(all, q) == ApplyFilters(all, q.(search := ""))
  {
    assert IsBlank("");
  }

  /** The query is not trimmed before matching: " react" finds no todo titled "react"
      in a skill titled "go", although it is not blank. */
  lemma SearchIsUntrimmed(t: TodoWithSkill)
    requires t.todo.title == "react" && t.skill.title == "go"
    ensures !IsBlank(" react")
    ensures !SearchHits(" react")(t)
  {
    assert !IsBlank(" react") by {
      assert !IsSpace(" react"[1]);
      BlankIffAllSpace(" react");
    }
    var q := Lower(" react");
    assert |q| == 6;
    assert !Contains(Lower(t.todo.title), q) by {
      assert |Lower(t.todo.title)| == 5;
    }
    assert !Contains(Lower(t.skill.title), q) by {
      assert |Lower(t.skill.title)| == 2;
    }
  }

  /** In a sequence sorted by the priority key, high comes before medium before low. */
  lemma PriorityKeyOrder(r: seq<TodoWithSkill>)
    requires SortedBy(r, TodoKey(ByPriority))
    ensures forall i, j :: 0 <= i < j < |r| ==> PriorityRank(r[i].todo.priority) <= PriorityRank(r[j].todo.priority)
  {
    var key := TodoKey(ByPriority);
    forall i, j | 0 <= i < j < |r|
      ensures PriorityRank(r[i].todo.priority) <= PriorityRank(r[j].todo.priority)
    {
      assert LexLe(key(r[i]), key(r[j]));
      assert key(r[i]) == [PriorityRank(r[i].todo.priority)];
      assert key(r[j]) == [PriorityRank(r[j].todo.priority)];
    }
  }

  /** Under the priority sort, high comes before medium before low. */
  lemma PrioritySortOrder(all: seq<TodoWithSkill>, q: TodoQuery)
    requires q.sortBy == ByPriority
    ensures var r := FilteredTodos(all, q);
            forall i, j :: 0 <= i < j < |r| ==> PriorityRank(r[i].todo.priority) <= PriorityRank(r[j].todo.priority)
  {
    PriorityKeyOrder(FilteredTodos(all, q));
  }

  /** In a sequence sorted by the due-date key, every dated todo precedes every
      undated one and dated ones come in date order. */
  lemma DueDateKeyOrder(r: seq<TodoWithSkill>)
    requires SortedBy(r, TodoKey(ByDueDate))
    ensures forall i, j :: 0 <= i < j < |r| && HasDueDate(r[j].todo) ==> HasDueDate(r[i].todo)
    ensures forall i, j :: 0 <= i < j < |r| && HasDueDate(r[i].todo) && HasDueDate(r[j].todo) ==>
              LexLe(Codes(r[i].todo.dueDate.value), Codes(r[j].todo.dueDate.value))
  {
    var key := TodoKey(ByDueDate);
    forall i, j | 0 <= i < j < |r|
      ensures HasDueDate(r[j].todo) ==> HasDueDate(r[i].todo)
      ensures HasDueDate(r[i].todo) && HasDueDate(r[j].todo) ==>
                LexLe(Codes(r[i].todo.dueDate.value), Codes(r[j].todo.dueDate.value))
    {
      assert LexLe(key(r[i]), key(r[j]));
      if HasDueDate(r[i].todo) && HasDueDate(r[j].todo) {
        var ci := Codes(r[i].todo.dueDate.value);
        var cj := Codes(r[j].todo.dueDate.value);
        assert key(r[i]) == [0] + ci && key(r[j]) == [0] + cj;
        assert ([0] + ci)[1..] == ci && ([0] + cj)[1..] == cj;
      }
    }
  }

  /** Under the due-date sort, every dated todo precedes every undated one, dated ones
      come in date order, and undated ones keep their relative order. */
  lemma DueDateSortOrder(all: seq<TodoWithSkill>, q: TodoQuery)
    requires q.sortBy == ByDueDate
    ensures var r := FilteredTodos(all, q);
            forall i, j :: 0 <= i < j < |r| && HasDueDate(r[j].todo) ==> HasDueDate(r[i].todo)
    ensures var r := FilteredTodos(all, q);
            forall i, j :: 0 <= i < j < |r| && HasDueDate(r[i].todo) && HasDueDate(r[j].todo) ==>
              LexLe(Codes(r[i].todo.dueDate.value), Codes(r[j].todo.dueDate.value))
    ensures Filter(FilteredTodos(all, q), Undated()) == Filter(ApplyFilters(all, q), Undated())
  {
    var r := FilteredTodos(all, q);
    DueDateKeyOrder(r);
    var key := TodoKey(ByDueDate);
    var f := ApplyFilters(all, q);
    assert Filter(r, KeyIs(key, [1])) == Filter(f, KeyIs(key, [1])) by {
      SortByStable(f, key, [1]);
    }
    assert Filter(r, KeyIs(key, [1])) == Filter(r, Undated()) by {
      FilterExt(r, KeyIs(key, [1]), Undated());
    }
    assert Filter(f, KeyIs(key, [1])) == Filter(f, Undated()) by {
      FilterExt(f, KeyIs(key, [1]), Undated());
    }
  }

  function Undated(): TodoWithSkill -> bool
  {
    (t: TodoWithSkill) => !HasDueDate(t.todo)
  }

  /** Two undated todos compare equal under the due-date sort. */
  lemma UndatedCompareEqual(a: TodoWithSkill, b: TodoWithSkill)
    requires !HasDueDate(a.todo) && !HasDueDate(b.todo)
    ensures CompareTodos(a, b, ByDueDate) == 0
  {
  }

  /** No filter stage applies: every selector is on `all` and the search is blank. */
  predicate NoStageApplies(q: TodoQuery)
  {
    q.status == Everything && q.priority.AnyPriority? && q.skill == "all" && IsBlank(q.search)
  }

  /** `filteredTodos` as written: `filtered` starts as the memoised `allTodos` array,
      a stage replaces it by a copy only when it applies, and `sort` reorders the
      array it is given in place. The first component is the list shown; the second
      is the memoised array afterwards, which is rebuilt in store order only when the
      skills change. `FilteredTodos` is the intended behaviour, sorting a copy. */
  function FilteredTodosInPlace(memo: seq<TodoWithSkill>, q: TodoQuery): (r: (seq<TodoWithSkill>, seq<TodoWithSkill>))
    ensures r.0 == FilteredTodos(memo, q)
    ensures multiset(r.1) == multiset(memo)
    ensures NoStageApplies(q) ==> r.1 == r.0
    ensures !NoStageApplies(q) ==> r.1 == memo
  {
    var shown := FilteredTodos(memo, q);
    if NoStageApplies(q) then
      assert ApplyFilters(memo, q) == memo;
      (shown, shown)
    else (shown, memo)
  }

  const SampleSkill: Skill := Skill("s", "Go", "", "1", Learning, 0, "", "", [], [], [], None, None, None)
  const LowTodo: TodoWithSkill := TodoWithSkill(Todo("a", "a", false, None, Low, None), SampleSkill, "s")
  const HighTodo: TodoWithSkill := TodoWithSkill(Todo("b", "b", false, None, High, None), SampleSkill, "s")

  /** With no stage applying, the stages hand the list on unchanged. */
  lemma NoStageKeepsAll(all: seq<TodoWithSkill>, q: TodoQuery)
    requires NoStageApplies(q)
    ensures ApplyFilters(all, q) == all
  {
  }

  lemma PrioritySortOfTwo()
    ensures SortBy([LowTodo, HighTodo], TodoKey(ByPriority)) == [HighTodo, LowTodo]
  {
    var key := TodoKey(ByPriority);
    assert key(LowTodo) == [2] && key(HighTodo) == [0];
    assert [LowTodo, HighTodo][1..] == [HighTodo];
    assert SortBy([HighTodo], key) == [HighTodo] by {
      assert [HighTodo][1..] == [];
    }
    assert !LexLe([2], [0]);
    assert Insert(LowTodo, [HighTodo], key) == [HighTodo] + Insert(LowTodo, [], key);
  }

  lemma CreatedSortOfTwo(a: TodoWithSkill, b: TodoWithSkill)
    ensures SortBy([a, b], TodoKey(ByCreated)) == [a, b]
  {
    var key := TodoKey(ByCreated);
    assert key(a) == [] && key(b) == [];
    assert [a, b][1..] == [b];
    assert SortBy([b], key) == [b] by {
      assert [b][1..] == [];
    }
  }

  /** A priority sort with no filter leaks into the `created` order: with a low and then
      a high todo in store order, sorting by priority and switching back to `created`
      shows the high todo first, where store order puts the low one first. */
  lemma PrioritySortLeaksIntoCreated()
    ensures var all := [LowTodo, HighTodo];
            var byPriority := TodoQuery(Everything, AnyPriority, "all", "", ByPriority);
            var first := FilteredTodosInPlace(all, byPriority);
            var second := FilteredTodosInPlace(first.1, byPriority.(sortBy := ByCreated));
            && second.0 == [HighTodo, LowTodo]
            && FilteredTodos(all, byPriority.(sortBy := ByCreated)) == [LowTodo, HighTodo]
  {
    var all := [LowTodo, HighTodo];
    var q := TodoQuery(Everything, AnyPriority, "all", "", ByPriority);
    var q2 := q.(sortBy := ByCreated);
    BlankIffAllSpace("");
    NoStageKeepsAll(all, q);
    NoStageKeepsAll(all, q2);
    NoStageKeepsAll([HighTodo, LowTodo], q2);
    PrioritySortOfTwo();
    CreatedSortOfTwo(HighTodo, LowTodo);
    CreatedSortOfTwo(LowTodo, HighTodo);
    assert FilteredTodosInPlace(all, q).1 == [HighTodo, LowTodo];
  }

  /** `a` is strictly before `b` in the lexicographic order. */
  predicate LexLt(a: seq<int>, b: seq<int>)
  {
    !LexLe(b, a)
  }

  /** `isOverdue`: an incomplete todo whose due date lies before `now`. Dates and `now`
      are ISO-8601 strings compared character by character. */
  predicate IsOverdue(t: TodoWithSkill, now: string)
  {
    !t.todo.completed && HasDueDate(t.todo) && LexLt(Codes(t.todo.dueDate.value), Codes(now))
  }

  function OverdueAt(now: string): TodoWithSkill -> bool
  {
    (t: TodoWithSkill) => IsOverdue(t, now)
  }

  function IsDone(): TodoWithSkill -> bool
  {
    (t: TodoWithSkill) => t.todo.completed
  }

  function OpenHigh(): TodoWithSkill -> bool
  {
    (t: TodoWithSkill) => !t.todo.completed && t.todo.priority == High
  }

  datatype TodoStats = TodoStats(total: int, completed: int, active: int, highPriority: int, overdue: int)

  /** `stats`: the counts shown above the list. The high-priority count is the
      number of active todos whose priority is high. */
  function ComputeStats(all: seq<TodoWithSkill>, now: string): (r: TodoStats)
    ensures r.total == |all|
    ensures 0 <= r.completed <= r.total
    ensures r.completed == |Filter(all, IsDone())|
    ensures r.completed + r.active == r.total
    ensures r.active == |Filter(all, Not(IsDone()))|
    ensures r.highPriority == |Filter(Filter(all, Not(IsDone())), HasPriority(High))|
    ensures 0 <= r.highPriority <= r.active
    ensures r.overdue == |Filter(all, OverdueAt(now))|
    ensures 0 <= r.overdue <= r.active
  {
    StatsFacts(all, now);
    var total := |all|;
    var completed := |Filter(all, IsDone())|;
    TodoStats(total, completed, total - completed, |Filter(all, OpenHigh())|, |Filter(all, OverdueAt(now))|)
  }

  lemma StatsFacts(all: seq<TodoWithSkill>, now: string)
    ensures |Filter(all, IsDone())| + |Filter(all, Not(IsDone()))| == |all|
    ensures Filter(all, OpenHigh()) == Filter(Filter(all, Not(IsDone())), HasPriority(High))
    ensures |Filter(all, OpenHigh())| <= |Filter(all, Not(IsDone()))|
    ensures |Filter(all, OverdueAt(now))| <= |Filter(all, Not(IsDone()))|
  {
    FilterPartition(all, IsDone());
    FilterMonotone(all, OpenHigh(), Not(IsDone()));
    FilterMonotone(all, OverdueAt(now), Not(IsDone()));
    FilterFilter(all, Not(IsDone()), HasPriority(High));
    FilterExt(all, OpenHigh(), And(Not(IsDone()), HasPriority(High)));
  }

  /** A completed todo, or one without a due date, is never overdue. */
  lemma NeverOverdue(t: TodoWithSkill, now: string)
    requires t.todo.completed || t.todo.dueDate.None? || t.todo.dueDate == Some("")
    ensures !IsOverdue(t, now)
    ensures !OverdueAt(now)(t)
  {
  }

  /** The todo form. `dueDate` is the date input's text, empty when no date is chosen. */
  datatype TodoForm = TodoForm(title: string, skillId: string, priority: Priority, dueDate: string)

  /** The todo being edited and the skill it was opened from. */
  datatype EditingTodo = EditingTodo(skillId: string, todoId: string)

  datatype NewTodo = NewTodo(title: string, completed: bool, priority: Priority, dueDate: Option<string>)

  datatype TodoChanges = TodoChanges(title: string, priority: Priority, dueDate: Option<string>)

  /** The store call a submission makes. The store in this model declares no todo
      operations, so these calls are recorded with their arguments only. */
  datatype TodoCall =
    | NoTodoCall
    | AddTodoCall(skillId: string, newTodo: NewTodo)
    | UpdateTodoCall(skillId: string, todoId: string, changes: TodoChanges)

  /** `value || undefined` on a string: the empty string becomes absent. */
  function OrUndefined(s: string): (r: Option<string>)
    ensures r.None? <==> s == ""
    ensures r.Some? ==> r.value == s
  {
    if s == "" then None else Some(s)
  }

  /** `handleSubmit`: nothing for a blank title or no skill; otherwise update the
      edited todo under the skill it came from, or add a new incomplete one. */
  function SubmitTodo(form: TodoForm, editing: Option<EditingTodo>): (r: TodoCall)
    ensures r.NoTodoCall? <==> AllSpace(form.title) || form.skillId == ""
    ensures r.AddTodoCall? <==> !r.NoTodoCall? && editing.None?
    ensures r.AddTodoCall? ==>
              && r.skillId == form.skillId
              && r.newTodo.title == form.title
              && !r.newTodo.completed
              && r.newTodo.priority == form.priority
              && r.newTodo.dueDate == (if form.dueDate == "" then None else Some(form.dueDate))
    ensures r.UpdateTodoCall? ==>
              && editing.Some?
              && r.skillId == editing.value.skillId
              && r.todoId == editing.value.todoId
              && r.changes.title == form.title
              && r.changes.priority == form.priority
              && r.changes.dueDate == (if form.dueDate == "" then None else Some(form.dueDate))
  {
    BlankIffAllSpace(form.title);
    if IsBlank(form.title) || form.skillId == "" then NoTodoCall
    else if editing.Some? then
      UpdateTodoCall(editing.value.skillId, editing.value.todoId,
                     TodoChanges(form.title, form.priority, OrUndefined(form.dueDate)))
    else
      AddTodoCall(form.skillId, NewTodo(form.title, false, form.priority, OrUndefined(form.dueDate)))
  }
}
