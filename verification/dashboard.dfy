/** The dashboard (components/dashboard.tsx): per-status counts, the rounded mean
    progress, the status pie, the category histogram and the recent activity. */
module Dashboard {
  import opened Types
  import opened Seqs
  import Store

  /** The pie colours, one per status in pipeline order. */
  const Colors: seq<string> := ["#3b82f6", "#10b981", "#f59e0b", "#ef4444"]

  /** The number of skills with the status. */
  function StatusCount(skills: seq<Skill>, status: Status): nat
  {
    |Filter(skills, Store.HasStatus(status))|
  }

  /** The sum of the skills' progress values (`reduce` from 0). */
  function SumProgress(skills: seq<Skill>): int
  {
    if skills == [] then 0 else skills[0].progress + SumProgress(skills[1..])
  }

  /** Math.round(sum / n): the integer nearest to the mean, halves rounded up. */
  function RoundedMean(sum: int, n: int): (r: int)
    requires n > 0
    ensures 2 * n * r - n <= 2 * sum < 2 * n * r + n
  {
    var q := (2 * sum + n) / (2 * n);
    var m := (2 * sum + n) % (2 * n);
    assert 2 * sum + n == 2 * n * q + m && 0 <= m < 2 * n;
    q
  }

  /** avgProgress: 0 without skills, otherwise the rounded mean progress. */
  function AvgProgress(skills: seq<Skill>): (r: int)
    ensures skills == [] ==> r == 0
    ensures skills != [] ==>
              2 * |skills| * r - |skills| <= 2 * SumProgress(skills) < 2 * |skills| * r + |skills|
  {
    if |skills| > 0 then RoundedMean(SumProgress(skills), |skills|) else 0
  }

  datatype Stats = Stats(total: int, toLearn: int, learning: int, practiced: int, mastered: int, avgProgress: int)

  /** `stats`: the total, one count per status, and the mean progress. */
  function ComputeStats(skills: seq<Skill>): (r: Stats)
    ensures r.total == |skills|
    ensures r.toLearn + r.learning + r.practiced + r.mastered == r.total
    ensures r.toLearn == StatusCount(skills, ToLearn) && r.learning == StatusCount(skills, Learning)
    ensures r.practiced == StatusCount(skills, Practiced) && r.mastered == StatusCount(skills, Mastered)
    ensures r.toLearn >= 0 && r.learning >= 0 && r.practiced >= 0 && r.mastered >= 0
    ensures r.avgProgress == AvgProgress(skills)
  {
    StatusCountsSum(skills);
    Stats(|skills|, StatusCount(skills, ToLearn), StatusCount(skills, Learning),
          StatusCount(skills, Practiced), StatusCount(skills, Mastered), AvgProgress(skills))
  }

  /** Every skill has exactly one of the four statuses, so the counts sum to the total. */
  lemma {:induction false} StatusCountsSum(skills: seq<Skill>)
    ensures StatusCount(skills, ToLearn) + StatusCount(skills, Learning)
          + StatusCount(skills, Practiced) + StatusCount(skills, Mastered) == |skills|
  {
    if skills != [] {
      StatusCountsSum(skills[1..]);
      StatusCountCons(skills, ToLearn);
      StatusCountCons(skills, Learning);
      StatusCountCons(skills, Practiced);
      StatusCountCons(skills, Mastered);
    }
  }

  lemma StatusCountCons(skills: seq<Skill>, status: Status)
    requires skills != []
    ensures StatusCount(skills, status)
         == (if skills[0].status == status then 1 else 0) + StatusCount(skills[1..], status)
  {
  }

  /** Progress values within 0..100 sum to at most 100 per skill. */
  lemma {:induction false} SumProgressBounds(skills: seq<Skill>)
    requires forall i :: 0 <= i < |skills| ==> ProgressInRange(skills[i])
    ensures 0 <= SumProgress(skills) <= 100 * |skills|
  {
    if skills != [] {
      assert ProgressInRange(skills[0]);
      SumProgressBounds(skills[1..]);
    }
  }

  /** When every progress lies in 0..100, so does the average. */
  lemma AvgProgressInRange(skills: seq<Skill>)
    requires forall i :: 0 <= i < |skills| ==> ProgressInRange(skills[i])
    ensures 0 <= AvgProgress(skills) <= 100
  {
    if skills != [] {
      SumProgressBounds(skills);
      RoundedMeanBounds(SumProgress(skills), |skills|, AvgProgress(skills));
    }
  }

  /** The nearest integer to a mean of values in 0..100 lies in 0..100. */
  lemma RoundedMeanBounds(sum: int, n: int, r: int)
    requires n > 0 && 0 <= sum <= 100 * n
    requires 2 * n * r - n <= 2 * sum < 2 * n * r + n
    ensures 0 <= r <= 100
  {
    assert 2 * n * (r - 101) < 0 by {
      assert 2 * n * (r - 101) == 2 * n * r - 202 * n;
    }
    assert 2 * n * (r + 1) > 0 by {
      assert 2 * n * (r + 1) == 2 * n * r + 2 * n;
    }
  }

  /** One slice of the status pie. */
  datatype Slice = Slice(name: string, value: int, color: string)

  /** The four slices before empty ones are dropped, in pipeline order. */
  function AllSlices(stats: Stats): seq<Slice>
  {
    [ Slice("To Learn", stats.toLearn, Colors[0]),
      Slice("Learning", stats.learning, Colors[1]),
      Slice("Practiced", stats.practiced, Colors[2]),
      Slice("Mastered", stats.mastered, Colors[3]) ]
  }

  function NonEmptySlice(): Slice -> bool
  {
    (s: Slice) => s.value > 0
  }

  function SliceSum(s: seq<Slice>): int
  {
    if s == [] then 0 else s[0].value + SliceSum(s[1..])
  }

  /** `statusData`: the slices with a positive count, in the fixed order. */
  function StatusData(stats: Stats): (r: seq<Slice>)
    ensures |r| <= 4
    ensures forall i :: 0 <= i < |r| ==> r[i].value > 0
    ensures forall x :: x in r <==> x in AllSlices(stats) && x.value > 0
    ensures IsSubseq(r, AllSlices(stats))
  {
    FilterIsSubseq(AllSlices(stats), NonEmptySlice());
    Filter(AllSlices(stats), NonEmptySlice())
  }

  /** Dropping slices of non-positive value keeps the sum of a sequence of
      non-negative values. */
  lemma {:induction false} DropZeroSlices(s: seq<Slice>)
    requires forall i :: 0 <= i < |s| ==> s[i].value >= 0
    ensures SliceSum(Filter(s, NonEmptySlice())) == SliceSum(s)
  {
    if s != [] {
      DropZeroSlices(s[1..]);
    }
  }

  /** The pie's values add up to the number of skills. */
  lemma StatusDataSumsToTotal(skills: seq<Skill>)
    ensures SliceSum(StatusData(ComputeStats(skills))) == |skills|
  {
    PieSumsCounts(ComputeStats(skills));
  }

  /** With no negative count, the pie's values add up to the four status counts. */
  lemma PieSumsCounts(stats: Stats)
    requires stats.toLearn >= 0 && stats.learning >= 0 && stats.practiced >= 0 && stats.mastered >= 0
    ensures SliceSum(StatusData(stats)) == stats.toLearn + stats.learning + stats.practiced + stats.mastered
  {
    var all := AllSlices(stats);
    DropZeroSlices(all);
    SumOfFour(all);
  }

  lemma SumOfFour(s: seq<Slice>)
    requires |s| == 4
    ensures SliceSum(s) == s[0].value + s[1].value + s[2].value + s[3].value
  {
    assert SliceSum(s[3..]) == s[3].value by {
      assert s[3..][1..] == [];
    }
    assert SliceSum(s[2..]) == s[2].value + s[3].value by {
      assert s[2..][1..] == s[3..];
    }
    assert SliceSum(s[1..]) == s[1].value + s[2].value + s[3].value by {
      assert s[1..][1..] == s[2..];
    }
  }

  /** One bar of the category histogram. */
  datatype Bar = Bar(name: string, count: int, color: string)

  /** The bar of one category: its name, the number of skills referencing its id, its colour. */
  function BarOf(c: Category, skills: seq<Skill>): Bar
  {
    Bar(c.name, |Filter(skills, Store.InCategory(c.id))|, c.color)
  }

  /** `categories.map(...)`: one bar per category, in category order. */
  function Bars(categories: seq<Category>, skills: seq<Skill>): (r: seq<Bar>)
    ensures |r| == |categories|
    ensures forall i :: 0 <= i < |r| ==> r[i] == BarOf(categories[i], skills)
  {
    seq(|categories|, i requires 0 <= i < |categories| => BarOf(categories[i], skills))
  }

  function NonEmptyBar(): Bar -> bool
  {
    (b: Bar) => b.count > 0
  }

  /** The comparator `b.count - a.count` as a sort key: larger counts first. */
  function CountKey(): Bar -> seq<int>
  {
    (b: Bar) => [-b.count]
  }

  /** The most bars the histogram shows. */
  const MaxBars: nat := 10

  /** The non-empty bars sorted by decreasing count, ties in category order.
      The sort key is `CountKey`, which orders bars as the comparator
      `b.count - a.count` does (`CountKeyAgrees`). */
  function RankedBars(categories: seq<Category>, skills: seq<Skill>): (r: seq<Bar>)
    ensures forall b :: b in r <==> b in Bars(categories, skills) && b.count > 0
    ensures multiset(r) == multiset(Filter(Bars(categories, skills), NonEmptyBar()))
    ensures forall i, j :: 0 <= i < j < |r| ==> r[i].count >= r[j].count
  {
    var f := Filter(Bars(categories, skills), NonEmptyBar());
    var r := SortBy(f, CountKey());
    SortBySorted(f, CountKey());
    CountKeyOrder(r);
    assert forall b :: b in r <==> b in multiset(r);
    assert forall b :: b in f <==> b in multiset(f);
    r
  }

  function CountIs(n: int): Bar -> bool
  {
    (b: Bar) => b.count == n
  }

  /** The sort is stable: bars with equal counts keep their category order. */
  lemma RankedBarsStable(categories: seq<Category>, skills: seq<Skill>, n: int)
    ensures Filter(RankedBars(categories, skills), CountIs(n))
         == Filter(Filter(Bars(categories, skills), NonEmptyBar()), CountIs(n))
  {
    var f := Filter(Bars(categories, skills), NonEmptyBar());
    var r := SortBy(f, CountKey());
    SortByStable(f, CountKey(), [-n]);
    forall b: Bar
      ensures KeyIs(CountKey(), [-n])(b) == CountIs(n)(b)
    {
      CountKeyIs(n, b);
    }
    FilterExt(r, KeyIs(CountKey(), [-n]), CountIs(n));
    FilterExt(f, KeyIs(CountKey(), [-n]), CountIs(n));
  }

  lemma CountKeyIs(n: int, b: Bar)
    ensures KeyIs(CountKey(), [-n])(b) == CountIs(n)(b)
  {
    assert CountKey()(b) == [-b.count];
    if [-b.count] == [-n] {
      assert [-b.count][0] == [-n][0];
    }
  }

  /** In a sequence sorted by the count key, counts never increase. */
  lemma CountKeyOrder(r: seq<Bar>)
    requires SortedBy(r, CountKey())
    ensures forall i, j :: 0 <= i < j < |r| ==> r[i].count >= r[j].count
  {
    forall i, j | 0 <= i < j < |r|
      ensures r[i].count >= r[j].count
    {
      assert LexLe(CountKey()(r[i]), CountKey()(r[j]));
      assert CountKey()(r[i]) == [-r[i].count] && CountKey()(r[j]) == [-r[j].count];
    }
  }

  /** The key orders two bars exactly as the comparator `b.count - a.count` does. */
  lemma CountKeyAgrees(a: Bar, b: Bar)
    ensures LexLe(CountKey()(a), CountKey()(b)) <==> b.count - a.count <= 0
  {
    assert CountKey()(a) == [-a.count] && CountKey()(b) == [-b.count];
  }

  /** `b` is the bar of one of the categories. */
  predicate FromCategory(b: Bar, categories: seq<Category>, skills: seq<Skill>)
  {
    exists k :: 0 <= k < |categories| && b == BarOf(categories[k], skills)
  }

  lemma BarFromCategory(categories: seq<Category>, skills: seq<Skill>, b: Bar)
    requires b in Bars(categories, skills)
    ensures FromCategory(b, categories, skills)
  {
    var bars := Bars(categories, skills);
    var k :| 0 <= k < |bars| && bars[k] == b;
    assert b == BarOf(categories[k], skills);
  }

  /** `categoryData`: at most ten bars, each a category with at least one skill,
      in non-increasing order of count. */
  function CategoryData(categories: seq<Category>, skills: seq<Skill>): (r: seq<Bar>)
    ensures |r| <= MaxBars
    ensures forall i :: 0 <= i < |r| ==> r[i].count > 0
    ensures forall i :: 0 <= i < |r| ==> FromCategory(r[i], categories, skills)
    ensures forall i, j :: 0 <= i < j < |r| ==> r[i].count >= r[j].count
    ensures |r| == Min(MaxBars, |RankedBars(categories, skills)|)
    ensures r == RankedBars(categories, skills)[..|r|]
  {
    var ranked := RankedBars(categories, skills);
    TopBarsFacts(categories, skills, ranked);
    Take(ranked, MaxBars)
  }

  lemma TopBarsFacts(categories: seq<Category>, skills: seq<Skill>, ranked: seq<Bar>)
    requires forall b :: b in ranked ==> b in Bars(categories, skills) && b.count > 0
    requires forall i, j :: 0 <= i < j < |ranked| ==> ranked[i].count >= ranked[j].count
    ensures |Take(ranked, MaxBars)| == Min(MaxBars, |ranked|)
    ensures Take(ranked, MaxBars) == ranked[..|Take(ranked, MaxBars)|]
    ensures forall i :: 0 <= i < |Take(ranked, MaxBars)| ==> Take(ranked, MaxBars)[i].count > 0
    ensures forall i :: 0 <= i < |Take(ranked, MaxBars)| ==> FromCategory(Take(ranked, MaxBars)[i], categories, skills)
    ensures forall i, j :: 0 <= i < j < |Take(ranked, MaxBars)| ==>
              Take(ranked, MaxBars)[i].count >= Take(ranked, MaxBars)[j].count
  {
    var r := Take(ranked, MaxBars);
    assert r == ranked[..|r|];
    forall i | 0 <= i < |r|
      ensures r[i].count > 0 && FromCategory(r[i], categories, skills)
    {
      assert ranked[i] in ranked;
      BarFromCategory(categories, skills, ranked[i]);
    }
  }

  /** The histogram shows the top categories: a category with skills that is left
      out has no more skills than any shown bar, and with at most ten such
      categories every one of them is shown. */
  lemma CategoryDataIsTop(categories: seq<Category>, skills: seq<Skill>, c: Category)
    requires c in categories && BarOf(c, skills).count > 0
    ensures BarOf(c, skills) !in CategoryData(categories, skills) ==>
              |CategoryData(categories, skills)| == MaxBars
              && forall i :: 0 <= i < MaxBars ==> CategoryData(categories, skills)[i].count >= BarOf(c, skills).count
  {
    var b := BarOf(c, skills);
    var k :| 0 <= k < |categories| && categories[k] == c;
    assert Bars(categories, skills)[k] == b;
    var ranked := RankedBars(categories, skills);
    assert b in ranked;
    TakeKeepsTop(ranked, b);
  }

  /** Taking the first ten of a sequence ordered by decreasing count leaves out
      only bars no larger than every kept one. */
  lemma TakeKeepsTop(ranked: seq<Bar>, b: Bar)
    requires b in ranked
    requires forall i, j :: 0 <= i < j < |ranked| ==> ranked[i].count >= ranked[j].count
    ensures b !in Take(ranked, MaxBars) ==>
              |Take(ranked, MaxBars)| == MaxBars
              && forall i :: 0 <= i < MaxBars ==> Take(ranked, MaxBars)[i].count >= b.count
  {
    var r := Take(ranked, MaxBars);
    var j :| 0 <= j < |ranked| && ranked[j] == b;
    if j < MaxBars {
      assert r[j] == b;
    }
  }

  /** `recentActivity`: the five newest log entries, or all when there are fewer. */
  function RecentActivity(logs: seq<ActivityLog>): (r: seq<ActivityLog>)
    ensures |r| == Min(5, |logs|)
    ensures r == logs[..|r|]
  {
    Take(logs, 5)
  }
}
