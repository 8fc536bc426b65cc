/**
 * The query side of `getTasks`: turning the query strings into an AND-filter
 * and a single sort key, and the order the document store sorts by.
 */
module TaskQuery {
  import opened Wrappers
  import opened Text
  import opened Seqs
  import opened TaskModel

  /** The query strings of `GET /tasks`; `None` is an absent parameter. */
  datatype QueryParams = QueryParams(priority: Option<string>, completed: Option<string>, sortBy: Option<string>)

  datatype Direction = Ascending | Descending

  /** One sort key (`sort[field] = 1 or -1`). */
  datatype SortSpec = SortSpec(field: string, direction: Direction)

  /** The filter (`match`) and the sort document built from the parameters. */
  datatype Query = Query(priority: Option<string>, completed: Option<bool>, sort: Option<SortSpec>)

  /** JavaScript truthiness of a query parameter: present and not empty. */
  predicate Truthy(p: Option<string>)
  {
    p.Some? && p.value != ""
  }

  /** `sortBy.split(':')`: the first part names the field, the second part decides the direction. */
  function ParseSortBy(sortBy: string): SortSpec
  {
    var parts := Split(sortBy, ':');
    SortSpec(parts[0], if |parts| > 1 && parts[1] == "desc" then Descending else Ascending)
  }

  /**
   * The field is the text before the first ':' (all of it when there is
   * none), and the direction is descending exactly when the text between the
   * first ':' and the next ':' (or the end) is "desc".
   */
  lemma ParseSortByMeaning(sortBy: string)
    ensures var spec := ParseSortBy(sortBy); var n := |spec.field|;
      n <= |sortBy| && sortBy[..n] == spec.field && ':' !in spec.field &&
      (n < |sortBy| ==> sortBy[n] == ':') &&
      (spec.direction == Descending <==>
         n + 5 <= |sortBy| && sortBy[n + 1..n + 5] == "desc" && (n + 5 == |sortBy| || sortBy[n + 5] == ':'))
  {
    var parts := Split(sortBy, ':');
    var n := |parts[0]|;
    SplitFirst(sortBy, ':');
    if n < |sortBy| {
      var tail := sortBy[n + 1..];
      SplitFirst(tail, ':');
      var second := Split(tail, ':')[0];
      assert parts[1] == second;
      if n + 5 <= |sortBy| && sortBy[n + 1..n + 5] == "desc" && (n + 5 == |sortBy| || sortBy[n + 5] == ':') {
        assert tail[..4] == "desc";
        assert ':' !in tail[..4];
        if |second| < 4 {
          assert false;
        }
        assert second[..4] == "desc";
        if |second| > 4 {
          assert false;
        }
        assert second == second[..4];
      }
    }
  }

  /** The filter and sort documents `getTasks` builds from its query strings. */
  function BuildQuery(params: QueryParams): Query
  {
    Query(
      if Truthy(params.priority) then Some(params.priority.value) else None,
      if Truthy(params.completed) then Some(params.completed.value == "true") else None,
      if Truthy(params.sortBy) then Some(ParseSortBy(params.sortBy.value)) else None)
  }

  /** A task satisfies every condition present in the filter. */
  predicate Satisfies(t: Task, q: Query)
  {
    (q.priority.None? || t.priority == q.priority.value) &&
    (q.completed.None? || t.completed == q.completed.value)
  }

  /**
   * The filter in terms of the query strings: a non-empty `priority` demands
   * that exact priority, a non-empty `completed` demands completion exactly
   * when it is "true", and an absent or empty parameter demands nothing.
   */
  lemma FilterMeaning(t: Task, params: QueryParams)
    ensures Satisfies(t, BuildQuery(params)) <==>
      (!Truthy(params.priority) || t.priority == params.priority.value) &&
      (!Truthy(params.completed) || t.completed == (params.completed.value == "true"))
  {
  }

  /** `completed` set to anything non-empty other than "true" selects incomplete tasks only. */
  lemma CompletedOtherThanTrue(t: Task, params: QueryParams)
    requires Truthy(params.completed) && params.completed.value != "true"
    requires Satisfies(t, BuildQuery(params))
    ensures !t.completed
  {
  }

  /** `Task.find({ user: caller, ...match })` before sorting: store order. */
  function Matching(tasks: seq<Task>, caller: UserId, q: Query): (r: seq<Task>)
    ensures IsSubsequence(r, tasks)
    ensures multiset(r) <= multiset(tasks)
    ensures forall t :: t in r <==> t in tasks && t.user == caller && Satisfies(t, q)
  {
    FilterCounts(tasks, (t: Task) => t.user == caller && Satisfies(t, q));
    Filter(tasks, (t: Task) => t.user == caller && Satisfies(t, q))
  }

  /** A sort value in the document store's comparison order: missing, then numbers, then strings. */
  datatype Rank = Missing | Number(n: int) | Str(s: string)

  predicate RankLe(a: Rank, b: Rank)
  {
    match a
    case Missing => true
    case Number(x) => (b.Number? && x <= b.n) || b.Str?
    case Str(x) => b.Str? && TextLe(x, b.s)
  }

  lemma RankLeTotal(a: Rank, b: Rank)
    ensures RankLe(a, b) || RankLe(b, a)
  {
    if a.Str? && b.Str? {
      TextLeTotal(a.s, b.s);
    }
  }

  lemma RankLeTransitive(a: Rank, b: Rank, c: Rank)
    requires RankLe(a, b) && RankLe(b, c)
    ensures RankLe(a, c)
  {
    if a.Str? {
      TextLeTransitive(a.s, b.s, c.s);
    }
  }

  /** The value a task has under a sort key; booleans sort false before true. */
  function RankOf(t: Task, k: Key): Rank
  {
    match k
    case IdKey => Number(t.id)
    case UserKey => Number(t.user)
    case TitleKey => Str(t.title)
    case DescriptionKey => if t.description.Some? then Str(t.description.value) else Missing
    case DeadlineKey => Number(t.deadline)
    case PriorityKey => Str(t.priority)
    case CompletedKey => Number(if t.completed then 1 else 0)
    case CategoryKey => if t.category.Some? then Str(t.category.value) else Missing
  }

  /** `a` may come before `b` when sorting on `k` in direction `d`. */
  predicate InOrder(k: Key, d: Direction, a: Task, b: Task)
  {
    if d == Ascending then RankLe(RankOf(a, k), RankOf(b, k)) else RankLe(RankOf(b, k), RankOf(a, k))
  }

  lemma InOrderTotal(k: Key, d: Direction, a: Task, b: Task)
    ensures InOrder(k, d, a, b) || InOrder(k, d, b, a)
  {
    RankLeTotal(RankOf(a, k), RankOf(b, k));
  }

  lemma InOrderTransitive(k: Key, d: Direction, a: Task, b: Task, c: Task)
    requires InOrder(k, d, a, b) && InOrder(k, d, b, c)
    ensures InOrder(k, d, a, c)
  {
    if d == Ascending {
      RankLeTransitive(RankOf(a, k), RankOf(b, k), RankOf(c, k));
    } else {
      RankLeTransitive(RankOf(c, k), RankOf(b, k), RankOf(a, k));
    }
  }

  ghost predicate SortedBy(s: seq<Task>, k: Key, d: Direction)
  {
    forall i, j :: 0 <= i < j < |s| ==> InOrder(k, d, s[i], s[j])
  }

  /** A task that may precede the head of a sorted sequence may precede all of it. */
  lemma SortedCons(x: Task, s: seq<Task>, k: Key, d: Direction)
    requires SortedBy(s, k, d) && s != [] && InOrder(k, d, x, s[0])
    ensures SortedBy([x] + s, k, d)
  {
    forall j | 0 < j < |s| ensures InOrder(k, d, x, s[j]) {
      InOrderTransitive(k, d, x, s[0], s[j]);
    }
  }

  /** The head of a sorted sequence may precede any rearrangement of its tail plus a later task. */
  lemma SortedHead(x: Task, s: seq<Task>, rest: seq<Task>, k: Key, d: Direction)
    requires SortedBy(s, k, d) && s != [] && InOrder(k, d, s[0], x)
    requires SortedBy(rest, k, d) && multiset(rest) == multiset(s[1..]) + multiset{x}
    ensures SortedBy([s[0]] + rest, k, d)
  {
    forall j | 0 <= j < |rest| ensures InOrder(k, d, s[0], rest[j]) {
      assert rest[j] in multiset(rest);
      if rest[j] != x {
        assert rest[j] in multiset(s[1..]);
        var i :| 0 <= i < |s[1..]| && s[1..][i] == rest[j];
        assert s[i + 1] == rest[j];
      }
    }
    var r := [s[0]] + rest;
    forall i, j | 0 <= i < j < |r| ensures InOrder(k, d, r[i], r[j]) {
      if i > 0 { assert r[i] == rest[i - 1] && r[j] == rest[j - 1]; }
    }
  }

  /** Places `x` into a sorted sequence. */
  function Insert(x: Task, s: seq<Task>, k: Key, d: Direction): (r: seq<Task>)
    requires SortedBy(s, k, d)
    ensures SortedBy(r, k, d)
    ensures multiset(r) == multiset(s) + multiset{x}
  {
    if s == [] then [x]
    else if InOrder(k, d, x, s[0]) then
      SortedCons(x, s, k, d);
      assert s == [s[0]] + s[1..];
      [x] + s
    else
      var rest := Insert(x, s[1..], k, d);
      InOrderTotal(k, d, x, s[0]);
      SortedHead(x, s, rest, k, d);
      assert s == [s[0]] + s[1..];
      [s[0]] + rest
  }

  /** Orders `s` by key `k` in direction `d`; the result is a permutation of `s`. */
  function SortTasks(s: seq<Task>, k: Key, d: Direction): (r: seq<Task>)
    ensures SortedBy(r, k, d)
    ensures multiset(r) == multiset(s)
  {
    if s == [] then []
    else
      assert s == [s[0]] + s[1..];
      Insert(s[0], SortTasks(s[1..], k, d), k, d)
  }

  /** `.sort(sort)` applied to the matched tasks. */
  function ApplySort(matched: seq<Task>, sort: Option<SortSpec>): (r: seq<Task>)
    ensures multiset(r) == multiset(matched)
    ensures sort.Some? && KeyFromName(sort.value.field).Some? ==>
      SortedBy(r, KeyFromName(sort.value.field).value, sort.value.direction)
  {
    if sort.None? then matched
    else match KeyFromName(sort.value.field)
      case Some(k) => SortTasks(matched, k, sort.value.direction)
      case None => matched
  }
}
