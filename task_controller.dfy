/** The task handlers (backend/src/controllers/taskController.js) over an
    in-memory task collection. Every handler acts for the authenticated
    requester `protect` attached to the request: a listing is confined to
    the requester's own tasks unless the requester is an admin, and a
    single task is answered 404 when it does not exist, then 403 when the
    requester is neither its owner nor an admin, and only then read,
    changed or removed. */
module TaskController {
  import opened Base
  import opened Text
  import opened Ordering
  import opened TaskModel
  import opened UserModel
  import opened ErrorHandler

  // ----- access policy -----

  /** The ownership rule of getTask, updateTask and deleteTask. */
  predicate MayAccess(requester: User, t: Task)
  {
    requester.role == AdminRole || t.createdBy == requester.id
  }

  datatype Access = Missing | Denied | Granted(task: Task)

  /** The two checks every single-task handler makes, existence first. */
  function CheckAccess(requester: User, tasks: map<TaskId, Task>, id: TaskId): (a: Access)
    ensures a.Missing? <==> id !in tasks
    ensures a.Denied? <==> id in tasks && !MayAccess(requester, tasks[id])
    ensures a.Granted? <==> id in tasks && MayAccess(requester, tasks[id])
    ensures a.Granted? ==> a.task == tasks[id]
  {
    if id !in tasks then Missing
    else if requester.role != AdminRole && tasks[id].createdBy != requester.id then Denied
    else Granted(tasks[id])
  }

  const NotFoundMessage := "Task not found"
  const ReadForbiddenMessage := "Not authorized to access this task"
  const UpdateForbiddenMessage := "Not authorized to update this task"
  const DeleteForbiddenMessage := "Not authorized to delete this task"

  // ----- listing: filter, sort, pagination -----

  /** A query filter: an owner, a status name and a priority name, each
      optional. Values are compared as given; an unknown status simply
      matches nothing. */
  datatype Filter = Filter(owner: Option<UserId>, status: Option<string>, priority: Option<string>)

  predicate Matches(f: Filter, t: Task)
  {
    && (f.owner.Some? ==> t.createdBy == f.owner.value)
    && (f.status.Some? ==> StatusName(t.status) == f.status.value)
    && (f.priority.Some? ==> PriorityName(t.priority) == f.priority.value)
  }

  /** The role scope: admins see every task, other users their own. */
  function ScopeFilter(requester: User): Filter
  {
    Filter(if requester.role == AdminRole then None else Some(requester.id), None, None)
  }

  /** The filter of getTasks: the role scope, narrowed by a status and a
      priority when the query gives a non-empty one. */
  function ListFilter(requester: User, status: Option<string>, priority: Option<string>): Filter
  {
    ScopeFilter(requester).(status := if Truthy(status) then status else None,
                            priority := if Truthy(priority) then priority else None)
  }

  /** The tasks a list filter selects are exactly the requester's visible
      tasks of the requested status and priority. */
  lemma ListFilterSelects(requester: User, status: Option<string>, priority: Option<string>, t: Task)
    ensures Matches(ListFilter(requester, status, priority), t) <==>
      && MayAccess(requester, t)
      && (Truthy(status) ==> StatusName(t.status) == status.value)
      && (Truthy(priority) ==> PriorityName(t.priority) == priority.value)
    ensures requester.role != AdminRole ==> ListFilter(requester, status, priority).owner == Some(requester.id)
    ensures requester.role == AdminRole ==> ListFilter(requester, status, priority).owner == None
  {
  }

  /** The documents a filter selects, scanning identifiers below `bound`
      in increasing order. */
  function Selected(tasks: map<TaskId, Task>, f: Filter, bound: nat): (r: seq<Task>)
    ensures |r| <= bound
    decreases bound
  {
    if bound == 0 then []
    else
      var k := bound - 1;
      Selected(tasks, f, k) + (if k in tasks && Matches(f, tasks[k]) then [tasks[k]] else [])
  }

  /** The scan holds exactly the stored tasks below `bound` that the
      filter matches. */
  lemma {:induction false} SelectedMembers(tasks: map<TaskId, Task>, f: Filter, bound: nat)
    ensures forall i :: 0 <= i < |Selected(tasks, f, bound)| ==>
      Selected(tasks, f, bound)[i] in tasks.Values && Matches(f, Selected(tasks, f, bound)[i])
    ensures forall k :: 0 <= k < bound && k in tasks && Matches(f, tasks[k]) ==> tasks[k] in Selected(tasks, f, bound)
    decreases bound
  {
    if bound > 0 {
      var k := bound - 1;
      SelectedMembers(tasks, f, k);
      var prev := Selected(tasks, f, k);
      var r := Selected(tasks, f, bound);
      assert forall i :: 0 <= i < |prev| ==> r[i] == prev[i];
    }
  }

  /** The identifiers of the documents a filter selects. */
  function MatchingIds(tasks: map<TaskId, Task>, f: Filter, bound: nat): set<TaskId>
  {
    set k | 0 <= k < bound && k in tasks && Matches(f, tasks[k])
  }

  /** `countDocuments(filter)` and `find(filter)` see the same documents:
      the scan holds one entry per selected identifier. */
  lemma {:induction false} SelectedCountsMatches(tasks: map<TaskId, Task>, f: Filter, bound: nat)
    ensures |Selected(tasks, f, bound)| == |MatchingIds(tasks, f, bound)|
    decreases bound
  {
    if bound > 0 {
      var k := bound - 1;
      SelectedCountsMatches(tasks, f, k);
      if k in tasks && Matches(f, tasks[k]) {
        assert MatchingIds(tasks, f, bound) == MatchingIds(tasks, f, k) + {k};
      } else {
        assert MatchingIds(tasks, f, bound) == MatchingIds(tasks, f, k);
      }
    }
  }

  /** The orderings getTasks can ask for. */
  datatype SortKey = NewestFirst | OldestFirst | ByPriority | ByDueDate

  /** `sort`: newest first unless the query names one of the three
      alternatives. */
  function SortKeyFor(sort: Option<string>): (key: SortKey)
    ensures sort == Some("oldest") <==> key == OldestFirst
    ensures sort == Some("priority") <==> key == ByPriority
    ensures sort == Some("dueDate") <==> key == ByDueDate
  {
    if sort == Some("oldest") then OldestFirst
    else if sort == Some("priority") then ByPriority
    else if sort == Some("dueDate") then ByDueDate
    else NewestFirst
  }

  /** `{priority: -1}` sorts the stored *names* in descending string order,
      which puts medium first, then low, then high. */
  function PriorityRank(p: Priority): nat
  {
    match p
    case Medium => 0
    case Low => 1
    case High => 2
  }

  /** JavaScript's string comparison, for names made of ASCII letters. */
  predicate LexLess(a: string, b: string)
  {
    if b == [] then false
    else if a == [] then true
    else if a[0] != b[0] then a[0] < b[0]
    else LexLess(a[1..], b[1..])
  }

  /** The rank is the descending order of the priority names. */
  lemma PriorityRankIsNameOrder(p: Priority, q: Priority)
    ensures PriorityRank(p) < PriorityRank(q) <==> LexLess(PriorityName(q), PriorityName(p))
  {
    assert LexLess("low", "medium") && LexLess("high", "medium") && LexLess("high", "low");
    assert !LexLess("medium", "low") && !LexLess("medium", "high") && !LexLess("low", "high");
    assert !LexLess("low", "low") && !LexLess("medium", "medium") && !LexLess("high", "high");
  }

  /** `a` may come before `b` under the sort option:
      `{createdAt: -1}`, `{createdAt: 1}`, `{priority: -1, createdAt: -1}`
      or `{dueDate: 1}`, where a missing due date (null) sorts first. */
  predicate Before(key: SortKey, a: Task, b: Task)
  {
    match key
    case NewestFirst => a.createdAt >= b.createdAt
    case OldestFirst => a.createdAt <= b.createdAt
    case ByPriority =>
      PriorityRank(a.priority) < PriorityRank(b.priority)
      || (PriorityRank(a.priority) == PriorityRank(b.priority) && a.createdAt >= b.createdAt)
    case ByDueDate => a.dueDate.None? || (b.dueDate.Some? && a.dueDate.value <= b.dueDate.value)
  }

  function Comparator(key: SortKey): (Task, Task) -> bool
  {
    (a, b) => Before(key, a, b)
  }

  /** Every sort option orders all tasks consistently. */
  lemma ComparatorIsTotalPreorder(key: SortKey)
    ensures TotalPreorder(Comparator(key))
  {
    var le := Comparator(key);
    forall a: Task, b: Task ensures le(a, b) || le(b, a) {
      assert le(a, b) == Before(key, a, b) && le(b, a) == Before(key, b, a);
    }
    forall a: Task, b: Task, c: Task | le(a, b) && le(b, c) ensures le(a, c) {
      assert Before(key, a, b) && Before(key, b, c);
    }
  }

  /** The result of `find(filter).sort(option)` before skip and limit: the
      selected tasks, each once, in the requested order. */
  function Listing(tasks: map<TaskId, Task>, f: Filter, key: SortKey, bound: nat): (r: seq<Task>)
    ensures SortedBy(r, Comparator(key))
    ensures multiset(r) == multiset(Selected(tasks, f, bound))
    ensures |r| == |Selected(tasks, f, bound)|
  {
    ComparatorIsTotalPreorder(key);
    SortBy(Selected(tasks, f, bound), Comparator(key))
  }

  /** An order the database may return for `find(filter).sort(option)`:
      the selected tasks, each once, ordered by the option. Tasks the option
      ranks equal may come in any order, and each query may order them
      differently. */
  ghost predicate ArrangesSelection(order: seq<Task>, tasks: map<TaskId, Task>, f: Filter, key: SortKey, bound: nat)
  {
    SortedBy(order, Comparator(key)) && multiset(order) == multiset(Selected(tasks, f, bound))
  }

  /** Whatever the order among ties, a listing holds only stored tasks the
      filter selects; for a non-admin, only the requester's own tasks. */
  lemma ListingIsScoped(tasks: map<TaskId, Task>, requester: User, status: Option<string>,
                        priority: Option<string>, key: SortKey, bound: nat, order: seq<Task>, t: Task)
    requires ArrangesSelection(order, tasks, ListFilter(requester, status, priority), key, bound)
    requires t in order
    ensures t in tasks.Values && MayAccess(requester, t)
    ensures Truthy(status) ==> StatusName(t.status) == status.value
    ensures Truthy(priority) ==> PriorityName(t.priority) == priority.value
  {
    var f := ListFilter(requester, status, priority);
    var sel := Selected(tasks, f, bound);
    SelectedMembers(tasks, f, bound);
    assert t in multiset(order);
    assert t in multiset(sel);
    var i :| 0 <= i < |sel| && sel[i] == t;
    assert Matches(f, sel[i]);
    ListFilterSelects(requester, status, priority, t);
  }

  /** `.skip(skip).limit(limit)`; a limit of 0 means no limit. */
  function Window<T>(rows: seq<T>, skip: nat, limit: nat): (r: seq<T>)
    ensures limit > 0 ==> |r| <= limit
    ensures skip >= |rows| ==> r == []
    ensures skip < |rows| ==> |r| == (if limit == 0 || skip + limit > |rows| then |rows| - skip else limit)
    ensures forall i :: 0 <= i < |r| ==> skip + i < |rows| && r[i] == rows[skip + i]
  {
    if skip >= |rows| then []
    else if limit == 0 || skip + limit > |rows| then rows[skip..]
    else rows[skip..skip + limit]
  }

  /** `Math.ceil(total / limit)`. */
  function PageCount(total: nat, limit: nat): (pages: nat)
    requires limit > 0
  {
    (total + limit - 1) / limit
  }

  /** PageCount is the ceiling: the fewest pages of `limit` rows that hold
      `total` rows. */
  lemma PageCountIsCeiling(total: nat, limit: nat)
    requires limit > 0
    ensures PageCount(total, limit) * limit >= total
    ensures PageCount(total, limit) > 0 ==> (PageCount(total, limit) - 1) * limit < total
    ensures total == 0 <==> PageCount(total, limit) == 0
  {
    var p := PageCount(total, limit);
    var r := (total + limit - 1) % limit;
    assert total + limit - 1 == p * limit + r;
    if p > 0 {
      assert (p - 1) * limit == p * limit - limit;
    }
  }

  lemma {:induction false} MulMonotone(a: nat, b: nat, c: nat)
    requires a <= b
    ensures a * c <= b * c
    decreases b - a
  {
    if a < b {
      MulMonotone(a, b - 1, c);
      assert b * c == (b - 1) * c + c;
    }
  }

  /** Page `page` (from 1) of a listing of `total` tasks holds a task
      exactly when it is one of the `pages` the response reports. */
  lemma PageIsNonEmptyIffWithinPages(total: nat, page: nat, limit: nat)
    requires limit > 0 && page >= 1
    ensures (page - 1) * limit < total <==> page <= PageCount(total, limit)
  {
    var p := PageCount(total, limit);
    PageCountIsCeiling(total, limit);
    if page <= p {
      MulMonotone(page - 1, p - 1, limit);
    } else {
      MulMonotone(p, page - 1, limit);
    }
  }

  // ----- statistics -----

  datatype Stats = Stats(
    total: nat,
    todo: nat,
    inProgress: nat,
    done: nat,
    highPriority: nat,
    mediumPriority: nat,
    lowPriority: nat)

  /** The all-zero statistics sent when no task is in scope. */
  const NoStats := Stats(0, 0, 0, 0, 0, 0, 0)

  function Indicator(b: bool): nat
  {
    if b then 1 else 0
  }

  /** The `$group` stage: one count per status and per priority. */
  function CountStats(rows: seq<Task>): (s: Stats)
    ensures s.total == |rows|
    ensures s.todo + s.inProgress + s.done == s.total
    ensures s.highPriority + s.mediumPriority + s.lowPriority == s.total
    ensures rows == [] <==> s == NoStats
  {
    if rows == [] then NoStats
    else
      var s := CountStats(rows[..|rows| - 1]);
      var t := rows[|rows| - 1];
      Stats(s.total + 1,
            s.todo + Indicator(t.status == Todo),
            s.inProgress + Indicator(t.status == InProgress),
            s.done + Indicator(t.status == Done),
            s.highPriority + Indicator(t.priority == High),
            s.mediumPriority + Indicator(t.priority == Medium),
            s.lowPriority + Indicator(t.priority == Low))
  }

  function StatusCount(s: Stats, st: Status): nat
  {
    match st
    case Todo => s.todo
    case InProgress => s.inProgress
    case Done => s.done
  }

  function PriorityCount(s: Stats, p: Priority): nat
  {
    match p
    case High => s.highPriority
    case Medium => s.mediumPriority
    case Low => s.lowPriority
  }

  /** The tasks of `rows` with status `st`, in order. */
  function OfStatus(rows: seq<Task>, st: Status): (r: seq<Task>)
    ensures |r| <= |rows|
  {
    if rows == [] then []
    else OfStatus(rows[..|rows| - 1], st) + (if rows[|rows| - 1].status == st then [rows[|rows| - 1]] else [])
  }

  /** The tasks of `rows` with priority `p`, in order. */
  function OfPriority(rows: seq<Task>, p: Priority): (r: seq<Task>)
    ensures |r| <= |rows|
  {
    if rows == [] then []
    else OfPriority(rows[..|rows| - 1], p) + (if rows[|rows| - 1].priority == p then [rows[|rows| - 1]] else [])
  }

  /** Each status and priority count is the number of rows with that
      status or priority. */
  lemma {:induction false} CountStatsCounts(rows: seq<Task>, st: Status, p: Priority)
    ensures StatusCount(CountStats(rows), st) == |OfStatus(rows, st)|
    ensures PriorityCount(CountStats(rows), p) == |OfPriority(rows, p)|
  {
    if rows != [] {
      CountStatsCounts(rows[..|rows| - 1], st, p);
    }
  }

  /** Adding a status or a priority to a filter that has none keeps the
      tasks it matched that have that status or priority. */
  lemma NarrowedMatch(f: Filter, t: Task, st: Status, p: Priority)
    ensures f.status.None? ==>
      (Matches(f.(status := Some(StatusName(st))), t) <==> Matches(f, t) && t.status == st)
    ensures f.priority.None? ==>
      (Matches(f.(priority := Some(PriorityName(p))), t) <==> Matches(f, t) && t.priority == p)
  {
    EnumNamesRoundTrip(t.status, t.priority);
    EnumNamesRoundTrip(st, p);
  }

  /** Narrowing a filter by a status selects the tasks of that status
      among those the filter selects. */
  lemma {:induction false} NarrowedByStatus(tasks: map<TaskId, Task>, f: Filter, bound: nat, st: Status)
    requires f.status.None?
    ensures Selected(tasks, f.(status := Some(StatusName(st))), bound) == OfStatus(Selected(tasks, f, bound), st)
    decreases bound
  {
    if bound > 0 {
      var k := bound - 1;
      NarrowedByStatus(tasks, f, k, st);
      var rows := Selected(tasks, f, bound);
      var prev := Selected(tasks, f, k);
      if k in tasks {
        NarrowedMatch(f, tasks[k], st, Medium);
      }
      if k in tasks && Matches(f, tasks[k]) {
        assert rows == prev + [tasks[k]];
        assert rows[..|rows| - 1] == prev;
      } else {
        assert rows == prev;
      }
    }
  }

  /** Likewise for a priority. */
  lemma {:induction false} NarrowedByPriority(tasks: map<TaskId, Task>, f: Filter, bound: nat, p: Priority)
    requires f.priority.None?
    ensures Selected(tasks, f.(priority := Some(PriorityName(p))), bound) == OfPriority(Selected(tasks, f, bound), p)
    decreases bound
  {
    if bound > 0 {
      var k := bound - 1;
      NarrowedByPriority(tasks, f, k, p);
      var rows := Selected(tasks, f, bound);
      var prev := Selected(tasks, f, k);
      if k in tasks {
        NarrowedMatch(f, tasks[k], Todo, p);
      }
      if k in tasks && Matches(f, tasks[k]) {
        assert rows == prev + [tasks[k]];
        assert rows[..|rows| - 1] == prev;
      } else {
        assert rows == prev;
      }
    }
  }

  // ----- the whitelist of updatable fields -----

  const AllowedFields: seq<string> := ["title", "description", "status", "priority", "dueDate"]

  /** The allowed fields the body defines, with the body's values. */
  function Whitelisted(body: Body): (updates: map<string, string>)
    ensures forall k :: k in updates <==> k in body && k in AllowedFields
    ensures forall k :: k in updates ==> updates[k] == body[k]
  {
    map k | k in body && k in AllowedFields :: body[k]
  }

  /** A field outside the whitelist has no effect on an update. */
  lemma WhitelistIgnoresOtherFields(body: Body, key: string, value: string)
    requires key !in AllowedFields
    ensures Whitelisted(body[key := value]) == Whitelisted(body)
    ensures Whitelisted(body - {key}) == Whitelisted(body)
  {
  }

  /** The loop that copies the defined allowed fields into `updates`. */
  method CollectUpdates(body: Body) returns (updates: map<string, string>)
    ensures updates == Whitelisted(body)
  {
    updates := map[];
    for i := 0 to |AllowedFields|
      invariant forall k :: k in updates <==> k in body && k in AllowedFields[..i]
      invariant forall k :: k in updates ==> updates[k] == body[k]
    {
      var field := AllowedFields[i];
      if field in body {
        updates := updates[field := body[field]];
      }
      assert AllowedFields[..i + 1] == AllowedFields[..i] + [field];
    }
    assert AllowedFields[..|AllowedFields|] == AllowedFields;
  }

  /** The fields `Task.create` receives: the body's values, with a falsy
      `dueDate` replaced by null (`dueDate || null`). */
  function CreateFields(body: Body): (fields: NewTaskFields)
    ensures fields.title == Lookup(body, "title")
    ensures fields.description == Lookup(body, "description")
    ensures fields.status == Lookup(body, "status")
    ensures fields.priority == Lookup(body, "priority")
    ensures fields.dueDate.Some? <==> Truthy(Lookup(body, "dueDate"))
    ensures fields.dueDate.Some? ==> fields.dueDate == Lookup(body, "dueDate")
  {
    NewTaskFields(Lookup(body, "title"), Lookup(body, "description"), Lookup(body, "status"),
                  Lookup(body, "priority"),
                  if Truthy(Lookup(body, "dueDate")) then Lookup(body, "dueDate") else None)
  }

  // ----- responses -----

  /** What a handler does with the request: a success response, a 404 or
      403 it sends itself, or `next(error)` for the error handler. */
  datatype Reply =
    | Listed(count: nat, total: nat, page: nat, pages: Option<nat>, rows: seq<Task>)
    | Found(task: Task)
    | Created(task: Task)
    | Updated(task: Task)
    | Deleted
    | StatsReply(stats: Stats)
    | NotFound
    | Forbidden(message: string)
    | Failed(error: AppError)

  /** The status a handler sends itself; a failure's status is the error
      handler's. */
  function ReplyStatus(r: Reply): (status: int)
    requires !r.Failed?
    ensures r.Created? <==> status == 201
    ensures r.NotFound? <==> status == 404
    ensures r.Forbidden? <==> status == 403
    ensures status in {200, 201, 403, 404}
  {
    match r
    case Created(_) => 201
    case NotFound => 404
    case Forbidden(_) => 403
    case _ => 200
  }

  const NegativeSkipMessage := "skip value must be non-negative"

  /** `page` and `limit` after `parseInt`, each absent when not given. */
  datatype ListQuery = ListQuery(
    status: Option<string>,
    priority: Option<string>,
    sort: Option<string>,
    page: Option<nat>,
    limit: Option<nat>)

  /** `(page - 1) * limit`, the number of rows a page skips; negative for
      page 0 with a limit. */
  function Skip(page: nat, limit: nat): (skip: int)
    ensures page == 0 ==> skip == -(limit as int)
    ensures page > 0 ==> skip >= 0
  {
    (page as int - 1) * limit
  }

  function PageOf(q: ListQuery): nat
  {
    if q.page.Some? then q.page.value else 1
  }

  function LimitOf(q: ListQuery): nat
  {
    if q.limit.Some? then q.limit.value else 10
  }

  // ----- what each handler answers -----

  /** `getTasks` on the stored tasks: a negative-skip failure, or the
      requested page of the filtered, sorted selection with its counts. */
  ghost predicate ListAnswer(requester: User, query: ListQuery, tasks: map<TaskId, Task>, nextId: TaskId, reply: Reply)
  {
    && (reply.Listed? || reply.Failed?)
    && (reply.Failed? <==> PageOf(query) == 0 && LimitOf(query) > 0)
    && (reply.Failed? ==> reply.error == PlainError("MongoServerError", NegativeSkipMessage))
    && (reply.Listed? ==>
        var f := ListFilter(requester, query.status, query.priority);
        var limit := LimitOf(query);
        && reply.total == |MatchingIds(tasks, f, nextId)|
        && Skip(PageOf(query), limit) >= 0
        && (exists order :: ArrangesSelection(order, tasks, f, SortKeyFor(query.sort), nextId)
                            && reply.rows == Window(order, Skip(PageOf(query), limit) as nat, limit))
        && reply.count == |reply.rows|
        && reply.page == PageOf(query)
        && reply.pages == (if limit == 0 then None else Some(PageCount(reply.total, limit)))
        && (limit > 0 ==> reply.count <= limit))
    && (reply.Listed? && requester.role != AdminRole ==>
        forall i :: 0 <= i < |reply.rows| ==> reply.rows[i].createdBy == requester.id)
  }

  /** `getTask`: the cast error, 404, 403, or the task. */
  ghost predicate ReadAnswer(requester: User, rawId: string, castId: string -> Option<TaskId>,
                             tasks: map<TaskId, Task>, reply: Reply)
  {
    && (castId(rawId).None? ==> reply == Failed(CastError(IdPath, rawId)))
    && (castId(rawId).Some? ==> match CheckAccess(requester, tasks, castId(rawId).value)
        case Missing => reply == NotFound
        case Denied => reply == Forbidden(ReadForbiddenMessage)
        case Granted(t) => reply == Found(t))
    && (reply.Found? ==> MayAccess(requester, reply.task) && reply.task in tasks.Values)
  }

  /** `createTask`: the new task stored under the next identifier, or the
      schema's report with nothing stored. */
  ghost predicate CreateAnswer(requester: User, body: Body, now: nat, parseDate: string -> Option<int>,
                               tasks: map<TaskId, Task>, nextId: TaskId,
                               tasks': map<TaskId, Task>, nextId': TaskId, reply: Reply)
  {
    && (var r := NewTask(CreateFields(body), nextId, requester.id, now, parseDate);
        && (r.Valid? ==> reply == Created(r.value) && tasks' == tasks[nextId := r.value] && nextId' == nextId + 1)
        && (r.Invalid? ==> reply == Failed(ValidationError(r.errors)) && tasks' == tasks && nextId' == nextId))
    && (reply.Created? ==>
        && reply.task.createdBy == requester.id
        && reply.task.id !in tasks
        && (!Truthy(Lookup(body, "dueDate")) ==> reply.task.dueDate == None))
  }

  /** `updateTask`: the cast error, 404, 403, the date's cast error, or the
      whitelisted fields validated and applied to that task alone. */
  ghost predicate UpdateAnswer(requester: User, rawId: string, body: Body,
                               castId: string -> Option<TaskId>, parseDate: string -> Option<int>,
                               tasks: map<TaskId, Task>, nextId: TaskId,
                               tasks': map<TaskId, Task>, nextId': TaskId, reply: Reply)
  {
    && nextId' == nextId
    && (castId(rawId).None? ==> reply == Failed(CastError(IdPath, rawId)))
    && (castId(rawId).Some? ==> match CheckAccess(requester, tasks, castId(rawId).value)
        case Missing => reply == NotFound
        case Denied => reply == Forbidden(UpdateForbiddenMessage)
        case Granted(t) =>
          var updates := Whitelisted(body);
          if DueDateCastFails(updates, parseDate) then reply == Failed(CastError(DueDatePath, updates["dueDate"]))
          else match UpdatedTask(t, updates, parseDate)
            case Valid(u) => reply == Updated(u) && tasks' == tasks[t.id := u]
            case Invalid(errors) => reply == Failed(ValidationError(errors)))
    && (!reply.Updated? ==> tasks' == tasks)
    && (reply.Updated? ==>
        && reply.task.id in tasks
        && MayAccess(requester, tasks[reply.task.id])
        && reply.task.createdBy == tasks[reply.task.id].createdBy)
  }

  /** `deleteTask`: the cast error, 404, 403, or exactly that task removed. */
  ghost predicate DeleteAnswer(requester: User, rawId: string, castId: string -> Option<TaskId>,
                               tasks: map<TaskId, Task>, nextId: TaskId,
                               tasks': map<TaskId, Task>, nextId': TaskId, reply: Reply)
  {
    && nextId' == nextId
    && (castId(rawId).None? ==> reply == Failed(CastError(IdPath, rawId)))
    && (castId(rawId).Some? ==> match CheckAccess(requester, tasks, castId(rawId).value)
        case Missing => reply == NotFound
        case Denied => reply == Forbidden(DeleteForbiddenMessage)
        case Granted(_) => reply == Deleted && tasks' == tasks - {castId(rawId).value})
    && (!reply.Deleted? ==> tasks' == tasks)
  }

  /** `getTaskStats`: the counts over the requester's scope. */
  ghost predicate StatsAnswer(requester: User, tasks: map<TaskId, Task>, nextId: TaskId, reply: Reply)
  {
    && reply.StatsReply?
    && reply.stats.total == |MatchingIds(tasks, ScopeFilter(requester), nextId)|
    && reply.stats.todo + reply.stats.inProgress + reply.stats.done == reply.stats.total
    && reply.stats.highPriority + reply.stats.mediumPriority + reply.stats.lowPriority == reply.stats.total
    && (MatchingIds(tasks, ScopeFilter(requester), nextId) == {} ==> reply.stats == NoStats)
    && (forall st: Status ::
        StatusCount(reply.stats, st) == |Selected(tasks, ListFilter(requester, Some(StatusName(st)), None), nextId)|)
    && (forall p: Priority ::
        PriorityCount(reply.stats, p) == |Selected(tasks, ListFilter(requester, None, Some(PriorityName(p))), nextId)|)
  }

  // ----- the store and the handlers -----

  /** The tasks collection. Identifiers are handed out in increasing order
      from `nextId`. */
  class TaskStore {
    var tasks: map<TaskId, Task>
    var nextId: TaskId

    /** Every stored task sits under its own identifier, below `nextId`,
        and satisfies the schema. */
    ghost predicate Valid()
      reads this
    {
      forall id :: id in tasks ==> id < nextId && tasks[id].id == id && TaskModel.WellFormed(tasks[id])
    }

    constructor ()
      ensures Valid() && tasks == map[] && nextId == 0
    {
      tasks := map[];
      nextId := 0;
    }

    /** `getTasks`: builds the filter and the sort option from the query,
        counts the selected tasks and answers the requested page. A page
        below 1 gives a negative skip, which the database refuses. */
    method GetTasks(requester: User, query: ListQuery) returns (reply: Reply)
      requires Valid()
      ensures ListAnswer(requester, query, tasks, nextId, reply)
    {
      var filter := Filter(None, None, None);
      if requester.role != AdminRole {
        filter := filter.(owner := Some(requester.id));
      }
      if Truthy(query.status) {
        filter := filter.(status := query.status);
      }
      if Truthy(query.priority) {
        filter := filter.(priority := query.priority);
      }

      var key := NewestFirst;
      if query.sort == Some("oldest") { key := OldestFirst; }
      if query.sort == Some("priority") { key := ByPriority; }
      if query.sort == Some("dueDate") { key := ByDueDate; }

      var page := PageOf(query);
      var limit := LimitOf(query);
      var skip := Skip(page, limit);
      assert filter == ListFilter(requester, query.status, query.priority);
      assert key == SortKeyFor(query.sort);
      var total := |Selected(tasks, filter, nextId)|;
      SelectedCountsMatches(tasks, filter, nextId);

      if skip < 0 {
        return Failed(PlainError("MongoServerError", NegativeSkipMessage));
      }
      var order := Listing(tasks, filter, key, nextId);
      var rows := Window(order, skip, limit);
      var pages := if limit == 0 then None else Some(PageCount(total, limit));
      reply := Listed(|rows|, total, page, pages, rows);
      assert ArrangesSelection(order, tasks, filter, key, nextId);

      forall i | 0 <= i < |rows| && requester.role != AdminRole
        ensures rows[i].createdBy == requester.id
      {
        assert rows[i] in order;
        ListingIsScoped(tasks, requester, query.status, query.priority, key, nextId, order, rows[i]);
      }
    }

    /** `getTask`: 404, then 403, then the task. An `:id` that is not an
        ObjectId fails the cast. */
    method GetTask(requester: User, rawId: string, castId: string -> Option<TaskId>)
      returns (reply: Reply)
      requires Valid()
      ensures ReadAnswer(requester, rawId, castId, tasks, reply)
    {
      var id := castId(rawId);
      if id.None? {
        return Failed(CastError(IdPath, rawId));
      }
      if id.value !in tasks {
        return NotFound;
      }
      var task := tasks[id.value];
      if requester.role != AdminRole && task.createdBy != requester.id {
        return Forbidden(ReadForbiddenMessage);
      }
      reply := Found(task);
    }

    /** `createTask`: validates the body's fields, stamps the requester as
        the owner and stores the task under a fresh identifier. */
    method CreateTask(requester: User, body: Body, now: nat, parseDate: string -> Option<int>)
      returns (reply: Reply)
      requires Valid()
      modifies this
      ensures Valid()
      ensures CreateAnswer(requester, body, now, parseDate, old(tasks), old(nextId), tasks, nextId, reply)
    {
      var fields := NewTaskFields(Lookup(body, "title"), Lookup(body, "description"),
                                  Lookup(body, "status"), Lookup(body, "priority"),
                                  if Truthy(Lookup(body, "dueDate")) then Lookup(body, "dueDate") else None);
      var created := NewTask(fields, nextId, requester.id, now, parseDate);
      if created.Invalid? {
        return Failed(ValidationError(created.errors));
      }
      tasks := tasks[nextId := created.value];
      nextId := nextId + 1;
      reply := Created(created.value);
    }

    /** `updateTask`: 404, then 403, then the whitelisted fields of the body
        are validated and applied; nothing else about the task changes. */
    method UpdateTask(requester: User, rawId: string, body: Body,
                      castId: string -> Option<TaskId>, parseDate: string -> Option<int>)
      returns (reply: Reply)
      requires Valid()
      modifies this
      ensures Valid()
      ensures UpdateAnswer(requester, rawId, body, castId, parseDate, old(tasks), old(nextId), tasks, nextId, reply)
    {
      var id := castId(rawId);
      if id.None? {
        return Failed(CastError(IdPath, rawId));
      }
      if id.value !in tasks {
        return NotFound;
      }
      var task := tasks[id.value];
      if requester.role != AdminRole && task.createdBy != requester.id {
        return Forbidden(UpdateForbiddenMessage);
      }

      var updates := CollectUpdates(body);
      if DueDateCastFails(updates, parseDate) {
        return Failed(CastError(DueDatePath, updates["dueDate"]));
      }
      var updated := UpdatedTask(task, updates, parseDate);
      if updated.Invalid? {
        return Failed(ValidationError(updated.errors));
      }
      tasks := tasks[id.value := updated.value];
      reply := Updated(updated.value);
    }

    /** `deleteTask`: 404, then 403, then exactly the target is removed. */
    method DeleteTask(requester: User, rawId: string, castId: string -> Option<TaskId>)
      returns (reply: Reply)
      requires Valid()
      modifies this
      ensures Valid()
      ensures DeleteAnswer(requester, rawId, castId, old(tasks), old(nextId), tasks, nextId, reply)
    {
      var id := castId(rawId);
      if id.None? {
        return Failed(CastError(IdPath, rawId));
      }
      if id.value !in tasks {
        return NotFound;
      }
      var task := tasks[id.value];
      if requester.role != AdminRole && task.createdBy != requester.id {
        return Forbidden(DeleteForbiddenMessage);
      }
      tasks := tasks - {id.value};
      reply := Deleted;
    }

    /** `getTaskStats`: counts over the requester's scope, all zeros when
        the scope is empty. */
    method GetTaskStats(requester: User) returns (reply: Reply)
      requires Valid()
      ensures StatsAnswer(requester, tasks, nextId, reply)
    {
      var filter := if requester.role == AdminRole then Filter(None, None, None)
                    else Filter(Some(requester.id), None, None);
      var scope := Selected(tasks, filter, nextId);
      SelectedCountsMatches(tasks, filter, nextId);
      var stats := if scope == [] then NoStats else CountStats(scope);
      forall st: Status
        ensures StatusCount(stats, st) == |Selected(tasks, ListFilter(requester, Some(StatusName(st)), None), nextId)|
      {
        CountStatsCounts(scope, st, Low);
        NarrowedByStatus(tasks, filter, nextId, st);
        assert ListFilter(requester, Some(StatusName(st)), None) == filter.(status := Some(StatusName(st)));
      }
      forall p: Priority
        ensures PriorityCount(stats, p) == |Selected(tasks, ListFilter(requester, None, Some(PriorityName(p))), nextId)|
      {
        CountStatsCounts(scope, Todo, p);
        NarrowedByPriority(tasks, filter, nextId, p);
        assert ListFilter(requester, None, Some(PriorityName(p))) == filter.(priority := Some(PriorityName(p)));
      }
      reply := StatsReply(stats);
    }
  }
}
