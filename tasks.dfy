/**
 * Projects and tasks as the Vikunja server returns them, and the pure logic
 * the bot applies to them: project lookup, collecting the active tasks of
 * all projects, the paginated task list, the quick list and the payload of
 * a new task.
 */
module Tasks {
  import opened Wrappers
  import opened Text

  datatype Project = Project(id: int, title: string)

  /** A task; projectId is the field the bot overwrites with the project it fetched the task from. */
  datatype Task = Task(id: int, title: string, done: bool, projectId: int)

  /** The outcome of an HTTP request: a status code with a decoded body, or a requests exception. */
  datatype Reply<T> = Response(status: int, body: T) | ConnectionError

  /** The body of GET /projects/{id}/tasks: a list, or an object that may hold a "tasks" list. */
  datatype TaskListBody = Listed(items: seq<Task>) | Wrapped(tasks: Option<seq<Task>>)

  /** The server's answer to GET /projects/{id}/tasks, by project id and due_date query parameter. */
  type Fetch = (int, Option<string>) -> Reply<TaskListBody>

  /** Python truthiness of an optional string: present and non-empty. */
  predicate Truthy(s: Option<string>) {
    s.Some? && s.value != ""
  }

  // ---------------------------------------------------------------------------
  // Project lookup

  /** get_project_by_name: the first project whose title equals the name, ignoring case. */
  function FindProjectByName(ps: seq<Project>, name: string): (r: Option<Project>)
    ensures r.Some? <==> exists k :: 0 <= k < |ps| && Lower(ps[k].title) == Lower(name)
    ensures r.Some? ==> exists k :: 0 <= k < |ps| && ps[k] == r.value && Lower(ps[k].title) == Lower(name)
                                    && forall j :: 0 <= j < k ==> Lower(ps[j].title) != Lower(name)
  {
    if ps == [] then None
    else if Lower(ps[0].title) == Lower(name) then Some(ps[0])
    else
      var r := FindProjectByName(ps[1..], name);
      assert forall k :: 1 <= k < |ps| ==> ps[k] == ps[1..][k - 1];
      if r.Some? then
        var k' :| 0 <= k' < |ps[1..]| && ps[1..][k'] == r.value && Lower(ps[1..][k'].title) == Lower(name)
                 && forall j :: 0 <= j < k' ==> Lower(ps[1..][j].title) != Lower(name);
        assert ps[k' + 1] == r.value;
        r
      else r
  }

  /** get_project_by_id: the first project with the given id. */
  function FindProjectById(ps: seq<Project>, id: int): (r: Option<Project>)
    ensures r.Some? <==> exists k :: 0 <= k < |ps| && ps[k].id == id
    ensures r.Some? ==> exists k :: 0 <= k < |ps| && ps[k] == r.value && r.value.id == id
                                    && forall j :: 0 <= j < k ==> ps[j].id != id
  {
    if ps == [] then None
    else if ps[0].id == id then Some(ps[0])
    else
      var r := FindProjectById(ps[1..], id);
      assert forall k :: 1 <= k < |ps| ==> ps[k] == ps[1..][k - 1];
      if r.Some? then
        var k' :| 0 <= k' < |ps[1..]| && ps[1..][k'] == r.value && r.value.id == id
                 && forall j :: 0 <= j < k' ==> ps[1..][j].id != id;
        assert ps[k' + 1] == r.value;
        r
      else r
  }

  // ---------------------------------------------------------------------------
  // Active tasks of all projects

  /** The tasks of a response body: the list itself, or the "tasks" entry of an object ([] without one). */
  function BodyTasks(b: TaskListBody): seq<Task> {
    match b
    case Listed(items) => items
    case Wrapped(tasks) => tasks.GetOr([])
  }

  /** The tasks with their project_id set to pid. */
  function WithProject(ts: seq<Task>, pid: int): (r: seq<Task>)
    ensures |r| == |ts|
    ensures forall k :: 0 <= k < |ts| ==> r[k] == ts[k].(projectId := pid)
  {
    seq(|ts|, k requires 0 <= k < |ts| => ts[k].(projectId := pid))
  }

  /**
   * The loop of get_active_tasks_from_projects before its filter: the tasks
   * of every project whose reply has status 200, in project order, each
   * tagged with its project's id. None when a request raises.
   */
  function CollectTasks(ps: seq<Project>, fetch: Fetch, param: Option<string>): Option<seq<Task>>
    decreases |ps|
  {
    if ps == [] then Some([])
    else
      match fetch(ps[0].id, param)
      case ConnectionError => None
      case Response(status, body) =>
        var rest := CollectTasks(ps[1..], fetch, param);
        if rest.None? then None
        else if status == 200 then Some(WithProject(BodyTasks(body), ps[0].id) + rest.value)
        else rest
  }

  /** The query of each task request: due_date only when the date filter is truthy. */
  function QueryParam(dateFilter: Option<string>): (q: Option<string>)
    ensures q.Some? <==> Truthy(dateFilter)
    ensures q.Some? ==> q == dateFilter
  {
    if Truthy(dateFilter) then dateFilter else None
  }

  /** The final comprehension: the tasks that are not done. */
  function ActiveOnly(ts: seq<Task>): (r: seq<Task>)
    ensures forall k :: 0 <= k < |r| ==> !r[k].done
    ensures multiset(r) <= multiset(ts)
    ensures forall k :: 0 <= k < |ts| && !ts[k].done ==> ts[k] in r
  {
    if ts == [] then []
    else
      var rest := ActiveOnly(ts[1..]);
      ActiveOnlyStep(ts, rest);
      if ts[0].done then rest else [ts[0]] + rest
  }

  /** One step of the filter: what holds of the tail's result holds of the whole list's. */
  lemma ActiveOnlyStep(ts: seq<Task>, rest: seq<Task>)
    requires ts != []
    requires forall k :: 0 <= k < |rest| ==> !rest[k].done
    requires multiset(rest) <= multiset(ts[1..])
    requires forall k :: 1 <= k < |ts| && !ts[k].done ==> ts[k] in rest
    ensures var r := if ts[0].done then rest else [ts[0]] + rest;
      (forall k :: 0 <= k < |r| ==> !r[k].done)
      && multiset(r) <= multiset(ts)
      && (forall k :: 0 <= k < |ts| && !ts[k].done ==> ts[k] in r)
  {
    assert ts == [ts[0]] + ts[1..];
    assert multiset(ts) == multiset{ts[0]} + multiset(ts[1..]);
  }

  /** get_active_tasks_from_projects: the active tasks, or None when a request raised. */
  function ActiveTasks(ps: seq<Project>, fetch: Fetch, param: Option<string>): Option<seq<Task>> {
    match CollectTasks(ps, fetch, param)
    case None => None
    case Some(ts) => Some(ActiveOnly(ts))
  }

  /** Tasks come in project order: collecting two lists of projects is collecting each in turn. */
  lemma {:induction false} CollectAppend(ps: seq<Project>, qs: seq<Project>, fetch: Fetch, param: Option<string>)
    ensures CollectTasks(ps + qs, fetch, param) ==
      if CollectTasks(ps, fetch, param).Some? && CollectTasks(qs, fetch, param).Some?
      then Some(CollectTasks(ps, fetch, param).value + CollectTasks(qs, fetch, param).value)
      else None
    decreases |ps|
  {
    if ps == [] {
      assert ps + qs == qs;
      if CollectTasks(qs, fetch, param).Some? {
        assert [] + CollectTasks(qs, fetch, param).value == CollectTasks(qs, fetch, param).value;
      }
    } else {
      assert (ps + qs)[0] == ps[0] && (ps + qs)[1..] == ps[1..] + qs;
      CollectAppend(ps[1..], qs, fetch, param);
      var rest, restQ := CollectTasks(ps[1..], fetch, param), CollectTasks(qs, fetch, param);
      match fetch(ps[0].id, param)
      case ConnectionError =>
      case Response(status, body) =>
        if rest.Some? && restQ.Some? && status == 200 {
          var here := WithProject(BodyTasks(body), ps[0].id);
          assert here + (rest.value + restQ.value) == (here + rest.value) + restQ.value;
        }
    }
  }

  /** Every collected task carries the id of a project whose reply had status 200, and comes from that reply. */
  lemma {:induction false} CollectedTasksOrigin(ps: seq<Project>, fetch: Fetch, param: Option<string>)
    requires CollectTasks(ps, fetch, param).Some?
    ensures forall t :: t in CollectTasks(ps, fetch, param).value ==>
      exists k :: 0 <= k < |ps| && ps[k].id == t.projectId && fetch(ps[k].id, param).Response?
                  && fetch(ps[k].id, param).status == 200 && t in WithProject(BodyTasks(fetch(ps[k].id, param).body), ps[k].id)
    decreases |ps|
  {
    if ps != [] {
      CollectedTasksOrigin(ps[1..], fetch, param);
      forall t | t in CollectTasks(ps, fetch, param).value
        ensures exists k :: 0 <= k < |ps| && ps[k].id == t.projectId && fetch(ps[k].id, param).Response?
                  && fetch(ps[k].id, param).status == 200 && t in WithProject(BodyTasks(fetch(ps[k].id, param).body), ps[k].id)
      {
        var here := WithProject(BodyTasks(fetch(ps[0].id, param).body), ps[0].id);
        if fetch(ps[0].id, param).status == 200 && t in here {
          var i :| 0 <= i < |here| && here[i] == t;
          assert t.projectId == ps[0].id;
        } else {
          var k :| 0 <= k < |ps[1..]| && ps[1..][k].id == t.projectId && fetch(ps[1..][k].id, param).Response?
                   && fetch(ps[1..][k].id, param).status == 200 && t in WithProject(BodyTasks(fetch(ps[1..][k].id, param).body), ps[1..][k].id);
          assert ps[k + 1] == ps[1..][k];
        }
      }
    }
  }

  /** Every listed task is not done and carries the id of a project that answered with status 200. */
  lemma ActiveTasksOrigin(ps: seq<Project>, fetch: Fetch, param: Option<string>)
    requires ActiveTasks(ps, fetch, param).Some?
    ensures forall t :: t in ActiveTasks(ps, fetch, param).value ==>
      !t.done && exists k :: 0 <= k < |ps| && ps[k].id == t.projectId && fetch(ps[k].id, param).Response?
                             && fetch(ps[k].id, param).status == 200
  {
    CollectedTasksOrigin(ps, fetch, param);
    var all := CollectTasks(ps, fetch, param).value;
    forall t | t in ActiveOnly(all)
      ensures t in all
    {
      assert t in multiset(ActiveOnly(all));
    }
  }

  /** The done filter keeps the order: filtering a concatenation filters each part in turn. */
  lemma {:induction false} ActiveOnlyAppend(a: seq<Task>, b: seq<Task>)
    ensures ActiveOnly(a + b) == ActiveOnly(a) + ActiveOnly(b)
    decreases |a|
  {
    if a == [] {
      assert a + b == b;
    } else {
      assert (a + b)[0] == a[0] && (a + b)[1..] == a[1..] + b;
      ActiveOnlyAppend(a[1..], b);
    }
  }

  /** The active tasks of two lists of projects are those of the first list followed by those of the second. */
  lemma ActiveTasksInProjectOrder(ps: seq<Project>, qs: seq<Project>, fetch: Fetch, param: Option<string>)
    ensures ActiveTasks(ps + qs, fetch, param) ==
      if ActiveTasks(ps, fetch, param).Some? && ActiveTasks(qs, fetch, param).Some?
      then Some(ActiveTasks(ps, fetch, param).value + ActiveTasks(qs, fetch, param).value)
      else None
  {
    CollectAppend(ps, qs, fetch, param);
    if CollectTasks(ps, fetch, param).Some? && CollectTasks(qs, fetch, param).Some? {
      ActiveOnlyAppend(CollectTasks(ps, fetch, param).value, CollectTasks(qs, fetch, param).value);
    }
  }

  /** A project whose reply has a status other than 200 contributes nothing. */
  lemma NonOkProjectContributesNothing(ps: seq<Project>, k: nat, fetch: Fetch, param: Option<string>)
    requires k < |ps| && fetch(ps[k].id, param).Response? && fetch(ps[k].id, param).status != 200
    ensures CollectTasks(ps, fetch, param) == CollectTasks(ps[..k] + ps[k + 1..], fetch, param)
  {
    assert ps == ps[..k] + ([ps[k]] + ps[k + 1..]);
    CollectAppend(ps[..k], [ps[k]] + ps[k + 1..], fetch, param);
    CollectAppend(ps[..k], ps[k + 1..], fetch, param);
    assert ([ps[k]] + ps[k + 1..])[1..] == ps[k + 1..];
  }

  // ---------------------------------------------------------------------------
  // Pagination of show_task_page

  const TasksPerPage := 5

  /** (n - 1) // TASKS_PER_PAGE + 1 for n > 0: the fewest pages of five that hold n tasks. */
  function TotalPages(n: nat): (r: nat)
    requires n > 0
    ensures r >= 1 && (r - 1) * TasksPerPage < n <= r * TasksPerPage
  {
    (n - 1) / TasksPerPage + 1
  }

  /** A Python slice bound normalised against a length n. */
  function SliceBound(i: int, n: nat): (k: nat)
    ensures k <= n
    ensures 0 <= i <= n ==> k == i
  {
    if i < 0 then (if i + n < 0 then 0 else i + n) else if i > n then n else i
  }

  /** s[a:b] in Python, negative bounds counting from the end. */
  function PySlice<T>(s: seq<T>, a: int, b: int): seq<T> {
    var i, j := SliceBound(a, |s|), SliceBound(b, |s|);
    if i < j then s[i..j] else []
  }

  /** What show_task_page puts on screen: the page's tasks and its navigation buttons with the page they carry. */
  datatype PageView = PageView(page: int, total: nat, items: seq<Task>, prev: Option<int>, next: Option<int>)

  function PageOf(ts: seq<Task>, page: int): (v: PageView)
    requires ts != []
    ensures v.total == TotalPages(|ts|) && v.page == page
    ensures v.prev.Some? <==> page > 0
    ensures v.next.Some? <==> page < v.total - 1
    ensures v.prev.Some? ==> v.prev.value == page
    ensures v.next.Some? ==> v.next.value == page
  {
    var total := TotalPages(|ts|);
    var offset := page * TasksPerPage;
    PageView(page, total, PySlice(ts, offset, offset + TasksPerPage),
             if page > 0 then Some(page) else None,
             if page < total - 1 then Some(page) else None)
  }

  function Min(a: int, b: int): int {
    if a < b then a else b
  }

  /** A page in range shows tasks 5p to 5p+4 (fewer on the last page) and is never empty. */
  lemma PageInRange(ts: seq<Task>, page: int)
    requires ts != [] && 0 <= page < TotalPages(|ts|)
    ensures PageOf(ts, page).items == ts[page * TasksPerPage .. Min(page * TasksPerPage + TasksPerPage, |ts|)]
    ensures PageOf(ts, page).items != []
  {
    var total := TotalPages(|ts|);
    assert page * TasksPerPage <= (total - 1) * TasksPerPage;
  }

  /** A page number past the last page shows no tasks. */
  lemma PagePastEnd(ts: seq<Task>, page: int)
    requires ts != [] && page >= TotalPages(|ts|)
    ensures PageOf(ts, page).items == []
  {
    assert page * TasksPerPage >= TotalPages(|ts|) * TasksPerPage;
  }

  /** The tasks of pages 0 to k - 1, one after the other. */
  function PagesUpTo(ts: seq<Task>, k: nat): seq<Task>
    requires ts != [] && k <= TotalPages(|ts|)
  {
    if k == 0 then [] else PagesUpTo(ts, k - 1) + PageOf(ts, k - 1).items
  }

  lemma {:induction false} PagesUpToPrefix(ts: seq<Task>, k: nat)
    requires ts != [] && k <= TotalPages(|ts|)
    ensures PagesUpTo(ts, k) == ts[..Min(k * TasksPerPage, |ts|)]
  {
    if k > 0 {
      PagesUpToPrefix(ts, k - 1);
      PageInRange(ts, k - 1);
      var a := (k - 1) * TasksPerPage;
      var b := Min(a + TasksPerPage, |ts|);
      assert k * TasksPerPage == a + TasksPerPage;
      assert a <= |ts| && Min(a, |ts|) == a;
      assert PagesUpTo(ts, k) == ts[..a] + ts[a..b];
      PrefixThenSlice(ts, a, b);
    }
  }

  lemma PrefixThenSlice(ts: seq<Task>, a: nat, b: nat)
    requires a <= b <= |ts|
    ensures ts[..a] + ts[a..b] == ts[..b]
  {
  }

  /** The pages, read one after the other, show every active task exactly once and in order. */
  lemma PagesCoverTasks(ts: seq<Task>)
    requires ts != []
    ensures PagesUpTo(ts, TotalPages(|ts|)) == ts
  {
    PagesUpToPrefix(ts, TotalPages(|ts|));
    assert ts[..|ts|] == ts;
  }

  /**
   * From a page in range, "Prev" (which sets the page to p - 1) and "Next"
   * (p + 1) lead to pages that are in range again.
   */
  lemma NavigationStaysInRange(ts: seq<Task>, page: int)
    requires ts != [] && 0 <= page < TotalPages(|ts|)
    ensures var v := PageOf(ts, page);
      (v.prev.Some? ==> 0 <= v.prev.value - 1 < v.total)
      && (v.next.Some? ==> 0 <= v.next.value + 1 < v.total)
  {
  }

  // ---------------------------------------------------------------------------
  // The quick list after a new task

  /** show_quick_task_list: the first five active tasks and whether "View All Tasks" is offered. */
  datatype QuickList = QuickList(shown: seq<Task>, viewAll: bool)

  function QuickListOf(ts: seq<Task>): (q: QuickList)
    ensures |q.shown| == Min(|ts|, 5) && q.shown == ts[..|q.shown|]
    ensures q.viewAll <==> |ts| > 5
  {
    QuickList(ts[..Min(|ts|, 5)], |ts| > 5)
  }

  /** The quick list shows what the first page of the full list shows, and offers "View All" when that page has a "Next". */
  lemma QuickListIsFirstPage(ts: seq<Task>)
    requires ts != []
    ensures QuickListOf(ts).shown == PageOf(ts, 0).items
    ensures QuickListOf(ts).viewAll <==> PageOf(ts, 0).next.Some?
  {
    PageInRange(ts, 0);
  }

  // ---------------------------------------------------------------------------
  // create_task

  /** The task_data dictionary handed to create_task. */
  datatype TaskData = TaskData(
    title: string,
    priority: Option<int>,
    projectId: Option<int>,
    due: Option<string>,
    repeat: Option<int>,
    labelIds: seq<int>)

  /** The JSON body of PUT /projects/{id}/tasks; an absent key is None. */
  datatype Payload = Payload(
    title: string,
    priority: int,
    projectId: int,
    dueDate: Option<string>,
    repeatAfter: Option<int>,
    labelIds: Option<seq<int>>)

  const DefaultPriority := 3
  const DefaultProject := 1
  /** The time a due date is given: the end of the day, in UTC. */
  const EndOfDay := "T23:59:59Z"

  /** The due_date value the server receives for a YYYY-MM-DD date. */
  function DueAt(date: string): (s: string)
    ensures |s| == |date| + 10 && s[..|date|] == date && s[|date|..] == EndOfDay
  {
    date + EndOfDay
  }

  /** The date can be read back from the due_date value: different dates are sent differently. */
  lemma DueAtInjective(a: string, b: string)
    requires DueAt(a) == DueAt(b)
    ensures a == b
  {
    assert |a| == |b|;
    assert a == DueAt(a)[..|a|];
  }

  /**
   * The payload create_task builds: priority 3 and project 1 when none is
   * given, the due date at the end of the day, and repeat_after and
   * label_ids only when they are truthy.
   */
  function BuildPayload(d: TaskData): (p: Payload)
    ensures p.title == d.title
    ensures p.priority == (if d.priority.None? then DefaultPriority else d.priority.value)
    ensures p.projectId == (if d.projectId.None? then DefaultProject else d.projectId.value)
    ensures p.dueDate.Some? <==> Truthy(d.due)
    ensures p.dueDate.Some? ==> p.dueDate.value == DueAt(d.due.value)
    ensures p.repeatAfter.Some? <==> d.repeat.Some? && d.repeat.value != 0
    ensures p.repeatAfter.Some? ==> p.repeatAfter == d.repeat
    ensures p.labelIds.Some? <==> d.labelIds != []
    ensures p.labelIds.Some? ==> p.labelIds.value == d.labelIds
  {
    Payload(
      d.title,
      d.priority.GetOr(DefaultPriority),
      d.projectId.GetOr(DefaultProject),
      if Truthy(d.due) then Some(DueAt(d.due.value)) else None,
      if d.repeat.Some? && d.repeat.value != 0 then d.repeat else None,
      if d.labelIds != [] then Some(d.labelIds) else None)
  }

  /** create_task reports success exactly for status 200 or 201; a raised request is a failure. */
  predicate CreateSucceeded(r: Reply<()>) {
    r.Response? && (r.status == 200 || r.status == 201)
  }

  // ---------------------------------------------------------------------------
  // handle_plain_message

  /** parsed.get("priority") or 3 */
  function PriorityOrDefault(p: Option<int>): (r: int)
    ensures p.Some? && p.value != 0 ==> r == p.value
    ensures p.None? || p.value == 0 ==> r == DefaultPriority
  {
    if p.Some? && p.value != 0 then p.value else DefaultPriority
  }

  /**
   * The project a plain message goes to, given the cached project list: a
   * named project found by name, project 1 for a name that is not found
   * (not the first project), and without a name the first project, or
   * project 1 when there are none.
   */
  function ChooseProject(name: Option<string>, ps: seq<Project>): (id: int)
    ensures Truthy(name) && FindProjectByName(ps, name.value).Some? ==> id == FindProjectByName(ps, name.value).value.id
    ensures Truthy(name) && FindProjectByName(ps, name.value).None? ==> id == DefaultProject
    ensures !Truthy(name) && ps != [] ==> id == ps[0].id
    ensures !Truthy(name) && ps == [] ==> id == DefaultProject
    ensures id == DefaultProject || exists k :: 0 <= k < |ps| && ps[k].id == id
  {
    if Truthy(name) then
      match FindProjectByName(ps, name.value)
      case Some(p) => p.id
      case None => DefaultProject
    else if ps != [] then ps[0].id
    else DefaultProject
  }
}
