/**
 * One Telegram chat talking to the bot: the step of each of its two
 * conversations (/login and /tasks), its user_data and the shared
 * credentials file, and the handlers that an update reaches. Each handler
 * reports the step its conversation moves to, or that it raised (the
 * conversation then keeps its step, while user_data changes made before the
 * exception stay).
 */
module Bot {
  import opened Wrappers
  import opened Text
  import opened Calendar
  import opened QuickAdd
  import opened Credentials
  import opened Tasks
  import opened Session
  import opened Routing

  /**
   * What the outside world answers while one update is handled: the clock,
   * and the Vikunja server's reply to each kind of request.
   */
  datatype World = World(
    now: int,                    // datetime.now(), in microseconds
    today: Date,                 // datetime.now().date()
    login: Login,                // POST /login
    projects: Reply<seq<Project>>, // GET /projects
    tasks: Fetch,                // GET /projects/{id}/tasks
    task: Reply<Task>,           // GET /tasks/{id}
    create: Reply<()>,           // PUT /projects/{id}/tasks
    update: Reply<()>)           // POST or DELETE /tasks/{id}

  /** The requests that change tasks on the server. */
  datatype Request =
    | CreateTask(payload: Payload)
    | MarkTaskDone(taskId: string)
    | RemoveTask(taskId: string)
    | SetDueDate(taskId: string, dueDate: Option<string>)

  /** The task lists the bot sends or edits into a message. */
  datatype Screen = NoScreen | TaskPage(view: PageView) | QuickTasks(list: QuickList) | TodayTasks(tasks: seq<Task>)

  datatype Output = Output(sent: Option<Request>, screen: Screen)

  const Quiet := Output(None, NoScreen)

  /** A handler's verdict for its conversation: move to a step (the idle step is ConversationHandler.END), stay, or raise. */
  datatype Next<S> = Goto(step: S) | Stay | Crash

  // ---------------------------------------------------------------------------
  // The session effects of the handlers, as functions of user_data

  function Lookup(v: Fields, w: World): (seq<Project>, Option<CacheEntry>) {
    ProjectsLookup(v.projectCache, w.now, w.projects)
  }

  /** user_data after one or more project lookups at the same moment. */
  function AfterLookup(v: Fields, w: World): Fields {
    v.(projectCache := Lookup(v, w).1)
  }

  /** What get_active_tasks_from_projects returns on this session. */
  function ActiveNow(v: Fields, w: World, dateFilter: Option<string>): Option<seq<Task>> {
    ActiveTasks(Lookup(v, w).0, w.tasks, QueryParam(dateFilter))
  }

  /** authenticate(context, chat_id=chat_id): a new login with the session's credentials. */
  function Relogin(v: Fields, chatId: int, saved: map<string, Credential>, login: Login): (Fields, bool) {
    Authenticated(Hydrated(v, Some(chatId), saved), None, None, login)
  }

  /** The session after /start. */
  function Started(v: Fields, chatId: int, saved: map<string, Credential>, login: Login): Fields {
    var v1 := Hydrated(v, Some(chatId), saved);
    var v2 :=
      if Truthy(v1.username) && Truthy(v1.password) then
        var c := Checked(v1, Some(chatId), saved, login);
        if c.1 then c.0 else Relogin(c.0, chatId, saved, login).0
      else v1;
    Checked(v2, Some(chatId), saved, login).0
  }

  /**
   * After a restart, /start logs a chat whose saved credentials the server
   * accepts back in: its session ends with the credentials and the token of
   * that login, whatever the token is.
   */
  lemma StartAfterRestart(chatId: int, saved: map<string, Credential>, login: Login)
    requires chatId != 0 && Key(chatId) in saved
    requires saved[Key(chatId)].username != "" && saved[Key(chatId)].password != ""
    requires login(saved[Key(chatId)].username, saved[Key(chatId)].password).Response?
    requires login(saved[Key(chatId)].username, saved[Key(chatId)].password).status == 200
    ensures var c := saved[Key(chatId)];
      Started(Cleared, chatId, saved, login)
        == Cleared.(token := Some(login(c.username, c.password).body), username := Some(c.username), password := Some(c.password))
  {
    var c := saved[Key(chatId)];
    var h := Hydrated(Cleared, Some(chatId), saved);
    var v2 := Cleared.(token := Some(login(c.username, c.password).body), username := Some(c.username), password := Some(c.password));
    SavedCredentialsSurviveRestart(chatId, saved, login);
    assert Checked(h, Some(chatId), saved, login) == (v2, true) by {
      CheckedLogsIn(h, Some(chatId), saved, login);
      HydratedOnce(Cleared, Some(chatId), saved);
    }
    HydratedOnce(v2, Some(chatId), saved);
    if !Truthy(v2.token) {
      CheckedLogsIn(v2, Some(chatId), saved, login);
    }
  }

  /** The task_data a plain message is turned into, given the project list of the cache. */
  function PlainTaskData(t: ParsedTask, ps: seq<Project>): (d: TaskData)
    ensures d.labelIds == [] && d.repeat.None?
    ensures d.title == t.title && d.priority == Some(PriorityOrDefault(t.priority))
    ensures d.projectId == Some(ChooseProject(t.project, ps))
    ensures d.due.Some? <==> Truthy(t.dueDate)
  {
    TaskData(t.title, Some(PriorityOrDefault(t.priority)), Some(ChooseProject(t.project, ps)),
             if Truthy(t.dueDate) then t.dueDate else None, None, [])
  }

  /**
   * Labels and repetition are parsed from a plain message but never sent;
   * the priority defaults to 3 and a due date, when there is one, is the end
   * of that day.
   */
  lemma PlainPayload(t: ParsedTask, ps: seq<Project>)
    ensures var p := BuildPayload(PlainTaskData(t, ps));
      p.labelIds.None? && p.repeatAfter.None? && p.title == t.title
      && p.priority == PriorityOrDefault(t.priority)
      && p.projectId == ChooseProject(t.project, ps)
      && (p.dueDate.Some? <==> Truthy(t.dueDate))
      && (p.dueDate.Some? ==> p.dueDate.value == DueAt(t.dueDate.value))
  {
  }

  /** The ways a handler can run. */
  class Chat {
    const chatId: int
    const session: UserData
    const store: CredentialStore
    var login: LoginStep
    var tasks: TaskStep

    constructor (chatId: int, session: UserData, store: CredentialStore)
      ensures this.chatId == chatId && this.session == session && this.store == store
      ensures login == LoginIdle && tasks == TasksIdle
    {
      this.chatId, this.session, this.store := chatId, session, store;
      login, tasks := LoginIdle, TasksIdle;
    }

    // -------------------------------------------------------------------------
    // Screens

    /**
     * show_task_page: the page user_data['task_page'] of the active tasks.
     * From a button press there is no message to reply to, so an empty list
     * or a failed fetch raises.
     */
    method ShowTaskPage(viaCallback: bool, w: World) returns (crashed: bool, screen: Screen)
      modifies session
      ensures session.Value() == AfterLookup(old(session.Value()), w)
      ensures var ts := ActiveNow(old(session.Value()), w, None);
        if ts.Some? && ts.value != [] then !crashed && screen == TaskPage(PageOf(ts.value, old(session.taskPage).GetOr(0)))
        else crashed == viaCallback && screen == NoScreen
    {
      var page := session.taskPage.GetOr(0);
      var ts := session.GetActiveTasks(w.now, w.projects, w.tasks, None);
      if ts.None? || ts.value == [] {
        return viaCallback, NoScreen;
      }
      return false, TaskPage(PageOf(ts.value, page));
    }

    /** The get_project_by_id lookups for tasks on screen; the lookup of the same moment was already made. */
    method LookupProjects(ts: seq<Task>, w: World)
      modifies session
      requires AfterLookup(session.Value(), w) == session.Value()
      ensures session.Value() == old(session.Value())
    {
      for i := 0 to |ts|
        invariant session.Value() == old(session.Value())
      {
        LookupRepeats(session.projectCache, w.now, w.projects);
        var _ := session.GetProjectById(ts[i].projectId, w.now, w.projects);
      }
    }

    /** show_quick_task_list and show_quick_task_list_new_message: the first five tasks; errors are caught. */
    method ShowQuickList(w: World) returns (screen: Screen)
      modifies session
      ensures session.Value() == AfterLookup(old(session.Value()), w)
      ensures var ts := ActiveNow(old(session.Value()), w, None);
        screen == if ts.Some? && ts.value != [] then QuickTasks(QuickListOf(ts.value)) else NoScreen
    {
      var ts := session.GetActiveTasks(w.now, w.projects, w.tasks, None);
      LookupRepeats(old(session.projectCache), w.now, w.projects);
      if ts.None? || ts.value == [] {
        return NoScreen;
      }
      var q := QuickListOf(ts.value);
      LookupProjects(q.shown, w);
      return QuickTasks(q);
    }

    /** show_task_edit_menu: the selected task is fetched, and its project looked up when that succeeds. */
    method ShowEditMenu(w: World)
      modifies session
      ensures session.Value() ==
        if w.task.Response? && w.task.status == 200 then AfterLookup(old(session.Value()), w) else old(session.Value())
    {
      match w.task
      case Response(status, t) =>
        if status == 200 {
          var _ := session.GetProjectById(t.projectId, w.now, w.projects);
        }
      case ConnectionError =>
    }

    // -------------------------------------------------------------------------
    // Commands outside the conversations

    /** start */
    method Start(w: World)
      modifies session, store
      ensures session.Value() == Started(old(session.Value()), chatId, old(Loaded(store.State())), w.login)
      ensures store.State() == old(store.State())
    {
      session.LoadSession(Some(chatId), store);
      if Truthy(session.username) && Truthy(session.password) {
        var b := session.IsAuthenticated(Some(chatId), store, w.login);
        if !b {
          var _ := session.Authenticate(None, None, false, Some(chatId), store, w.login);
        }
      }
      var _ := session.IsAuthenticated(Some(chatId), store, w.login);
    }

    /** logout: the chat's saved credentials are deleted and user_data is cleared. */
    method Logout()
      modifies session, store
      ensures store.State() == AfterDelete(old(store.State()), chatId)
      ensures session.Value() == Cleared
    {
      store.Delete(chatId);
      session.Clear();
    }

    /** status: a check, then a new login when the check succeeds. */
    method Status(w: World)
      modifies session, store
      ensures var c := Checked(old(session.Value()), Some(chatId), old(Loaded(store.State())), w.login);
        session.Value() == if c.1 then Relogin(c.0, chatId, old(Loaded(store.State())), w.login).0 else c.0
      ensures store.State() == old(store.State())
    {
      var b := session.IsAuthenticated(Some(chatId), store, w.login);
      if b {
        var _ := session.Authenticate(None, None, false, Some(chatId), store, w.login);
      }
    }

    /** today_tasks: the active tasks due today, after a check, a new login and a non-empty project list. */
    method Today(w: World) returns (screen: Screen)
      requires IsValidDate(w.today)
      modifies session, store
      ensures store.State() == old(store.State())
      ensures var saved := old(Loaded(store.State()));
        var c := Checked(old(session.Value()), Some(chatId), saved, w.login);
        var r := Relogin(c.0, chatId, saved, w.login);
        var ts := ActiveNow(r.0, w, Some(FormatDate(w.today)));
        if !c.1 then session.Value() == c.0 && screen == NoScreen
        else if !r.1 then session.Value() == r.0 && screen == NoScreen
        else session.Value() == AfterLookup(r.0, w)
             && screen == if Lookup(r.0, w).0 != [] && ts.Some? && ts.value != [] then TodayTasks(ts.value) else NoScreen
    {
      var b := session.IsAuthenticated(Some(chatId), store, w.login);
      if !b {
        return NoScreen;
      }
      var ok := session.Authenticate(None, None, false, Some(chatId), store, w.login);
      if !ok {
        return NoScreen;
      }
      var todayString := FormatDate(w.today);
      ghost var before := session.Value();
      var ps := session.GetAllProjectsCached(w.now, w.projects);
      if ps == [] {
        return NoScreen;
      }
      LookupRepeats(before.projectCache, w.now, w.projects);
      var ts := session.GetActiveTasks(w.now, w.projects, w.tasks, Some(todayString));
      if ts.None? || ts.value == [] {
        return NoScreen;
      }
      LookupProjects(ts.value, w);
      return TodayTasks(ts.value);
    }

    // -------------------------------------------------------------------------
    // The login conversation

    /** cancel, the fallback of both conversations: user_data is cleared and the conversation ends. */
    method Cancel() returns (next: Next<()>)
      modifies session
      ensures session.Value() == Cleared && next == Goto(())
    {
      session.Clear();
      return Goto(());
    }

    /** login_username: the stripped text is kept as temp_username. */
    method LoginUsername(text: string) returns (next: Next<LoginStep>)
      modifies session
      ensures session.Value() == old(session.Value()).(tempUsername := Some(Strip(text)))
      ensures next == Goto(AwaitPassword)
    {
      session.tempUsername := Some(Strip(text));
      return Goto(AwaitPassword);
    }

    /**
     * login_password: logs in with temp_username and the stripped text,
     * saving them first; whatever the outcome, temp_username is dropped and
     * the conversation ends.
     */
    method LoginPassword(text: string, w: World) returns (next: Next<LoginStep>)
      modifies session, store
      ensures var saved := old(Loaded(store.State()));
        session.Value() ==
          Authenticated(Hydrated(old(session.Value()), Some(chatId), saved), old(session.tempUsername), Some(Strip(text)), w.login).0
            .(tempUsername := None)
      ensures store.State() ==
        if Truthy(old(session.tempUsername)) && Strip(text) != "" && chatId != 0
        then AfterSave(old(store.State()), chatId, Credential(old(session.tempUsername).value, Strip(text)))
        else old(store.State())
      ensures next == Goto(LoginIdle)
    {
      var password := Strip(text);
      var username := session.tempUsername;
      var _ := session.Authenticate(username, Some(password), true, Some(chatId), store, w.login);
      session.tempUsername := None;
      return Goto(LoginIdle);
    }

    // -------------------------------------------------------------------------
    // The task conversation

    /** list_tasks: after a check and a new login, page 0 is shown and the list view starts. */
    method ListTasks(w: World) returns (next: Next<TaskStep>, screen: Screen)
      modifies session, store
      ensures store.State() == old(store.State())
      ensures var saved := old(Loaded(store.State()));
        var c := Checked(old(session.Value()), Some(chatId), saved, w.login);
        var r := Relogin(c.0, chatId, saved, w.login);
        var ts := ActiveNow(r.0, w, None);
        if !c.1 then session.Value() == c.0 && next == Goto(TasksIdle) && screen == NoScreen
        else if !r.1 then session.Value() == r.0 && next == Goto(TasksIdle) && screen == NoScreen
        else session.Value() == AfterLookup(r.0.(taskPage := Some(0)), w) && next == Goto(ListView)
             && screen == if ts.Some? && ts.value != [] then TaskPage(PageOf(ts.value, 0)) else NoScreen
    {
      var b := session.IsAuthenticated(Some(chatId), store, w.login);
      if !b {
        return Goto(TasksIdle), NoScreen;
      }
      var ok := session.Authenticate(None, None, false, Some(chatId), store, w.login);
      if !ok {
        return Goto(TasksIdle), NoScreen;
      }
      session.taskPage := Some(0);
      var _, s := ShowTaskPage(false, w);
      return Goto(ListView), s;
    }

    /**
     * task_list_callback: Prev and Next store the page before or after the
     * one on the pressed button and show it; selecting a task stores its id
     * and opens the edit menu; an edit-menu button pressed here is ignored.
     */
    method TaskListCallback(b: Button, w: World) returns (next: Next<TaskStep>, screen: Screen)
      requires TaskButton(b)
      modifies session
      ensures b.TaskPrev? || b.TaskNext? ==>
        var page := if b.TaskPrev? then b.page - 1 else b.page + 1;
        var v := old(session.Value()).(taskPage := Some(page));
        var ts := ActiveNow(v, w, None);
        session.Value() == AfterLookup(v, w)
        && if ts.Some? && ts.value != [] then next == Goto(ListView) && screen == TaskPage(PageOf(ts.value, page))
           else next == Crash && screen == NoScreen
      ensures b.TaskSelect? ==>
        var v := old(session.Value()).(selectedTaskId := Some(IntToDecimal(b.taskId)));
        session.Value() == (if w.task.Response? && w.task.status == 200 then AfterLookup(v, w) else v)
        && next == Goto(EditView) && screen == NoScreen
      ensures b.TaskEdit? ==> session.Value() == old(session.Value()) && next == Stay && screen == NoScreen
    {
      match b
      case TaskPrev(page) =>
        session.taskPage := Some(page - 1);
        var crashed, s := ShowTaskPage(true, w);
        return if crashed then Crash else Goto(ListView), s;
      case TaskNext(page) =>
        session.taskPage := Some(page + 1);
        var crashed, s := ShowTaskPage(true, w);
        return if crashed then Crash else Goto(ListView), s;
      case TaskSelect(id) =>
        session.selectedTaskId := Some(IntToDecimal(id));
        ShowEditMenu(w);
        return Goto(EditView), NoScreen;
      case TaskEdit(_) =>
        return Stay, NoScreen;
    }

    /**
     * task_edit_callback: raises without a selected task; "back" shows the
     * list again, "done" and "delete" send their request and end the
     * conversation, "due" asks for a date, and the other actions stay.
     */
    method TaskEditCallback(a: EditAction, w: World) returns (next: Next<TaskStep>, out: Output)
      modifies session
      ensures old(session.selectedTaskId).None? ==>
        session.Value() == old(session.Value()) && next == Crash && out == Quiet
      ensures old(session.selectedTaskId).Some? ==>
        var id := old(session.selectedTaskId).value;
        var ts := ActiveNow(old(session.Value()), w, None);
        match a
        case BackToList =>
          session.Value() == AfterLookup(old(session.Value()), w) && out.sent.None?
          && if ts.Some? && ts.value != [] then next == Goto(ListView) && out.screen == TaskPage(PageOf(ts.value, old(session.taskPage).GetOr(0)))
             else next == Crash && out.screen == NoScreen
        case MarkDone => session.Value() == old(session.Value()) && next == Goto(TasksIdle) && out == Output(Some(MarkTaskDone(id)), NoScreen)
        case DeleteTask => session.Value() == old(session.Value()) && next == Goto(TasksIdle) && out == Output(Some(RemoveTask(id)), NoScreen)
        case ChangeDue => session.Value() == old(session.Value()) && next == Goto(EditDue) && out == Quiet
        case ChangeProject => session.Value() == old(session.Value()) && next == Goto(EditView) && out == Quiet
        case ChangePriority => session.Value() == old(session.Value()) && next == Goto(EditView) && out == Quiet
    {
      if session.selectedTaskId.None? {
        return Crash, Quiet;
      }
      var id := session.selectedTaskId.value;
      match a
      case BackToList =>
        var crashed, s := ShowTaskPage(true, w);
        return if crashed then Crash else Goto(ListView), Output(None, s);
      case MarkDone =>
        return Goto(TasksIdle), Output(Some(MarkTaskDone(id)), NoScreen);
      case DeleteTask =>
        return Goto(TasksIdle), Output(Some(RemoveTask(id)), NoScreen);
      case ChangeDue =>
        return Goto(EditDue), Quiet;
      case ChangeProject =>
        return Goto(EditView), Quiet;
      case ChangePriority =>
        return Goto(EditView), Quiet;
    }

    /**
     * handle_task_due_date_update: the lower-cased text "none" clears the due
     * date; any other text must parse to a due date, else the question is
     * asked again. After the request the list is shown again.
     */
    method DueDateUpdate(text: string, w: World) returns (next: Next<TaskStep>, out: Output)
      requires IsValidDate(w.today)
      modifies session
      ensures old(session.selectedTaskId).None? ==>
        session.Value() == old(session.Value()) && next == Crash && out == Quiet
      ensures old(session.selectedTaskId).Some? ==>
        var id := old(session.selectedTaskId).value;
        var parsed := Parse(Lower(text), w.today);
        var ts := ActiveNow(old(session.Value()), w, None);
        var listed := if ts.Some? && ts.value != [] then TaskPage(PageOf(ts.value, old(session.taskPage).GetOr(0))) else NoScreen;
        if Lower(text) == "none" then
          session.Value() == AfterLookup(old(session.Value()), w) && next == Goto(ListView)
          && out == Output(Some(SetDueDate(id, None)), listed)
        else if parsed.Err? then
          session.Value() == old(session.Value()) && next == Crash && out == Quiet
        else if !Truthy(parsed.value.dueDate) then
          session.Value() == old(session.Value()) && next == Goto(EditDue) && out == Quiet
        else
          session.Value() == AfterLookup(old(session.Value()), w) && next == Goto(ListView)
          && out == Output(Some(SetDueDate(id, Some(DueAt(parsed.value.dueDate.value)))), listed)
    {
      var dueText := Lower(text);
      if session.selectedTaskId.None? {
        return Crash, Quiet;
      }
      var id := session.selectedTaskId.value;
      var due: Option<string> := None;
      if dueText != "none" {
        var parsed := ParseTaskFormat(dueText, w.today);
        if parsed.Err? {
          return Crash, Quiet;
        }
        if !Truthy(parsed.value.dueDate) {
          return Goto(EditDue), Quiet;
        }
        due := Some(DueAt(parsed.value.dueDate.value));
      }
      var _, s := ShowTaskPage(false, w);
      return Goto(ListView), Output(Some(SetDueDate(id, due)), s);
    }

    // -------------------------------------------------------------------------
    // Plain messages and the quick buttons

    /**
     * handle_plain_message: for an authenticated chat, the text is parsed and
     * sent as a new task in the chosen project; after a successful create the
     * quick list is shown. A text the parser raises on creates nothing.
     */
    method PlainMessage(text: string, w: World) returns (crashed: bool, out: Output)
      requires IsValidDate(w.today)
      modifies session, store
      ensures store.State() == old(store.State())
      ensures var c := Checked(old(session.Value()), Some(chatId), old(Loaded(store.State())), w.login);
        var parsed := Parse(text, w.today);
        if !c.1 then session.Value() == c.0 && !crashed && out == Quiet
        else if parsed.Err? then session.Value() == c.0 && crashed && out == Quiet
        else
          var payload := BuildPayload(PlainTaskData(parsed.value, Lookup(c.0, w).0));
          var ts := ActiveNow(c.0, w, None);
          session.Value() == AfterLookup(c.0, w) && !crashed && out.sent == Some(CreateTask(payload))
          && out.screen == if CreateSucceeded(w.create) && ts.Some? && ts.value != [] then QuickTasks(QuickListOf(ts.value)) else NoScreen
    {
      var b := session.IsAuthenticated(Some(chatId), store, w.login);
      if !b {
        return false, Quiet;
      }
      var parsed := ParseTaskFormat(text, w.today);
      if parsed.Err? {
        return true, Quiet;
      }
      var t := parsed.value;
      ghost var before := session.Value();
      var projectId := DefaultProject;
      if Truthy(t.project) {
        var p := session.GetProjectByName(t.project.value, w.now, w.projects);
        if p.Some? {
          projectId := p.value.id;
        }
      } else {
        var ps := session.GetAllProjectsCached(w.now, w.projects);
        if ps != [] {
          projectId := ps[0].id;
        }
      }
      assert projectId == ChooseProject(t.project, Lookup(before, w).0);
      var due := if Truthy(t.dueDate) then t.dueDate else None;
      var data := TaskData(t.title, Some(PriorityOrDefault(t.priority)), Some(projectId), due, None, []);
      var payload := BuildPayload(data);
      var screen := NoScreen;
      if CreateSucceeded(w.create) {
        LookupRepeats(before.projectCache, w.now, w.projects);
        screen := ShowQuickList(w);
      }
      return false, Output(Some(CreateTask(payload)), screen);
    }

    /**
     * handle_quick_done_callback: for an authenticated chat, "View All" shows
     * page 0 (raising on an empty list), and a quick-done button marks its
     * task done; only a 200 reply carries the task JSON the handler reads
     * before it sends the updated quick list.
     */
    method QuickDoneCallback(b: Button, w: World) returns (crashed: bool, out: Output)
      requires QuickButton(b)
      modifies session, store
      ensures store.State() == old(store.State())
      ensures var c := Checked(old(session.Value()), Some(chatId), old(Loaded(store.State())), w.login);
        var ts := ActiveNow(c.0, w, None);
        if !c.1 then session.Value() == c.0 && !crashed && out == Quiet
        else if b.ViewAll? then
          session.Value() == AfterLookup(c.0.(taskPage := Some(0)), w) && out.sent.None?
          && if ts.Some? && ts.value != [] then !crashed && out.screen == TaskPage(PageOf(ts.value, 0))
             else crashed && out.screen == NoScreen
        else
          !crashed && out.sent == Some(MarkTaskDone(IntToDecimal(b.taskId)))
          && if w.update.Response? && w.update.status == 200 then
               session.Value() == AfterLookup(c.0, w)
               && out.screen == if ts.Some? && ts.value != [] then QuickTasks(QuickListOf(ts.value)) else NoScreen
             else session.Value() == c.0 && out.screen == NoScreen
    {
      var authenticated := session.IsAuthenticated(Some(chatId), store, w.login);
      if !authenticated {
        return false, Quiet;
      }
      if b.ViewAll? {
        session.taskPage := Some(0);
        var failed, s := ShowTaskPage(true, w);
        return failed, Output(None, s);
      }
      var id := IntToDecimal(b.taskId);
      var screen := NoScreen;
      if w.update.Response? && w.update.status == 200 {
        screen := ShowQuickList(w);
      }
      return false, Output(Some(MarkTaskDone(id)), screen);
    }

    // -------------------------------------------------------------------------
    // Dispatch

    /** Applies a conversation handler's verdict: a raise or None keeps the step. */
    static function Apply<S>(step: S, next: Next<S>): S {
      if next.Goto? then next.step else step
    }

    /** list_tasks with its verdict applied: the list opens exactly when the check and the new login succeed. */
    method ListTasksStep(w: World) returns (out: Output)
      requires tasks == TasksIdle
      modifies this, session, store
      ensures login == old(login) && out.sent.None?
      ensures var c := Checked(old(session.Value()), Some(chatId), old(Loaded(store.State())), w.login);
        (tasks == ListView <==> c.1 && Relogin(c.0, chatId, old(Loaded(store.State())), w.login).1)
        && (tasks != ListView ==> tasks == TasksIdle)
    {
      var next, s := ListTasks(w);
      tasks := Apply(tasks, next);
      out := Output(None, s);
    }

    /** task_list_callback with its verdict applied: selecting opens the menu, every other button keeps the list. */
    method TaskListStep(b: Button, w: World) returns (out: Output)
      requires tasks == ListView && TaskButton(b)
      modifies this, session
      ensures login == old(login) && out.sent.None?
      ensures tasks == if b.TaskSelect? then EditView else ListView
    {
      var next, s := TaskListCallback(b, w);
      tasks := Apply(tasks, next);
      out := Output(None, s);
    }

    /** task_edit_callback with its verdict applied. */
    method TaskEditStep(a: EditAction, w: World) returns (out: Output)
      requires tasks == EditView
      modifies this, session
      ensures login == old(login)
      ensures old(session.selectedTaskId).None? ==> tasks == EditView && out == Quiet
      ensures old(session.selectedTaskId).Some? ==>
        var ts := ActiveNow(old(session.Value()), w, None);
        (tasks == TasksIdle <==> a == MarkDone || a == DeleteTask)
        && (tasks == EditDue <==> a == ChangeDue)
        && (a == BackToList ==> (tasks == ListView <==> ts.Some? && ts.value != []))
        && (a == BackToList && tasks != ListView ==> tasks == EditView)
        && (a == ChangeProject || a == ChangePriority ==> tasks == EditView)
        && (a == MarkDone ==> out.sent == Some(MarkTaskDone(old(session.selectedTaskId).value)))
        && (a == DeleteTask ==> out.sent == Some(RemoveTask(old(session.selectedTaskId).value)))
    {
      var next, o := TaskEditCallback(a, w);
      tasks := Apply(tasks, next);
      out := o;
    }

    /** handle_task_due_date_update with its verdict applied: a set date or "none" returns to the list. */
    method DueDateStep(text: string, w: World) returns (out: Output)
      requires tasks == EditDue && IsValidDate(w.today)
      modifies this, session
      ensures login == old(login)
      ensures var parsed := Parse(Lower(text), w.today);
        (tasks == ListView <==>
          old(session.selectedTaskId).Some? && (Lower(text) == "none" || (parsed.Ok? && Truthy(parsed.value.dueDate))))
        && (tasks != ListView ==> tasks == EditDue && out.sent.None?)
        && (tasks == ListView ==> out.sent.Some? && out.sent.value.SetDueDate?)
    {
      var next, o := DueDateUpdate(text, w);
      tasks := Apply(tasks, next);
      out := o;
    }

    /** One update, routed as the application routes it. */
    method Handle(e: Event, w: World) returns (out: Output)
      requires IsValidDate(w.today)
      modifies this, session, store
      ensures Route(old(login), old(tasks), e) == Handler.Unhandled ==>
        login == old(login) && tasks == old(tasks) && out == Quiet
        && session.Value() == old(session.Value()) && store.State() == old(store.State())
      ensures e.Press? ==> login == old(login) && store.State() == old(store.State())
      ensures Route(old(login), old(tasks), e) == Handler.LoginPassword ==> login == LoginIdle && session.tempUsername.None?
      ensures Route(old(login), old(tasks), e) == Handler.CancelLogin ==>
        login == LoginIdle && tasks == old(tasks) && session.Value() == Cleared
      ensures Route(old(login), old(tasks), e) == Handler.CancelTasks ==>
        login == old(login) && tasks == TasksIdle && session.Value() == Cleared
      ensures Route(old(login), old(tasks), e) == Handler.LogoutCommand ==>
        login == old(login) && tasks == old(tasks) && session.Value() == Cleared
        && store.State() == AfterDelete(old(store.State()), chatId)
      ensures Route(old(login), old(tasks), e) in {Handler.StartCommand, Handler.StatusCommand, Handler.TodayCommand, Handler.PlainMessage, Handler.QuickDoneCallback} ==>
        login == old(login) && tasks == old(tasks)
      ensures Route(old(login), old(tasks), e) in {Handler.ListTasks, Handler.TaskListCallback, Handler.TaskEditCallback, Handler.DueDateUpdate} ==>
        login == old(login)
      // /login asks for the username; the username is kept and the password asked for.
      ensures Route(old(login), old(tasks), e) == Handler.LoginStart ==>
        login == AwaitUsername && tasks == old(tasks) && out == Quiet
        && session.Value() == old(session.Value()) && store.State() == old(store.State())
      ensures Route(old(login), old(tasks), e) == Handler.LoginUsername ==>
        login == AwaitPassword && tasks == old(tasks) && out == Quiet
        && session.Value() == old(session.Value()).(tempUsername := Some(Strip(e.text))) && store.State() == old(store.State())
      // /tasks opens the list exactly when the check and the new login succeed.
      ensures Route(old(login), old(tasks), e) == Handler.ListTasks ==>
        var c := Checked(old(session.Value()), Some(chatId), old(Loaded(store.State())), w.login);
        (tasks == ListView <==> c.1 && Relogin(c.0, chatId, old(Loaded(store.State())), w.login).1)
        && (tasks != ListView ==> tasks == TasksIdle)
      // In the list, selecting a task opens its menu; every other list button keeps the list.
      ensures Route(old(login), old(tasks), e) == Handler.TaskListCallback ==>
        tasks == if e.button.TaskSelect? then EditView else ListView
      // In the menu, without a selected task the menu stays; otherwise each action has its step.
      ensures Route(old(login), old(tasks), e) == Handler.TaskEditCallback && old(session.selectedTaskId).None? ==>
        tasks == EditView && out == Quiet
      ensures Route(old(login), old(tasks), e) == Handler.TaskEditCallback && old(session.selectedTaskId).Some? ==>
        var a := e.button.action;
        var ts := ActiveNow(old(session.Value()), w, None);
        (tasks == TasksIdle <==> a == MarkDone || a == DeleteTask)
        && (tasks == EditDue <==> a == ChangeDue)
        && (a == BackToList ==> (tasks == ListView <==> ts.Some? && ts.value != []))
        && (a == BackToList && tasks != ListView ==> tasks == EditView)
        && (a == ChangeProject || a == ChangePriority ==> tasks == EditView)
        && (a == MarkDone ==> out.sent == Some(MarkTaskDone(old(session.selectedTaskId).value)))
        && (a == DeleteTask ==> out.sent == Some(RemoveTask(old(session.selectedTaskId).value)))
      // A due date that is set, or "none", goes back to the list; anything else asks again.
      ensures Route(old(login), old(tasks), e) == Handler.DueDateUpdate ==>
        var parsed := Parse(Lower(e.text), w.today);
        (tasks == ListView <==>
          old(session.selectedTaskId).Some? && (Lower(e.text) == "none" || (parsed.Ok? && Truthy(parsed.value.dueDate))))
        && (tasks != ListView ==> tasks == EditDue && out.sent.None?)
        && (tasks == ListView ==> out.sent.Some? && out.sent.value.SetDueDate?)
    {
      out := Quiet;
      match Route(login, tasks, e)
      case StartCommand =>
        Start(w);
      case LoginStart =>
        login := AwaitUsername;
      case LoginUsername =>
        var next := LoginUsername(e.text);
        login := Apply(login, next);
      case LoginPassword =>
        var next := LoginPassword(e.text, w);
        login := Apply(login, next);
      case CancelLogin =>
        var _ := Cancel();
        login := LoginIdle;
      case LogoutCommand =>
        Logout();
      case StatusCommand =>
        Status(w);
      case TodayCommand =>
        var s := Today(w);
        out := Output(None, s);
      case ListTasks =>
        out := ListTasksStep(w);
      case TaskListCallback =>
        out := TaskListStep(e.button, w);
      case TaskEditCallback =>
        out := TaskEditStep(e.button.action, w);
      case DueDateUpdate =>
        out := DueDateStep(e.text, w);
      case CancelTasks =>
        var _ := Cancel();
        tasks := TasksIdle;
      case QuickDoneCallback =>
        var _, o := QuickDoneCallback(e.button, w);
        out := o;
      case PlainMessage =>
        var _, o := PlainMessage(e.text, w);
        out := o;
      case Unhandled =>
    }
  }
}
