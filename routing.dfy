/**
 * Which handler of the bot receives an update. The application tries its
 * handlers in the order they were added (/start, the login conversation,
 * /logout, /status, /today, the task conversation, the quick-done buttons,
 * plain text) and the first that accepts the update handles it. A
 * conversation that is idle accepts only its entry command; one that is
 * waiting accepts only the handlers of its current step and its /cancel
 * fallback, so its entry command is not accepted again.
 */
module Routing {

  /** The commands the bot registers; any other command is OtherCommand. */
  datatype Command = Start | Login | Logout | Status | Today | Tasks | Cancel | OtherCommand

  /** The actions of the edit menu (callback data task_edit_<action>). */
  datatype EditAction = MarkDone | ChangeProject | ChangePriority | ChangeDue | DeleteTask | BackToList

  /**
   * The inline buttons the bot sends, by their callback data:
   * task_select_<id>, task_prev_<page>, task_next_<page>, task_edit_<action>,
   * quick_done_<id> and view_all_tasks.
   */
  datatype Button =
    | TaskSelect(taskId: int)
    | TaskPrev(page: int)
    | TaskNext(page: int)
    | TaskEdit(action: EditAction)
    | QuickDone(taskId: int)
    | ViewAll

  /** An update: a command, a text message that is not a command, or a button press. */
  datatype Event = Command(command: Command) | Text(text: string) | Press(button: Button)

  datatype LoginStep = LoginIdle | AwaitUsername | AwaitPassword
  datatype TaskStep = TasksIdle | ListView | EditView | EditDue

  /** Callback data matching ^task_ */
  predicate TaskButton(b: Button) {
    b.TaskSelect? || b.TaskPrev? || b.TaskNext? || b.TaskEdit?
  }

  /** Callback data matching ^(quick_done_|view_all_tasks) */
  predicate QuickButton(b: Button) {
    b.QuickDone? || b.ViewAll?
  }

  datatype Handler =
    | StartCommand | LoginStart | LoginUsername | LoginPassword | CancelLogin
    | LogoutCommand | StatusCommand | TodayCommand
    | ListTasks | TaskListCallback | TaskEditCallback | DueDateUpdate | CancelTasks
    | QuickDoneCallback | PlainMessage | Unhandled

  /** The handler that receives event e while the two conversations are at the given steps. */
  function Route(login: LoginStep, tasks: TaskStep, e: Event): (h: Handler)
    // Buttons never reach the login conversation or the plain-text handler.
    ensures e.Press? ==> h in {TaskListCallback, TaskEditCallback, QuickDoneCallback, Unhandled}
    // Text reaches the task parser only when neither conversation is waiting for text.
    ensures e.Text? ==> (h == PlainMessage <==> login == LoginIdle && tasks != EditDue)
    // A password (or username) being asked for is never taken as a new task or a due date.
    ensures e.Text? && login == AwaitPassword ==> h == LoginPassword
    ensures e.Text? && login == AwaitUsername ==> h == LoginUsername
    // No re-entry: /login and /tasks are ignored while their conversation is running.
    ensures e == Command(Login) ==> (h == LoginStart <==> login == LoginIdle) && (h != LoginStart ==> h == Unhandled)
    ensures e == Command(Tasks) ==> (h == ListTasks <==> tasks == TasksIdle) && (h != ListTasks ==> h == Unhandled)
    // /cancel ends the login conversation first; it reaches the task conversation only when login is idle.
    ensures e == Command(Cancel) ==>
      (h == CancelLogin <==> login != LoginIdle)
      && (h == CancelTasks <==> login == LoginIdle && tasks != TasksIdle)
      && (h == Unhandled <==> login == LoginIdle && tasks == TasksIdle)
    // The quick buttons work whatever the conversations are doing.
    ensures e.Press? && QuickButton(e.button) ==> h == QuickDoneCallback
    // A button of the list or the edit menu is only taken at the matching step.
    ensures h == TaskListCallback ==> tasks == ListView && e.Press? && TaskButton(e.button)
    ensures h == TaskEditCallback ==> tasks == EditView && e.Press? && e.button.TaskEdit?
    ensures h == DueDateUpdate ==> tasks == EditDue && login == LoginIdle && e.Text?
  {
    match e
    case Command(c) =>
      (match c
       case Start => StartCommand
       case Login => if login == LoginIdle then LoginStart else Unhandled
       case Cancel =>
         if login != LoginIdle then CancelLogin
         else if tasks != TasksIdle then CancelTasks
         else Unhandled
       case Logout => LogoutCommand
       case Status => StatusCommand
       case Today => TodayCommand
       case Tasks => if tasks == TasksIdle then ListTasks else Unhandled
       case OtherCommand => Unhandled)
    case Text(_) =>
      (match login
       case AwaitUsername => LoginUsername
       case AwaitPassword => LoginPassword
       case LoginIdle => if tasks == EditDue then DueDateUpdate else PlainMessage)
    case Press(b) =>
      if tasks == ListView && TaskButton(b) then TaskListCallback
      else if tasks == EditView && b.TaskEdit? then TaskEditCallback
      else if QuickButton(b) then QuickDoneCallback
      else Unhandled
  }
}
