# Vikunja Telegram bot: a verified model

The bot is one Python program, `vikunja_bot.py`. It connects a Telegram chat to a Vikunja task server. A chat does these things:

- it logs in with a username and password, which the bot keeps in a JSON credentials file keyed by chat id;
- it pages through its active tasks five at a time;
- it opens a task to mark it done, delete it or change its due date;
- it creates a task by typing a plain message in a quick-add syntax: `*label`, `!3` for priority, `+project`, and a due date in words or as D/M/YYYY.

This project models the core of that program in Dafny and proves properties of the model.

Modules, in dependency order:

- `Wrappers`: `Option` and `Result`.
- `Text`: the Python string built-ins the bot relies on. These are `str.isspace`, `split()` with `' '.join`, `strip`, `lower` and `str(int)`/`int(str)`. Whitespace is Python's full set; `\w`, `\d` and `lower()` are modelled for ASCII and Latin-1 only (see Left out).
- `Calendar`: proleptic Gregorian dates as the `datetime` module has them. This covers adding days up to `date.max`, `weekday()` and `strftime('%Y-%m-%d')`.
- `Regex`: hand-written scanners for the five pattern shapes the parser uses. They follow `re` semantics: leftmost match, alternatives tried in order, `re.search`, `re.findall`, `re.sub` with and without a count, and `re.IGNORECASE`.
- `QuickAdd`: `parse_vikunja_task_format`.
  - `Parse` is a pure, stage-by-stage definition.
  - `ParseTaskFormat` is the imperative version, with the source's loops. It is proved equal to `Parse`.
- `Credentials`: the credentials file, as a class `CredentialStore` with load, save and delete.
- `Tasks`: projects and tasks and the pure logic over them. This covers project lookup, collecting the active tasks of all projects, pagination, the quick list, the create payload and the project choice of a plain message.
- `Session`: a chat's `context.user_data`, as a class `UserData`. It carries login, the 60-second project cache and the lookups.
- `Routing`: which handler the application gives an update to. This depends on the handler order in `main()` and the steps of the two conversations.
- `Bot`: class `Chat`. It has every handler of the program as a method, and `Handle`, which routes one update and applies the handler's verdict to the conversation steps.

The Vikunja server and the clock are not called. Each update is handled against a `World` value. A `World` holds:

- the current time, and today's date;
- the reply to the login request;
- the reply to the projects list;
- the reply to each per-project task request;
- the reply to the single-task request;
- the reply to the create request;
- the reply to the update requests.

The requests a handler would send out are reported in its `Output`.

A handler that raises is modelled as the step verdict `Crash`. The conversation framework then keeps the conversation at its step, while `user_data` changes made before the exception remain.

Where the code and the program's documented intent disagree, the model follows the code:

- `authenticate` writes the credentials file before the login request is made, so a failed login still saves them.
- `delete_saved_credentials` only logs a failure to write the file, so a /logout over a file that cannot be written keeps the chat's entry and the next check logs the chat in again.
- The parser is not total. An impossible D/M/YYYY date raises `ValueError`, and a date that would move past year 9999 raises `OverflowError`.
- Only the first `!d` and the first `+project` are removed, so a second one stays in the title.
- Labels are parsed from a plain message but never sent.
- A quick-done request answered with 204 creates no refreshed list, because the reply has no JSON to read.
- The due-date prompt suggests `2025-06-20`, but no date rule reads that form, so the bot asks for the date again.

## Model

| member | source | states |
|---|---|---|
| Text.Collapse | vikunja_bot.py:314 | `' '.join(s.split())` is normalized (no outer or doubled whitespace, whitespace being `str.isspace` as `IsSpace` lists it) and has the same words as `s` |
| Text.CollapseIdempotent | vikunja_bot.py:314 | collapsing the title's whitespace twice gives the same as once |
| Text.SplitJoin | vikunja_bot.py:314 | `split()` recovers the words that `' '.join` put together |
| Text.Strip | vikunja_bot.py:576-586 | `strip()` returns the part between leading and trailing whitespace; it is empty exactly when the text is all whitespace |
| Text.LowerIdempotent | vikunja_bot.py:833 | `lower()` leaves no capital behind, so lowering twice is lowering once |
| Text.LowerKeepsUncased | vikunja_bot.py:833 | `lower()` changes only capitals, so the lowered due-date text keeps every digit, space, `/` and `-` of a D/M/YYYY or ISO date |
| Text.DecimalRoundTrip | vikunja_bot.py:66 | `str(n)` read back as a number is `n`, which makes the `str(chat_id)` keys injective (IntToDecimalInjective, KeysDistinct) |
| Text.IntToDecimalInjective | vikunja_bot.py:66 | distinct integers have distinct `str()` forms |
| Calendar.AddDays | vikunja_bot.py:290-303 | `now + timedelta(days=n)` is the date whose ordinal is `n` more, which by OrdinalInjective is a single date, and it fails exactly when it would pass `date.max` |
| Calendar.OrdinalInjective | vikunja_bot.py:290-303 | two valid dates with the same `toordinal()` are the same date |
| Calendar.DaysAhead | vikunja_bot.py:288-289 | `days_ahead` lies in 1..7, lands on the target weekday, and is the smallest positive such offset |
| Calendar.NextWeekday | vikunja_bot.py:287-290 | `get_next_weekday` gives a date with the target weekday, 1 to 7 days ahead with no earlier one between |
| Calendar.WeekdayShift | vikunja_bot.py:288 | `weekday()` advances by one per day |
| Calendar.FormatDateInjective | vikunja_bot.py:310 | `strftime('%Y-%m-%d')` gives different strings for different dates, by reading each field back |
| Calendar.FormatDate | vikunja_bot.py:310 | `strftime('%Y-%m-%d')` gives ten characters with dashes at positions 4 and 7 |
| Calendar.FormatDateReadsBack | vikunja_bot.py:310 | the year, month and day read back from the string's three zero-padded digit fields |
| Regex.MatchAt | vikunja_bot.py:262-305 | a match of one of the parser's patterns lies in the text, starts on a non-space character and has the pattern's groups |
| Regex.Search | vikunja_bot.py:275-308 | `re.search` returns the match with the smallest start; there is none before it |
| Regex.FindAll | vikunja_bot.py:269 | `re.findall` returns real matches, in order and not overlapping; every position where the pattern matches lies inside one of them |
| Regex.SubAllIsWithout | vikunja_bot.py:269-272 | `re.sub(p, '', s)` removes exactly the spans `re.findall(p, s)` reports |
| Regex.TaggedCapture | vikunja_bot.py:263-283 | a label or project match captures a closed `"..."` part without its quotes when one follows the marker, else a closed `'...'` part without its quotes, and only otherwise the run of non-space characters after the marker |
| Regex.SubAllMarkerFree | vikunja_bot.py:272 | after removing all labels, every `*` left is followed by whitespace or is the last character |
| Regex.BangInsideNumber | vikunja_bot.py:264 | `!([1-5])` has no word boundary after the digit, so `!23` yields priority 2 |
| Regex.DaysInsideWord | vikunja_bot.py:302 | `in (\d+) days?` has no word boundary, so it matches inside "within 3 days" |
| QuickAdd.RuleDate | vikunja_bot.py:287-305 | each rule's lambda yields a valid date or raises; only D/M/YYYY can raise `ValueError` for an impossible date, the others overflow |
| QuickAdd.FirstRuleFrom | vikunja_bot.py:307-309 | the first rule in the fixed order whose pattern matches anywhere, with its leftmost match; every earlier rule matches nowhere |
| QuickAdd.LabelStage | vikunja_bot.py:269-272 | one non-empty label per `re.findall` match, in order; all matches are cut out, and every `*` left is followed by whitespace or is the last character |
| QuickAdd.PriorityStage | vikunja_bot.py:274-278 | the first `!d` gives the priority d in 1..5 and `re.sub(..., 1)` (`Regex.SubFirst`) cuts out those two characters only; without one nothing changes |
| QuickAdd.ProjectStage | vikunja_bot.py:280-284 | the first `+name` gives a non-empty project name and only that match is cut out; without one nothing changes |
| QuickAdd.DueStage | vikunja_bot.py:307-312 | the first matching rule decides, even when a later rule matches further left; its date is rendered and only that match is cut out, or its error is raised; no rule leaves the text as it is |
| QuickAdd.Parse | vikunja_bot.py:257-315 | a successful parse has non-empty labels, a priority in 1..5, a non-empty project and a due date that renders a valid date |
| QuickAdd.ParseTaskFormat | vikunja_bot.py:257-315 | the parser as written (labels appended in a loop, text reassigned after each stage, date rules tried until one matches) equals the staged definition `Parse` |
| QuickAdd.ApplyDateRules | vikunja_bot.py:307-312 | the date loop returns the first rule that matches, its date and the text with that one match removed |
| QuickAdd.CollectLabels | vikunja_bot.py:269-271 | the labels are the first non-empty group of each match, in order |
| QuickAdd.TitleNormalized | vikunja_bot.py:314 | every parsed title is whitespace-normalized |
| QuickAdd.TitleHasNoLabel | vikunja_bot.py:269-314 | no label pattern matches anywhere in the parsed title |
| QuickAdd.SecondPriorityRemains | vikunja_bot.py:275-278 | only the first `!d` is removed; a later one still matches in the text that remains |
| QuickAdd.NextWeekdayRule | vikunja_bot.py:287-301 | "next <weekday>" gives a date on that weekday, 1 to 7 days after today |
| QuickAdd.ParseFailsOnlyOnDates | vikunja_bot.py:307-312 | parsing fails exactly when the date stage fails, and with its error |
| QuickAdd.SlashDateDecides | vikunja_bot.py:304 | when D/M/YYYY is the deciding rule, parsing fails exactly when the numbers form no calendar date; otherwise the due date is that date |
| QuickAdd.ThirtyFirstOfFebruaryRaises | vikunja_bot.py:304 | 31/2/2025 raises |
| QuickAdd.StarTomorrowIsALabel | vikunja_bot.py:269-272 | `*tomorrow` is a label, so it sets no due date |
| QuickAdd.DashedDateIsNoDate | vikunja_bot.py:292-312 | a text of digits and dashes, such as an ISO date, parses to itself as the title with no due date |
| QuickAdd.PromptExampleIsNoDate | vikunja_bot.py:826-843 | the example `2025-06-20` in the due-date prompt yields no due date, so the handler asks again |
| Tasks.FindProjectByName | vikunja_bot.py:199-205 | a project is found exactly when some title matches case-insensitively, and it is the first such project |
| Tasks.FindProjectById | vikunja_bot.py:207-213 | a project is found exactly when some project has the id, and it is the first such project |
| Tasks.ActiveOnly | vikunja_bot.py:255 | the result holds no done task, only input tasks, and every active input task |
| Tasks.ActiveOnlyAppend | vikunja_bot.py:255 | the done filter keeps the order |
| Tasks.CollectAppend | vikunja_bot.py:235-252 | tasks are collected in project order; one raised request makes the whole result absent |
| Tasks.ActiveTasksInProjectOrder | vikunja_bot.py:225-255 | the active tasks of two lists of projects are the first list's followed by the second's |
| Tasks.ActiveTasksOrigin | vikunja_bot.py:235-255 | every listed task is active and carries the id of a project that answered 200 (`CollectTasks` is the loop, `WithProject` its tagging, `ActiveTasks` the loop with its filter) |
| Tasks.NonOkProjectContributesNothing | vikunja_bot.py:246-252 | a project answering with a status other than 200 contributes nothing |
| Tasks.TotalPages | vikunja_bot.py:697 | the page count is the least number of pages of five that hold all tasks |
| Tasks.PageInRange | vikunja_bot.py:697-716 | a page in range of `PageOf` (the screen `show_task_page` builds) shows tasks 5p to 5p+4 (fewer on the last page) and is not empty |
| Tasks.PagePastEnd | vikunja_bot.py:698-699 | a page past the last shows nothing |
| Tasks.PagesCoverTasks | vikunja_bot.py:697-699 | the pages, read in turn, show every active task once and in order |
| Tasks.NavigationStaysInRange | vikunja_bot.py:711-739 | from a page in range Prev and Next, which `PageOf` offers after the first page and before the last, lead to pages in range |
| Tasks.QuickListIsFirstPage | vikunja_bot.py:410-437 | the quick list (`QuickListOf`: the first five tasks and "View All" beyond five) shows page 0 of the full list, and offers "View All" exactly when page 0 has "Next" |
| Tasks.DueAtInjective | vikunja_bot.py:337 | the `due_date` value sent (the date at 23:59:59Z, `DueAt`) determines the date: different dates are sent differently |
| Tasks.ChooseProject | vikunja_bot.py:372-380 | a named project that is found; project 1 for an unknown name; otherwise the first project, or 1 when there are none |
| Credentials.KeysDistinct | vikunja_bot.py:66-85 | distinct chats have distinct keys in the file |
| Credentials.SaveThenLoad | vikunja_bot.py:62-79 | after a save the chat's credentials load back and every other entry is unchanged |
| Credentials.SaveOverUnreadableFile | vikunja_bot.py:45-79 | a save over an unreadable file starts from `{}` and loses the other entries |
| Credentials.DeleteThenLoad | vikunja_bot.py:81-102 | deleting an absent entry changes nothing; when the file can be written the entry is gone and the file exists exactly when entries remain; other entries stay in every case |
| Credentials.SaveThenDelete | vikunja_bot.py:62-102 | save then delete leaves the other loaded entries as they were |
| Credentials.CredentialStore.Load | vikunja_bot.py:45-60 | the entries of a readable file, and `{}` on any failure |
| Credentials.CredentialStore.Save | vikunja_bot.py:62-79 | the file becomes the loaded entries with this chat's entry set, or stays as it was when it cannot be written |
| Credentials.CredentialStore.Delete | vikunja_bot.py:81-102 | when the file can be written, the chat's entry is removed, and the file too when no entry remains; a file that cannot be written is left as it was |
| Session.HydratedOnce | vikunja_bot.py:104-122 | `get_user_session` (`Hydrated`) reads credentials from the file only while there is no username, so hydrating twice is hydrating once |
| Session.Authenticated | vikunja_bot.py:134-167 | success exactly on a 200 login with truthy credentials, which stores the token; given credentials replace the session's even on failure; a failure keeps the old token |
| Session.Checked | vikunja_bot.py:124-132 | authenticated exactly when a token is set afterwards; a truthy token means no login request; other fields are untouched |
| Session.CheckedLogsIn | vikunja_bot.py:124-167 | a hydrated session with truthy credentials and no truthy token logs in: a 200 reply stores its token and answers true; any other reply changes nothing and answers whether a token was already set |
| Session.SavedCredentialsSurviveRestart | vikunja_bot.py:104-132 | after a restart, saved credentials the server accepts authenticate the chat at the first check |
| Session.LoggedOutStaysOut | vikunja_bot.py:619-636 | after a /logout whose delete could write the file, the chat is not authenticated and no login is attempted |
| Session.LogoutOverUnwritableFile | vikunja_bot.py:94-130 | a /logout over a file that cannot be written keeps the chat's entry, and the next check logs the chat in again with it |
| Session.HeadersAfterLogin | vikunja_bot.py:134-175 | after a successful login, `get_headers` (`Headers`) carries the new token as a bearer header; an empty token from the server authenticates but sends no header |
| Session.FreshCacheAnswers | vikunja_bot.py:177-186 | while the cache is younger than 60 s, `get_all_projects_cached` (`ProjectsLookup`) returns the cached list and the server is not consulted |
| Session.FetchedListLasts | vikunja_bot.py:177-197 | a list fetched at t answers every lookup until t + 60 s |
| Session.FailedFetchKeepsCache | vikunja_bot.py:188-197 | a failed fetch yields `[]` and keeps the old cache |
| Session.LookupRepeats | vikunja_bot.py:177-197 | two lookups at the same moment give the same as one |
| Session.UserData.LoadSession | vikunja_bot.py:104-122 | user_data after `get_user_session` is the hydrated session |
| Session.UserData.Authenticate | vikunja_bot.py:134-167 | user_data and the result are `Authenticated` of the hydrated session; with `save`, truthy credentials and a chat id, the file gets the save first |
| Session.UserData.IsAuthenticated | vikunja_bot.py:124-132 | user_data and the answer are `Checked`; the file is untouched |
| Session.UserData.GetAllProjectsCached | vikunja_bot.py:177-197 | the list and the new cache are `ProjectsLookup`; nothing else changes |
| Session.UserData.GetProjectByName | vikunja_bot.py:199-205 | the scan returns `FindProjectByName` of the looked-up list |
| Session.UserData.GetProjectById | vikunja_bot.py:207-213 | the scan returns `FindProjectById` of the looked-up list |
| Session.UserData.GetActiveTasks | vikunja_bot.py:225-255 | the loop over projects returns `ActiveTasks` of the looked-up list, with the query parameter `QueryParam` of the date filter (`due_date` only when the filter is truthy) |
| Routing.Route | vikunja_bot.py:900-949 | button presses never reach login or plain text; text is a new task exactly when neither conversation waits for text; a password prompt always takes the text; no re-entry into a running conversation; /cancel ends login first |
| Bot.PlainPayload | vikunja_bot.py:317-389 | the payload `create_task` (`BuildPayload`) builds from a plain message's task data (`PlainTaskData`) carries no labels and no repeat, the parsed priority or 3 (`PriorityOrDefault`), the chosen project, and a truthy due date at 23:59:59Z |
| Bot.StartAfterRestart | vikunja_bot.py:532-563 | after a restart, /start (`Started`) logs a chat whose saved credentials the server accepts back in, with that login's token |
| Bot.Chat.ShowTaskPage | vikunja_bot.py:685-728 | the page `task_page` of the active tasks; an empty or failed list raises when reached from a button |
| Bot.Chat.ShowQuickList | vikunja_bot.py:399-444 | the quick list of the active tasks, or nothing when there are none |
| Bot.Chat.ShowEditMenu | vikunja_bot.py:749-792 | the project lookup happens only after a 200 reply for the task |
| Bot.Chat.LookupProjects | vikunja_bot.py:415-416 | the per-task `get_project_by_id` calls under a cache already refreshed at this moment leave user_data unchanged |
| Bot.Chat.Start | vikunja_bot.py:532-563 | user_data after /start is `Started`: hydrate, check and re-login (`Relogin`) when stored credentials exist, then check |
| Bot.Chat.Logout | vikunja_bot.py:619-636 | user_data is cleared, and the chat's saved credentials are deleted when the file can be written |
| Bot.Chat.Status | vikunja_bot.py:638-658 | a check, then a fresh login (`Relogin`) when the check succeeds; the file is untouched |
| Bot.Chat.Today | vikunja_bot.py:860-896 | after a check, a fresh login and a non-empty project list, the active tasks due today |
| Bot.Chat.Cancel | vikunja_bot.py:660-663 | user_data is cleared and the conversation ends |
| Bot.Chat.LoginUsername | vikunja_bot.py:574-582 | the stripped text is kept as `temp_username` and the password is asked for |
| Bot.Chat.LoginPassword | vikunja_bot.py:584-617 | login with `temp_username` and the stripped text, saved first; `temp_username` is dropped and the conversation ends whatever the outcome |
| Bot.Chat.ListTasks | vikunja_bot.py:667-683 | after a check and a fresh login, page 0 and the list view; otherwise the conversation ends |
| Bot.Chat.TaskListCallback | vikunja_bot.py:730-747 | Prev/Next store and show the page before/after the button's; select stores the id and opens the menu |
| Bot.Chat.TaskEditCallback | vikunja_bot.py:794-829 | no selected task raises; done and delete send their request and end; due asks for a date; back shows the list |
| Bot.Chat.DueDateUpdate | vikunja_bot.py:831-857 | "none" clears the due date; text that parses to a date sets it at the end of that day; other text asks again; a parse error raises |
| Bot.Chat.PlainMessage | vikunja_bot.py:359-397 | for an authenticated chat, the parsed task is sent to the chosen project, and the quick list follows a 200/201 reply |
| Bot.Chat.QuickDoneCallback | vikunja_bot.py:446-483 | "View All" shows page 0; a quick-done button marks its task done, and the quick list is refreshed only after a 200 reply |
| Bot.Chat.ListTasksStep | vikunja_bot.py:667-683 | after /tasks the conversation is in the list view exactly when the check and the new login succeed, and idle otherwise |
| Bot.Chat.TaskListStep | vikunja_bot.py:730-747 | in the list, selecting a task opens the edit menu; Prev, Next (even when the page fails) and stray menu buttons keep the list |
| Bot.Chat.TaskEditStep | vikunja_bot.py:794-829 | in the menu, no selected task keeps the menu; done and delete end the conversation with their request; due waits for a date; back returns to the list when tasks exist and keeps the menu when it raises; project and priority keep the menu |
| Bot.Chat.DueDateStep | vikunja_bot.py:831-857 | back to the list with a due-date request exactly when a task is selected and the lowered text is "none" or parses to a due date; otherwise the date is asked again and nothing is sent |
| Bot.Chat.Handle | vikunja_bot.py:900-949 | an unhandled update changes nothing; presses keep the login step and the file; /login waits for the username and the username for the password, keeping the stripped text; /cancel and /logout clear user_data; the password step always ends login; the task routes move the task step as their step methods say |

## Left out

- Message texts, Markdown formatting, keyboards beyond the callback data they carry, and `_format_display_date` (display only). The edit menu's project and priority buttons have no editor in the source; they keep the menu open, as the model does.
- HTTP is modelled as abstract replies: a status with a decoded body, or a raised request. Malformed JSON, a 200 login reply without a token, and non-dict tasks are not modelled.
- Telegram API errors, such as editing a message to identical content, are not modelled.
- The logging calls, the asynchronous runtime and concurrent updates from several chats are not modelled. One `Chat` models one chat.
- `main()`'s setup of the application and the environment variables is not modelled. Only its handler order is.
- File permissions (`chmod 600`) and I/O errors other than "cannot read" and "cannot write" are not modelled. Credential entries lacking a username or password key are not modelled.
- Text.IsWordChar: `\w` is modelled for ASCII and Latin-1 only, not for the rest of Unicode.
- Text.IsDigit: `\d` is modelled for the ASCII digits only.
- Text.Lower: `lower()` is modelled for ASCII and Latin-1 capitals only.
- Calendar.FormatDate: `%Y` is always four digits. For years below 1000 the C library's `strftime` may print fewer, so the model may differ there.
- QuickAdd.RuleDate: any day count too large for a date is reported as DateOverflow. In Python the addition raises `OverflowError`, `timedelta` itself raises `OverflowError` beyond 999999999 days, and an `int()` of more than 4300 digits raises `ValueError`. The handler raises either way.
- Tasks.PriorityOrDefault: the parser only yields priorities 1 to 5, so the `or 3` branch for 0 is unreachable from a plain message.
- One clock reading and one server per update: a `World` gives the time and today's date once, and one reply per kind of request. The source reads `datetime.now()` afresh at lines 179, 288, 290, 293-303 and 873, and asks the server again on every lookup of a stale cache.
- QuickAdd.NextWeekdayRule: holds under the single clock reading. If midnight passes between lines 288 and 290, the source computes the offset on one day and adds it to the next, and returns the weekday after the target.
- Session.LookupRepeats: two lookups in one update see the same server reply; the source would send a second request on a stale cache, and the server could answer differently.
