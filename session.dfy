/**
 * context.user_data of one chat: the Vikunja session (token and
 * credentials), the short-lived project cache and the keys the
 * conversations keep; with get_user_session, authenticate,
 * is_authenticated, get_headers, get_all_projects_cached, the project
 * lookups and get_active_tasks_from_projects, which read and update it.
 */
module Session {
  import opened Wrappers
  import opened Text
  import opened Credentials
  import opened Tasks

  /** PROJECT_CACHE_SECONDS in microseconds, the resolution of datetime.now(). */
  const CacheLifetime := 60 * 1000000

  /** The project cache: the list of the last successful fetch and when it was made. */
  datatype CacheEntry = CacheEntry(data: seq<Project>, timestamp: int)

  /** The server's answer to POST /login for a username and password: a token on status 200. */
  type Login = (string, string) -> Reply<string>

  /** The keys of context.user_data the bot uses; a key that is missing reads like one holding None. */
  datatype Fields = Fields(
    token: Option<string>,
    username: Option<string>,
    password: Option<string>,
    projectCache: Option<CacheEntry>,
    tempUsername: Option<string>,
    taskPage: Option<int>,
    selectedTaskId: Option<string>)

  /** user_data after clear(). */
  const Cleared := Fields(None, None, None, None, None, None, None)

  /** A chat_id argument is truthy when one is given and it is not 0. */
  predicate ChatGiven(chatId: Option<int>) {
    chatId.Some? && chatId.value != 0
  }

  // ---------------------------------------------------------------------------
  // Session and login

  /** get_user_session: a session without a username takes the chat's saved credentials, when there are any. */
  function Hydrated(v: Fields, chatId: Option<int>, saved: map<string, Credential>): Fields {
    if !Truthy(v.username) && ChatGiven(chatId) && Key(chatId.value) in saved then
      var c := saved[Key(chatId.value)];
      v.(username := Some(c.username), password := Some(c.password))
    else v
  }

  /** Credentials are only read from the file while the session has no username, so hydrating twice is hydrating once. */
  lemma HydratedOnce(v: Fields, chatId: Option<int>, saved: map<string, Credential>)
    ensures Truthy(v.username) ==> Hydrated(v, chatId, saved) == v
    ensures Hydrated(Hydrated(v, chatId, saved), chatId, saved) == Hydrated(v, chatId, saved)
  {
  }

  /**
   * authenticate on a session that get_user_session has hydrated: the
   * session afterwards and the result. Given credentials replace the
   * session's even when the login fails; a failed login keeps the old token.
   */
  function Authenticated(v: Fields, user: Option<string>, pass: Option<string>, login: Login): (r: (Fields, bool))
    ensures var given := Truthy(user) && Truthy(pass);
      var u := if given then user else v.username;
      var p := if given then pass else v.password;
      (r.1 <==> Truthy(u) && Truthy(p) && login(u.value, p.value).Response? && login(u.value, p.value).status == 200)
      && (r.1 ==> r.0.token == Some(login(u.value, p.value).body) && r.0.username == u && r.0.password == p)
      && (!r.1 ==> r.0.token == v.token)
      && (given ==> r.0.username == user && r.0.password == pass)
      && (!given ==> r.0.username == v.username && r.0.password == v.password)
      && r.0.(token := v.token, username := v.username, password := v.password) == v
  {
    var given := Truthy(user) && Truthy(pass);
    var v1 := if given then v.(username := user, password := pass) else v;
    var u := if given then user else v.username;
    var p := if given then pass else v.password;
    if Truthy(u) && Truthy(p) then
      match login(u.value, p.value)
      case Response(status, token) =>
        if status == 200 then (v1.(token := Some(token), username := u, password := p), true) else (v1, false)
      case ConnectionError => (v1, false)
    else (v1, false)
  }

  /**
   * is_authenticated: after hydrating, a session with no truthy token but
   * with credentials logs in again; the answer is whether a token is set.
   */
  function Checked(v: Fields, chatId: Option<int>, saved: map<string, Credential>, login: Login): (r: (Fields, bool))
    ensures r.1 <==> r.0.token.Some?
    ensures Truthy(v.token) ==> r == (Hydrated(v, chatId, saved), true)
    ensures r.0.(token := v.token, username := v.username, password := v.password) == v
  {
    var s := Hydrated(v, chatId, saved);
    var s' := if !Truthy(s.token) && Truthy(s.username) && Truthy(s.password)
              then Authenticated(Hydrated(s, chatId, saved), None, None, login).0
              else s;
    (s', s'.token.Some?)
  }

  /**
   * The automatic login of is_authenticated: a hydrated session with
   * credentials but no truthy token logs in with them; a 200 reply stores
   * the token and authenticates, any other reply changes nothing and the
   * answer is whether a (falsy) token was already set.
   */
  lemma CheckedLogsIn(v: Fields, chatId: Option<int>, saved: map<string, Credential>, login: Login)
    requires var h := Hydrated(v, chatId, saved);
      !Truthy(h.token) && Truthy(h.username) && Truthy(h.password)
    ensures var h := Hydrated(v, chatId, saved);
      var o := login(h.username.value, h.password.value);
      (o.Response? && o.status == 200 ==> Checked(v, chatId, saved, login) == (h.(token := Some(o.body)), true))
      && (!(o.Response? && o.status == 200) ==> Checked(v, chatId, saved, login) == (h, h.token.Some?))
  {
    HydratedOnce(v, chatId, saved);
  }

  /**
   * After a restart the session is empty; a chat whose credentials were
   * saved and are still accepted is authenticated again by the first check.
   */
  lemma SavedCredentialsSurviveRestart(chatId: int, saved: map<string, Credential>, login: Login)
    requires chatId != 0 && Key(chatId) in saved
    requires saved[Key(chatId)].username != "" && saved[Key(chatId)].password != ""
    requires login(saved[Key(chatId)].username, saved[Key(chatId)].password).Response?
    requires login(saved[Key(chatId)].username, saved[Key(chatId)].password).status == 200
    ensures var c := saved[Key(chatId)];
      Checked(Cleared, Some(chatId), saved, login)
        == (Cleared.(token := Some(login(c.username, c.password).body), username := Some(c.username), password := Some(c.password)), true)
  {
    var c := saved[Key(chatId)];
    var s := Hydrated(Cleared, Some(chatId), saved);
    assert s == Cleared.(username := Some(c.username), password := Some(c.password));
    assert Hydrated(s, Some(chatId), saved) == s;
  }

  /** After /logout (credentials deleted, user_data cleared) the chat is not authenticated and nothing is logged in. */
  lemma LoggedOutStaysOut(chatId: int, saved: map<string, Credential>, login: Login)
    requires Key(chatId) !in saved
    ensures Checked(Cleared, Some(chatId), saved, login) == (Cleared, false)
  {
  }

  /**
   * A /logout whose delete cannot write the file keeps the chat's entry, so
   * the next check hydrates the saved credentials and logs the chat in again.
   */
  lemma LogoutOverUnwritableFile(f: FileState, chatId: int, login: Login)
    requires f.present && f.readable && !f.writable
    requires chatId != 0 && Key(chatId) in f.entries
    requires f.entries[Key(chatId)].username != "" && f.entries[Key(chatId)].password != ""
    requires login(f.entries[Key(chatId)].username, f.entries[Key(chatId)].password).Response?
    requires login(f.entries[Key(chatId)].username, f.entries[Key(chatId)].password).status == 200
    ensures Key(chatId) in Loaded(AfterDelete(f, chatId))
    ensures Checked(Cleared, Some(chatId), Loaded(AfterDelete(f, chatId)), login).1
  {
    assert AfterDelete(f, chatId) == f;
    SavedCredentialsSurviveRestart(chatId, f.entries, login);
  }

  /** get_headers: a bearer token header when the token is truthy, no headers otherwise. */
  function Headers(v: Fields): (h: map<string, string>)
    ensures h == map[] <==> !Truthy(v.token)
    ensures Truthy(v.token) ==> h.Keys == {"Authorization"} && h["Authorization"] == "Bearer " + v.token.value
  {
    if Truthy(v.token) then
      var h := map["Authorization" := "Bearer " + v.token.value];
      assert "Authorization" in h;
      h
    else map[]
  }

  /**
   * After a successful login the requests carry the new token as a bearer
   * header, unless the server answered with an empty token: the session
   * then counts as authenticated but its requests go without a header.
   */
  lemma HeadersAfterLogin(v: Fields, user: Option<string>, pass: Option<string>, login: Login)
    requires Authenticated(v, user, pass, login).1
    ensures var s := Authenticated(v, user, pass, login).0;
      var given := Truthy(user) && Truthy(pass);
      var u := if given then user else v.username;
      var p := if given then pass else v.password;
      var token := login(u.value, p.value).body;
      (token != "" ==> Headers(s) == map["Authorization" := "Bearer " + token])
      && (token == "" ==> Headers(s) == map[])
  {
  }

  // ---------------------------------------------------------------------------
  // The project cache

  /** The cached list is served while it is younger than PROJECT_CACHE_SECONDS. */
  predicate CacheFresh(c: Option<CacheEntry>, now: int) {
    c.Some? && now - c.value.timestamp < CacheLifetime
  }

  /**
   * get_all_projects_cached: the list it returns and the cache afterwards.
   * A fresh cache answers without a request; otherwise a 200 reply is stored
   * with the current time, and any other reply or a raised request gives []
   * and leaves the cache alone.
   */
  function ProjectsLookup(c: Option<CacheEntry>, now: int, reply: Reply<seq<Project>>): (seq<Project>, Option<CacheEntry>) {
    if CacheFresh(c, now) then (c.value.data, c)
    else if reply.Response? && reply.status == 200 then (reply.body, Some(CacheEntry(reply.body, now)))
    else ([], c)
  }

  /** While the cache is fresh the server's reply does not matter: the cached list is returned and kept. */
  lemma FreshCacheAnswers(c: Option<CacheEntry>, now: int, reply: Reply<seq<Project>>)
    requires CacheFresh(c, now)
    ensures ProjectsLookup(c, now, reply) == (c.value.data, c)
  {
  }

  /** A list fetched at time t is what every lookup returns for the next 60 seconds, whatever the server answers then. */
  lemma FetchedListLasts(c: Option<CacheEntry>, t: int, reply: Reply<seq<Project>>, later: int, laterReply: Reply<seq<Project>>)
    requires !CacheFresh(c, t) && reply.Response? && reply.status == 200
    requires t <= later < t + CacheLifetime
    ensures ProjectsLookup(ProjectsLookup(c, t, reply).1, later, laterReply) == (reply.body, Some(CacheEntry(reply.body, t)))
  {
  }

  /** A failed fetch gives [] and keeps the cache it had, stale or not. */
  lemma FailedFetchKeepsCache(c: Option<CacheEntry>, now: int, reply: Reply<seq<Project>>)
    requires !CacheFresh(c, now) && !(reply.Response? && reply.status == 200)
    ensures ProjectsLookup(c, now, reply) == ([], c)
  {
  }

  /** Looking up again at the same moment with the same server gives the same list and the same cache. */
  lemma LookupRepeats(c: Option<CacheEntry>, now: int, reply: Reply<seq<Project>>)
    ensures ProjectsLookup(ProjectsLookup(c, now, reply).1, now, reply) == ProjectsLookup(c, now, reply)
  {
  }

  // ---------------------------------------------------------------------------
  // The session object

  /** context.user_data of one chat. */
  class UserData {
    var token: Option<string>
    var username: Option<string>
    var password: Option<string>
    var projectCache: Option<CacheEntry>
    var tempUsername: Option<string>
    var taskPage: Option<int>
    var selectedTaskId: Option<string>

    constructor ()
      ensures Value() == Cleared
    {
      token, username, password, projectCache := None, None, None, None;
      tempUsername, taskPage, selectedTaskId := None, None, None;
    }

    function Value(): Fields
      reads this
    {
      Fields(token, username, password, projectCache, tempUsername, taskPage, selectedTaskId)
    }

    /** user_data.clear() */
    method Clear()
      modifies this
      ensures Value() == Cleared
    {
      token, username, password, projectCache := None, None, None, None;
      tempUsername, taskPage, selectedTaskId := None, None, None;
    }

    /** get_user_session(context, chat_id) */
    method LoadSession(chatId: Option<int>, store: CredentialStore)
      modifies this
      ensures Value() == Hydrated(old(Value()), chatId, Loaded(store.State()))
    {
      if !Truthy(username) && ChatGiven(chatId) {
        var saved := store.Load();
        var key := Key(chatId.value);
        if key in saved {
          username := Some(saved[key].username);
          password := Some(saved[key].password);
        }
      }
    }

    /** authenticate(context, username, password, save, chat_id); credentials given with save are written before the login. */
    method Authenticate(user: Option<string>, pass: Option<string>, save: bool, chatId: Option<int>,
                        store: CredentialStore, login: Login) returns (ok: bool)
      modifies this, store
      ensures (Value(), ok) == Authenticated(Hydrated(old(Value()), chatId, old(Loaded(store.State()))), user, pass, login)
      ensures store.State() ==
        if Truthy(user) && Truthy(pass) && save && ChatGiven(chatId)
        then AfterSave(old(store.State()), chatId.value, Credential(user.value, pass.value))
        else old(store.State())
    {
      LoadSession(chatId, store);
      var u, p := user, pass;
      if Truthy(user) && Truthy(pass) {
        username, password := user, pass;
        if save && ChatGiven(chatId) {
          store.Save(chatId.value, user.value, pass.value);
        }
      } else {
        u, p := username, password;
      }
      if !Truthy(u) || !Truthy(p) {
        return false;
      }
      match login(u.value, p.value)
      case Response(status, body) =>
        if status == 200 {
          token, username, password := Some(body), u, p;
          return true;
        }
        return false;
      case ConnectionError =>
        return false;
    }

    /** is_authenticated(context, chat_id) */
    method IsAuthenticated(chatId: Option<int>, store: CredentialStore, login: Login) returns (b: bool)
      modifies this, store
      ensures (Value(), b) == Checked(old(Value()), chatId, old(Loaded(store.State())), login)
      ensures store.State() == old(store.State())
    {
      LoadSession(chatId, store);
      if !Truthy(token) && Truthy(username) && Truthy(password) {
        var _ := Authenticate(None, None, false, chatId, store, login);
      }
      b := token.Some?;
    }

    /** get_all_projects_cached(context) */
    method GetAllProjectsCached(now: int, reply: Reply<seq<Project>>) returns (ps: seq<Project>)
      modifies this
      ensures (ps, projectCache) == ProjectsLookup(old(projectCache), now, reply)
      ensures Value() == old(Value()).(projectCache := projectCache)
    {
      if projectCache.Some? && now - projectCache.value.timestamp < CacheLifetime {
        return projectCache.value.data;
      }
      match reply
      case Response(status, body) =>
        if status == 200 {
          projectCache := Some(CacheEntry(body, now));
          return body;
        }
        return [];
      case ConnectionError =>
        return [];
    }

    /** get_project_by_name(name, context) */
    method GetProjectByName(name: string, now: int, reply: Reply<seq<Project>>) returns (r: Option<Project>)
      modifies this
      ensures r == FindProjectByName(ProjectsLookup(old(projectCache), now, reply).0, name)
      ensures Value() == old(Value()).(projectCache := ProjectsLookup(old(projectCache), now, reply).1)
    {
      var ps := GetAllProjectsCached(now, reply);
      var i := 0;
      while i < |ps|
        invariant 0 <= i <= |ps|
        invariant FindProjectByName(ps, name) == FindProjectByName(ps[i..], name)
      {
        if Lower(ps[i].title) == Lower(name) {
          return Some(ps[i]);
        }
        assert ps[i..][1..] == ps[i + 1..];
        i := i + 1;
      }
      return None;
    }

    /** get_project_by_id(project_id, context) */
    method GetProjectById(id: int, now: int, reply: Reply<seq<Project>>) returns (r: Option<Project>)
      modifies this
      ensures r == FindProjectById(ProjectsLookup(old(projectCache), now, reply).0, id)
      ensures Value() == old(Value()).(projectCache := ProjectsLookup(old(projectCache), now, reply).1)
    {
      var ps := GetAllProjectsCached(now, reply);
      var i := 0;
      while i < |ps|
        invariant 0 <= i <= |ps|
        invariant FindProjectById(ps, id) == FindProjectById(ps[i..], id)
      {
        if ps[i].id == id {
          return Some(ps[i]);
        }
        assert ps[i..][1..] == ps[i + 1..];
        i := i + 1;
      }
      return None;
    }

    /** get_active_tasks_from_projects(context, date_filter); None when a task request raises. */
    method GetActiveTasks(now: int, projectsReply: Reply<seq<Project>>, fetch: Fetch, dateFilter: Option<string>)
      returns (r: Option<seq<Task>>)
      modifies this
      ensures r == ActiveTasks(ProjectsLookup(old(projectCache), now, projectsReply).0, fetch, QueryParam(dateFilter))
      ensures Value() == old(Value()).(projectCache := ProjectsLookup(old(projectCache), now, projectsReply).1)
    {
      var ps := GetAllProjectsCached(now, projectsReply);
      var param := QueryParam(dateFilter);
      var all: seq<Task> := [];
      var i := 0;
      while i < |ps|
        invariant 0 <= i <= |ps|
        invariant CollectTasks(ps[..i], fetch, param) == Some(all)
        invariant Value() == old(Value()).(projectCache := ProjectsLookup(old(projectCache), now, projectsReply).1)
      {
        assert ps[..i + 1] == ps[..i] + [ps[i]];
        assert [ps[i]][0] == ps[i] && [ps[i]][1..] == [];
        CollectAppend(ps[..i], [ps[i]], fetch, param);
        match fetch(ps[i].id, param)
        case ConnectionError =>
          assert ps[i..][0] == ps[i];
          CollectAppend(ps[..i], ps[i..], fetch, param);
          assert ps[..i] + ps[i..] == ps;
          return None;
        case Response(status, body) =>
          if status == 200 {
            var tasks := BodyTasks(body);
            var tagged := tasks;
            for j := 0 to |tasks|
              invariant |tagged| == |tasks|
              invariant forall k :: 0 <= k < j ==> tagged[k] == tasks[k].(projectId := ps[i].id)
              invariant forall k :: j <= k < |tasks| ==> tagged[k] == tasks[k]
            {
              tagged := tagged[j := tagged[j].(projectId := ps[i].id)];
            }
            assert tagged == WithProject(tasks, ps[i].id);
            assert tagged + [] == tagged;
            all := all + tagged;
          } else {
            assert all + [] == all;
          }
          i := i + 1;
      }
      assert ps[..|ps|] == ps;
      r := Some(ActiveOnly(all));
    }
  }
}
