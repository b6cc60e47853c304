/** The WordPress user store as the plugin sees it: users keyed by login with integer
    IDs, `get_user_by('login', …)`, `wp_insert_user` and the `wp_login_failed` action.
    These are WordPress calls; the model gives them the behaviour the plugin relies on. */
module UserStore {
  import opened PhpValues

  /** The fields the plugin passes to `wp_insert_user`. */
  datatype UserData = UserData(
    pass: string,
    login: string,
    nicename: string,
    email: string,
    displayName: string,
    nickname: string,
    firstName: string,
    lastName: string)

  datatype User = User(id: nat, data: UserData)

  /** The state the provisioner reads and writes: the users, the ID the next new user
      gets, and the usernames passed to `wp_login_failed`, in order. */
  datatype SiteState = SiteState(users: map<string, User>, nextId: nat, loginFailed: seq<string>)

  /** Each user is stored under its own login, IDs are positive, below `nextId`, and
      no two users share one. */
  predicate ValidUsers(users: map<string, User>, nextId: nat)
  {
    && 1 <= nextId
    && (forall k | k in users :: users[k].data.login == k && 1 <= users[k].id < nextId)
    && (forall k1, k2 | k1 in users && k2 in users && k1 != k2 :: users[k1].id != users[k2].id)
  }

  /** `wp_insert_user(data)` (no ID: create) or `wp_insert_user(data + ID)` (update).
      `accepts` is the outcome of the store's own checks, which are not modelled;
      beyond them a create is refused for a login already taken and an update for an
      ID that is not the one stored under the record's login. The result is the new
      users, the next ID and the user ID (`None` for a `WP_Error`). */
  function WpInsertUser(users: map<string, User>, nextId: nat, data: UserData, id: Option<nat>, accepts: bool)
    : (r: (map<string, User>, nat, Option<nat>))
    requires ValidUsers(users, nextId)
    ensures ValidUsers(r.0, r.1)
    ensures r.2.None? ==> r.0 == users && r.1 == nextId
    ensures r.2.Some? ==> data.login in r.0 && r.0[data.login] == User(r.2.value, data)
    ensures r.2.Some? ==> forall k | k in r.0 && k != data.login :: k in users && r.0[k] == users[k]
    ensures r.2.Some? ==> forall k | k in users && k != data.login :: k in r.0
    ensures id.Some? ==> (r.2.Some? <==> accepts && data.login in users && users[data.login].id == id.value)
    ensures id.Some? && r.2.Some? ==> r.2.value == id.value && r.0.Keys == users.Keys && r.1 == nextId
    ensures id.None? ==> (r.2.Some? <==> accepts && data.login !in users)
    ensures id.None? && r.2.Some? ==> r.2.value == nextId && r.0.Keys == users.Keys + {data.login} && r.1 == nextId + 1
  {
    if !accepts then (users, nextId, None)
    else match id
      case None =>
        if data.login in users then (users, nextId, None)
        else (users[data.login := User(nextId, data)], nextId + 1, Some(nextId))
      case Some(i) =>
        if data.login in users && users[data.login].id == i
        then (users[data.login := User(i, data)], nextId, Some(i))
        else (users, nextId, None)
  }

  /** The WordPress side of a request: its user table and its `wp_login_failed` events. */
  class WpSite {
    var users: map<string, User>
    var nextId: nat
    var loginFailed: seq<string>

    function State(): SiteState
      reads this
    {
      SiteState(users, nextId, loginFailed)
    }

    ghost predicate Valid()
      reads this
    {
      ValidUsers(users, nextId)
    }

    constructor (initial: SiteState)
      requires ValidUsers(initial.users, initial.nextId)
      ensures Valid() && State() == initial
    {
      users := initial.users;
      nextId := initial.nextId;
      loginFailed := initial.loginFailed;
    }

    /** `get_user_by('login', login)`; `None` stands for `false`. */
    function GetUserBy(login: string): (r: Option<User>)
      reads this
      ensures r.Some? <==> login in users
      ensures r.Some? ==> r.value == users[login]
    {
      if login in users then Some(users[login]) else None
    }

    /** `wp_insert_user`, changing the user table and nothing else. */
    method InsertUser(data: UserData, id: Option<nat>, accepts: bool) returns (r: Option<nat>)
      requires Valid()
      modifies this
      ensures Valid()
      ensures (users, nextId, r) == WpInsertUser(old(users), old(nextId), data, id, accepts)
      ensures loginFailed == old(loginFailed)
    {
      var result := WpInsertUser(users, nextId, data, id, accepts);
      users, nextId, r := result.0, result.1, result.2;
    }

    /** `do_action('wp_login_failed', login)`: records the event and nothing else. */
    method FireLoginFailed(login: string)
      modifies this
      ensures users == old(users) && nextId == old(nextId)
      ensures loginFailed == old(loginFailed) + [login]
    {
      loginFailed := loginFailed + [login];
    }
  }
}
