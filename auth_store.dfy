/** The global signed-in user of useAuthStore.ts: one `user` field that
    `setUser` and `logout` overwrite. */
module AuthStore {
  import opened JsValues

  datatype User = User(id: string, displayName: string, domain: string)

  class Store {
    var user: Option<User>

    /** No user is signed in at first. */
    constructor ()
      ensures user == None
    {
      user := None;
    }

    /** `setUser(u)`: stores exactly `u`, replacing an earlier user. */
    method SetUser(u: User)
      modifies this
      ensures user == Some(u)
    {
      user := Some(u);
    }

    /** `logout()`: back to the initial state, no user, from any state; a
        second call changes nothing. */
    method Logout()
      modifies this
      ensures user == None
    {
      user := None;
    }
  }
}
