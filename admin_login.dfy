/**
 * The admin login page: it checks that both credentials are filled in,
 * shows the loader while the credential request is in flight, and on an
 * `admin` answer writes the session token and moves to the dashboard.
 */
module AdminLogin {
  import opened Wrappers
  import opened Backend
  import opened Storage
  import ProtectedRoute

  const DashboardPath: string := "/admin/dashboard"

  class LoginPage {
    var username: string
    var password: string
    var isLoading: bool
    /** The requests this page has sent, oldest first. */
    var sent: seq<Request>
    const store: LocalStorage

    constructor (store: LocalStorage)
      ensures username == "" && password == "" && !isLoading && sent == []
      ensures this.store == store
    {
      username, password, isLoading, sent := "", "", false, [];
      this.store := store;
    }

    /** The username input's `onChange`. */
    method SetUsername(value: string)
      modifies this
      ensures username == value && password == old(password)
      ensures isLoading == old(isLoading) && sent == old(sent)
    {
      username := value;
    }

    /** The password input's `onChange`. */
    method SetPassword(value: string)
      modifies this
      ensures password == value && username == old(username)
      ensures isLoading == old(isLoading) && sent == old(sent)
    {
      password := value;
    }

    /**
     * `handleLogin` up to the awaited call. The form is rendered only while
     * the loader is not shown, so `isLoading` is false on entry.
     */
    method HandleLogin() returns (blocked: bool)
      requires !isLoading
      modifies this
      ensures blocked <==> username == "" || password == ""
      ensures blocked ==> !isLoading && sent == old(sent)
      ensures !blocked ==> isLoading && sent == old(sent) + [AdminAuthenticate(username, password)]
      ensures username == old(username) && password == old(password)
    {
      if username == "" || password == "" {
        return true;
      }
      isLoading := true;
      sent := sent + [AdminAuthenticate(username, password)];
      return false;
    }

    /**
     * The credential request resolves. `res` is `Ok(admin)` for a 2xx answer
     * carrying `admin`, and `Failed` for a rejected call. The 800 ms delay
     * before the token write is taken as immediate.
     */
    method CompleteLogin(res: Response<bool>) returns (nav: Option<string>)
      requires isLoading
      modifies this, store
      ensures res == Ok(true) ==>
        && store.entries == Apply(old(store.entries), SetItem(ProtectedRoute.TokenKey, "true"))
        && ProtectedRoute.IsAuthenticated(store.entries)
        && nav == Some(DashboardPath) && isLoading
      ensures res == Ok(false) ==> store.entries == old(store.entries) && nav == None && isLoading
      ensures res.Failed? ==> store.entries == old(store.entries) && nav == None && !isLoading
      ensures username == old(username) && password == old(password) && sent == old(sent)
    {
      match res
      case Ok(admin) =>
        if admin {
          store.SetItem(ProtectedRoute.TokenKey, "true");
          nav := Some(DashboardPath);
        } else {
          nav := None;
        }
      case Failed =>
        isLoading := false;
        nav := None;
    }
  }
}
