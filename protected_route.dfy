/**
 * The route guard in front of the admin dashboard: it reads the
 * `admin_token` entry of the store and either renders its children or
 * redirects to the admin login page.
 */
module ProtectedRoute {
  import opened Wrappers
  import opened Storage

  const TokenKey: string := "admin_token"
  const TokenValue: string := "true"
  const LoginPath: string := "/admin"

  /** `localStorage.getItem('admin_token') === 'true'`. */
  predicate IsAuthenticated(entries: map<string, string>)
  {
    TokenKey in entries && entries[TokenKey] == TokenValue
  }

  /** What the guard returns: a `<Navigate>` element, or its children as given. */
  datatype RouteDecision<+V> = Redirect(to: string, replace: bool) | Render(children: V)

  /** The guard: it only reads the store (a function cannot change it). */
  function Guard<V>(store: LocalStorage, children: V): (r: RouteDecision<V>)
    reads store
    ensures r.Render? <==> store.GetItem(TokenKey) == Some("true")
    ensures r.Render? ==> r.children == children
    ensures r.Redirect? ==> r.to == "/admin" && r.replace
  {
    if IsAuthenticated(store.entries) then Render(children) else Redirect(LoginPath, true)
  }

  /** A missing key, or any value other than exactly "true", keeps the guard closed. */
  lemma OnlyExactTokenOpens(entries: map<string, string>, v: string)
    ensures TokenKey !in entries ==> !IsAuthenticated(entries)
    ensures IsAuthenticated(entries[TokenKey := v]) <==> v == "true"
  {
  }

  /** The last write in `ops` that touches the token key, if any. */
  function LastTokenWrite(ops: seq<StoreOp>): (r: Option<StoreOp>)
    ensures r.Some? ==> r.value.key == TokenKey && exists i :: LastTokenWriteAt(ops, i) && ops[i] == r.value
    ensures r.None? ==> forall i :: 0 <= i < |ops| ==> ops[i].key != TokenKey
    decreases |ops|
  {
    if ops == [] then None
    else if ops[|ops| - 1].key == TokenKey then
      assert LastTokenWriteAt(ops, |ops| - 1);
      Some(ops[|ops| - 1])
    else
      assert forall i :: LastTokenWriteAt(ops[..|ops| - 1], i) ==> LastTokenWriteAt(ops, i) && ops[..|ops| - 1][i] == ops[i];
      LastTokenWrite(ops[..|ops| - 1])
  }

  /** `ops[i]` writes the token key and no later write does. */
  predicate LastTokenWriteAt(ops: seq<StoreOp>, i: int)
  {
    0 <= i < |ops| && ops[i].key == TokenKey && forall j :: i < j < |ops| ==> ops[j].key != TokenKey
  }

  /**
   * After any sequence of writes, the guard is open exactly when the last
   * write to the token set it to "true", or, without such a write, when it
   * was open before.
   */
  lemma {:induction false} GuardAfterWrites(entries: map<string, string>, ops: seq<StoreOp>)
    ensures IsAuthenticated(ApplyAll(entries, ops)) <==>
      match LastTokenWrite(ops)
      case None => IsAuthenticated(entries)
      case Some(op) => op == SetItem(TokenKey, TokenValue)
    decreases |ops|
  {
    if ops != [] {
      GuardAfterWrites(entries, ops[..|ops| - 1]);
    }
  }

  /**
   * The admin session: after the login write, the guard stays open through
   * any writes to other keys, and the logout removal closes it.
   */
  lemma SessionOpensAtLoginUntilLogout(entries: map<string, string>, others: seq<StoreOp>)
    requires forall i :: 0 <= i < |others| ==> others[i].key != TokenKey
    ensures IsAuthenticated(ApplyAll(entries, [SetItem(TokenKey, TokenValue)] + others))
    ensures !IsAuthenticated(ApplyAll(entries, [SetItem(TokenKey, TokenValue)] + others + [RemoveItem(TokenKey)]))
  {
    var ops := [SetItem(TokenKey, TokenValue)] + others;
    GuardAfterWrites(entries, ops);
    assert LastTokenWrite(ops) == Some(SetItem(TokenKey, TokenValue)) by {
      LastTokenWriteSkipsOthers([SetItem(TokenKey, TokenValue)], others);
    }
    var closed := ops + [RemoveItem(TokenKey)];
    assert closed[..|closed| - 1] == ops;
  }

  /** Writes to other keys appended after `prefix` do not change its last token write. */
  lemma {:induction false} LastTokenWriteSkipsOthers(prefix: seq<StoreOp>, others: seq<StoreOp>)
    requires forall i :: 0 <= i < |others| ==> others[i].key != TokenKey
    ensures LastTokenWrite(prefix + others) == LastTokenWrite(prefix)
    decreases |others|
  {
    if others != [] {
      var all := prefix + others;
      assert all[..|all| - 1] == prefix + others[..|others| - 1];
      assert all[|all| - 1] == others[|others| - 1];
      LastTokenWriteSkipsOthers(prefix, others[..|others| - 1]);
    } else {
      assert prefix + others == prefix;
    }
  }
}
