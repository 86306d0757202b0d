/**
 * The root component: decides at launch, from the stored session token,
 * whether the user is logged in, shows a spinner until it knows, and then
 * shows either the logged-in stack or the authentication stack.
 */
module App {
  import opened Wrappers
  import opened Device

  /** What the root component renders. */
  datatype Screen =
    | LoadingView   // the activity indicator
    | HomeStack     // the navigator holding the task screen
    | AuthStack     // the navigator starting at the onboarding screen

  /** `Boolean(token)` for the result of `getItem`: null and the empty
      string are falsy, every other string is truthy. */
  predicate Truthy(token: Option<string>)
    ensures token == None ==> !Truthy(token)
    ensures token == Some("") ==> !Truthy(token)
    ensures token.Some? && |token.value| > 0 ==> Truthy(token)
  {
    token.Some? && token.value != ""
  }

  /** The login flag the launch check sets when the read of the token ends
      with `read`: a failed read counts as logged out. */
  function LoginAfterCheck(storage: map<string, string>, read: Outcome): (r: bool)
    ensures r <==> read.Resolved? && TokenKey in storage && storage[TokenKey] != ""
  {
    read.Resolved? && Truthy(Lookup(storage, TokenKey))
  }

  /** The screen for a pair of flags. */
  function ScreenFor(isLoading: bool, isLogin: bool): (r: Screen)
    ensures r == LoadingView <==> isLoading
    ensures r == HomeStack <==> !isLoading && isLogin
    ensures r == AuthStack <==> !isLoading && !isLogin
  {
    if isLoading then LoadingView else if isLogin then HomeStack else AuthStack
  }

  class App {
    var isLogin: bool
    var isLoading: bool

    /** The first render: still loading, not logged in. */
    constructor ()
      ensures !isLogin && isLoading
      ensures ScreenFor(isLoading, isLogin) == LoadingView
    {
      isLogin, isLoading := false, true;
    }

    /** `checkLoginCredentials`, run once after the first render. Whatever
        the read does, loading ends. */
    method CheckLoginCredentials(dev: Device, read: Outcome)
      modifies this, dev
      ensures dev.log == old(dev.log) + [StorageGet(TokenKey)]
      ensures dev.storage == old(dev.storage)
      ensures isLogin == LoginAfterCheck(old(dev.storage), read)
      ensures !isLoading
      ensures ScreenFor(isLoading, isLogin) != LoadingView
    {
      var token := dev.GetItem(TokenKey, read);
      if read.Resolved? {
        isLogin := Truthy(token);
      } else {
        isLogin := false;
      }
      isLoading := false;
    }

    /** `signOut` of the root component: the provider's sign-out, then the
        removal of the token, then the flag; a failure of either call skips
        what follows it. */
    method SignOut(dev: Device, remote: Outcome, removal: Outcome)
      modifies this, dev
      ensures dev.log == old(dev.log) + [SignOutRequest] + (if remote.Resolved? then [StorageRemove(TokenKey)] else [])
      ensures dev.storage == if remote.Resolved? then AfterRemove(old(dev.storage), TokenKey, removal) else old(dev.storage)
      ensures isLogin == (old(isLogin) && !(remote.Resolved? && removal.Resolved?))
      ensures isLoading == old(isLoading)
    {
      dev.Emit(SignOutRequest);
      if remote.Rejected? {
        return;
      }
      dev.RemoveItem(TokenKey, removal);
      if removal.Rejected? {
        return;
      }
      isLogin := false;
    }
  }
}
