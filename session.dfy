/**
 * How the handlers of the three screens interact through the stored
 * session token across launches of the app.
 */
module Session {
  import opened Wrappers
  import opened Device
  import opened App
  import Signin
  import Signup

  /** The stored token is the serialized credentials, which is never empty:
      once its write succeeds, the next launch opens the logged-in stack,
      whether or not the sign-in itself succeeded, and even when a field
      was empty. */
  lemma AnySigninAttemptLogsIn(storage: map<string, string>, email: string, password: string, auth: Outcome)
    ensures var after := AfterSet(storage, TokenKey, UserToken(email, password), Resolved);
      && Signin.SigninEffects(email, password, auth)[0] == StorageSet(TokenKey, UserToken(email, password))
      && LoginAfterCheck(after, Resolved)
      && ScreenFor(false, LoginAfterCheck(after, Resolved)) == HomeStack
  {
  }

  /** A sign-up whose account creation is rejected has already stored the
      token, so it too logs in at the next launch. */
  lemma RejectedSignupLogsIn(storage: map<string, string>, email: string, password: string, code: Option<string>)
    requires email != "" && password != ""
    ensures Signup.SignupEffects(email, password, Resolved, Rejected(code), Resolved)[0] == StorageSet(TokenKey, UserToken(email, password))
    ensures LoginAfterCheck(AfterSet(storage, TokenKey, UserToken(email, password), Resolved), Resolved)
  {
  }

  /** A sign-up with an empty field stores nothing, so it leaves the next
      launch as it was. */
  lemma EmptySignupStoresNothing(email: string, password: string, store: Outcome, create: Outcome, profile: Outcome)
    requires email == "" || password == ""
    ensures forall e :: e in Signup.SignupEffects(email, password, store, create, profile) ==> !e.StorageSet?
  {
  }

  /** A root sign-out whose two calls succeed removes the token, so the
      next launch opens the authentication stack. */
  lemma SignOutLogsOut(storage: map<string, string>, read: Outcome)
    ensures !LoginAfterCheck(AfterRemove(storage, TokenKey, Resolved), read)
    ensures ScreenFor(false, LoginAfterCheck(AfterRemove(storage, TokenKey, Resolved), read)) == AuthStack
  {
  }
}
