/**
 * The sign-up screen's handler. It checks that both fields are filled,
 * stores the credentials as the session token, creates the account, writes
 * the user's profile document, and reports success; the first step that
 * fails ends the handler with an alert chosen by the failure's code.
 */
module Signup {
  import opened Wrappers
  import opened Device
  import opened Credentials

  const AccountCreated := "Account created and signed in!"

  /** The dedicated message for each rejection code sign-up knows. */
  const SignupMessages: map<string, string> := map[
    "auth/email-already-in-use" := "That email address is already in use!",
    "auth/invalid-email" := InvalidEmailMessage,
    "auth/weak-password" := "The password is too weak! It must be at least 6 characters long."
  ]

  /** The alert text for a failed step: its code's own message when it has
      one, the generic message otherwise. */
  function SignupFailureMessage(code: Option<string>): (m: string)
    ensures code.Some? && code.value in SignupMessages ==> m == SignupMessages[code.value]
    ensures m == GenericFailure <==> !(code.Some? && code.value in SignupMessages)
  {
    if code == Some("auth/email-already-in-use") then "That email address is already in use!"
    else if code == Some("auth/invalid-email") then InvalidEmailMessage
    else if code == Some("auth/weak-password") then "The password is too weak! It must be at least 6 characters long."
    else GenericFailure
  }

  /** Each code with a dedicated message is told apart from every other
      failure: no two codes share a message. */
  lemma SignupCodesDistinguished(a: Option<string>, b: Option<string>)
    requires a.Some? && a.value in SignupMessages
    requires SignupFailureMessage(a) == SignupFailureMessage(b)
    ensures a == b
  {
  }

  /** The error alert for a rejected step. */
  function Failed(o: Outcome): (alert: Effect)
    requires o.Rejected?
  {
    ShowAlert("Error", SignupFailureMessage(o.code))
  }

  /** Everything one press of the sign-up button does, in order, when the
      token write ends with `store`, the account creation with `create`
      and the profile write with `profile`. */
  function SignupEffects(email: string, password: string, store: Outcome, create: Outcome, profile: Outcome): (r: seq<Effect>)
    ensures |r| > 0 && r[|r| - 1].ShowAlert?
    ensures forall k :: 0 <= k < |r| - 1 ==> !r[k].ShowAlert?
    ensures email == "" || password == "" ==> r == [ShowAlert("Error", EmptyFields)]
    ensures email != "" && password != "" ==> r[0] == StorageSet(TokenKey, UserToken(email, password))
    ensures CreateUserRequest(email, password) in r <==> email != "" && password != "" && store.Resolved?
    ensures ProfileWrite(email) in r <==> email != "" && password != "" && store.Resolved? && create.Resolved?
    ensures r[|r| - 1] == ShowAlert("Success", AccountCreated) <==>
      email != "" && password != "" && store.Resolved? && create.Resolved? && profile.Resolved?
    ensures email != "" && password != "" && store.Rejected? ==> r[|r| - 1] == Failed(store)
    ensures email != "" && password != "" && store.Resolved? && create.Rejected? ==> r[|r| - 1] == Failed(create)
    ensures email != "" && password != "" && store.Resolved? && create.Resolved? && profile.Rejected? ==>
      r[|r| - 1] == Failed(profile)
  {
    if email == "" || password == "" then [ShowAlert("Error", EmptyFields)]
    else
      var afterCreate :=
        if create.Rejected? then [Failed(create)]
        else [ProfileWrite(email)] + (if profile.Rejected? then [Failed(profile)] else [ShowAlert("Success", AccountCreated)]);
      var afterStore :=
        if store.Rejected? then [Failed(store)]
        else [CreateUserRequest(email, password)] + afterCreate;
      [StorageSet(TokenKey, UserToken(email, password))] + afterStore
  }

  /** `handleSignup`. */
  method HandleSignup(dev: Device, email: string, password: string, store: Outcome, create: Outcome, profile: Outcome)
    modifies dev
    ensures dev.log == old(dev.log) + SignupEffects(email, password, store, create, profile)
    ensures dev.storage == if email == "" || password == "" then old(dev.storage)
      else AfterSet(old(dev.storage), TokenKey, UserToken(email, password), store)
  {
    ghost var before := dev.log;
    var write := StorageSet(TokenKey, UserToken(email, password));
    var request := CreateUserRequest(email, password);
    SignupSteps(email, password, store, create, profile);
    if email == "" || password == "" {
      dev.Emit(ShowAlert("Error", EmptyFields));
      return;
    }
    dev.SetItem(TokenKey, UserToken(email, password), store);
    if store.Rejected? {
      dev.Emit(Failed(store));
      Appended(before, [write], Failed(store));
      return;
    }
    dev.Emit(request);
    Appended(before, [write], request);
    if create.Rejected? {
      dev.Emit(Failed(create));
      Appended(before, [write] + [request], Failed(create));
      return;
    }
    dev.Emit(ProfileWrite(email));
    Appended(before, [write] + [request], ProfileWrite(email));
    if profile.Rejected? {
      dev.Emit(Failed(profile));
      Appended(before, [write] + [request] + [ProfileWrite(email)], Failed(profile));
      return;
    }
    dev.Emit(ShowAlert("Success", AccountCreated));
    Appended(before, [write] + [request] + [ProfileWrite(email)], ShowAlert("Success", AccountCreated));
  }

  /** The steps of `SignupEffects` one at a time, in the order the handler
      takes them. */
  lemma SignupSteps(email: string, password: string, store: Outcome, create: Outcome, profile: Outcome)
    ensures var write := StorageSet(TokenKey, UserToken(email, password));
      var request := CreateUserRequest(email, password);
      var effects := SignupEffects(email, password, store, create, profile);
      && (email == "" || password == "" ==> effects == [ShowAlert("Error", EmptyFields)])
      && (email != "" && password != "" ==>
        && (store.Rejected? ==> effects == [write] + [Failed(store)])
        && (store.Resolved? && create.Rejected? ==> effects == [write] + [request] + [Failed(create)])
        && (store.Resolved? && create.Resolved? && profile.Rejected? ==>
              effects == [write] + [request] + [ProfileWrite(email)] + [Failed(profile)])
        && (store.Resolved? && create.Resolved? && profile.Resolved? ==>
              effects == [write] + [request] + [ProfileWrite(email)] + [ShowAlert("Success", AccountCreated)]))
  {
  }

  /** The profile write names a database module the screen never imports,
      so evaluating that name throws a reference error before any database
      call is made, and the error has no `code`. This is the handler as
      written: no profile write ever happens, the success alert can never
      appear, and a sign-up whose earlier steps all succeed ends with the
      generic failure message. */
  function SignupAsWritten(email: string, password: string, store: Outcome, create: Outcome): (r: seq<Effect>)
    ensures forall e :: e in r ==> !e.ProfileWrite?
    ensures ShowAlert("Success", AccountCreated) !in r
    ensures email != "" && password != "" && store.Resolved? && create.Resolved? ==>
      r == [StorageSet(TokenKey, UserToken(email, password)), CreateUserRequest(email, password),
            ShowAlert("Error", GenericFailure)]
  {
    if email == "" || password == "" then [ShowAlert("Error", EmptyFields)]
    else
      var afterCreate := if create.Rejected? then [Failed(create)] else [Failed(Rejected(None))];
      var afterStore := if store.Rejected? then [Failed(store)] else [CreateUserRequest(email, password)] + afterCreate;
      [StorageSet(TokenKey, UserToken(email, password))] + afterStore
  }

  /** Up to the profile write the handler as written and the corrected one
      take the same steps, whatever the profile write would do. */
  lemma AsWrittenAgreesBeforeProfile(email: string, password: string, store: Outcome, create: Outcome, profile: Outcome)
    requires email == "" || password == "" || store.Rejected? || create.Rejected?
    ensures SignupAsWritten(email, password, store, create) == SignupEffects(email, password, store, create, profile)
  {
  }

  /** Where the two differ, the as-written handler lacks the profile write and
      ends with the generic failure instead of the corrected outcome. */
  lemma AsWrittenSkipsProfile(email: string, password: string, profile: Outcome)
    requires email != "" && password != ""
    ensures var fixed := SignupEffects(email, password, Resolved, Resolved, profile);
      && |fixed| == 4 && fixed[2] == ProfileWrite(email)
      && SignupAsWritten(email, password, Resolved, Resolved) == fixed[..2] + [ShowAlert("Error", GenericFailure)]
  {
  }
}
