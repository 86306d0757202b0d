/**
 * The sign-in screen's handler. It stores the entered credentials as the
 * session token first, whatever they are, then checks that both fields are
 * filled, then asks the authentication provider to sign in and reports the
 * result with an alert.
 */
module Signin {
  import opened Wrappers
  import opened Device
  import opened Credentials

  const SignedIn := "Signed in successfully!"

  /** The dedicated message for each rejection code sign-in knows. */
  const SigninMessages: map<string, string> := map[
    "auth/user-not-found" := "No user found with this email.",
    "auth/invalid-email" := InvalidEmailMessage,
    "auth/wrong-password" := "Incorrect password. Please try again."
  ]

  /** The alert text for a rejected sign-in: its code's own message when it
      has one, the generic message otherwise. */
  function SigninFailureMessage(code: Option<string>): (m: string)
    ensures code.Some? && code.value in SigninMessages ==> m == SigninMessages[code.value]
    ensures m == GenericFailure <==> !(code.Some? && code.value in SigninMessages)
  {
    if code == Some("auth/user-not-found") then "No user found with this email."
    else if code == Some("auth/invalid-email") then InvalidEmailMessage
    else if code == Some("auth/wrong-password") then "Incorrect password. Please try again."
    else GenericFailure
  }

  /** Each code with a dedicated message is told apart from every other
      outcome: no two codes share a message. */
  lemma SigninCodesDistinguished(a: Option<string>, b: Option<string>)
    requires a.Some? && a.value in SigninMessages
    requires SigninFailureMessage(a) == SigninFailureMessage(b)
    ensures a == b
  {
  }

  /** Everything one press of the sign-in button does, in order, when the
      sign-in request ends with `auth`. */
  function SigninEffects(email: string, password: string, auth: Outcome): (r: seq<Effect>)
    ensures |r| >= 2 && r[0] == StorageSet(TokenKey, UserToken(email, password))
    ensures SignInRequest(email, password) in r <==> email != "" && password != ""
    ensures email == "" || password == "" ==> r == [r[0], ShowAlert("Error", EmptyFields)]
    ensures Navigate("Home") in r <==> email != "" && password != "" && auth.Resolved?
    ensures ShowAlert("Success", SignedIn) in r <==> email != "" && password != "" && auth.Resolved?
    ensures email != "" && password != "" && auth.Rejected? ==>
      r[|r| - 1] == ShowAlert("Error", SigninFailureMessage(auth.code))
    ensures email != "" && password != "" ==> r[1] == SignInRequest(email, password)
  {
    var attempt :=
      if auth.Resolved? then [ShowAlert("Success", SignedIn), Navigate("Home")]
      else [ShowAlert("Error", SigninFailureMessage(auth.code))];
    [StorageSet(TokenKey, UserToken(email, password))]
      + (if email == "" || password == "" then [ShowAlert("Error", EmptyFields)]
         else [SignInRequest(email, password)] + attempt)
  }

  /** `handleSignin`. A failed write of the token is swallowed; the handler
      goes on either way. */
  method HandleSignin(dev: Device, email: string, password: string, store: Outcome, auth: Outcome)
    modifies dev
    ensures dev.log == old(dev.log) + SigninEffects(email, password, auth)
    ensures dev.storage == AfterSet(old(dev.storage), TokenKey, UserToken(email, password), store)
  {
    ghost var before := dev.log;
    var write := StorageSet(TokenKey, UserToken(email, password));
    SigninSteps(email, password, auth);
    dev.SetItem(TokenKey, UserToken(email, password), store);
    if email == "" || password == "" {
      dev.Emit(ShowAlert("Error", EmptyFields));
      Appended(before, [write], ShowAlert("Error", EmptyFields));
      return;
    }
    var request := SignInRequest(email, password);
    dev.Emit(request);
    Appended(before, [write], request);
    if auth.Resolved? {
      dev.Emit(ShowAlert("Success", SignedIn));
      Appended(before, [write] + [request], ShowAlert("Success", SignedIn));
      dev.Emit(Navigate("Home"));
      Appended(before, [write] + [request] + [ShowAlert("Success", SignedIn)], Navigate("Home"));
    } else {
      var alert := ShowAlert("Error", SigninFailureMessage(auth.code));
      dev.Emit(alert);
      Appended(before, [write] + [request], alert);
    }
  }

  /** The steps of `SigninEffects` one at a time, in the order the handler
      takes them. */
  lemma SigninSteps(email: string, password: string, auth: Outcome)
    ensures email == "" || password == "" ==>
      SigninEffects(email, password, auth)
        == [StorageSet(TokenKey, UserToken(email, password))] + [ShowAlert("Error", EmptyFields)]
    ensures email != "" && password != "" && auth.Resolved? ==>
      SigninEffects(email, password, auth)
        == [StorageSet(TokenKey, UserToken(email, password))] + [SignInRequest(email, password)]
           + [ShowAlert("Success", SignedIn)] + [Navigate("Home")]
    ensures email != "" && password != "" && auth.Rejected? ==>
      SigninEffects(email, password, auth)
        == [StorageSet(TokenKey, UserToken(email, password))] + [SignInRequest(email, password)]
           + [ShowAlert("Error", SigninFailureMessage(auth.code))]
  {
    var write := StorageSet(TokenKey, UserToken(email, password));
    var request := SignInRequest(email, password);
    if email == "" || password == "" {
      assert SigninEffects(email, password, auth) == [write, ShowAlert("Error", EmptyFields)];
    } else if auth.Resolved? {
      assert SigninEffects(email, password, auth) == [write, request, ShowAlert("Success", SignedIn), Navigate("Home")];
    } else {
      assert SigninEffects(email, password, auth) == [write, request, ShowAlert("Error", SigninFailureMessage(auth.code))];
    }
  }

  /** The shape check only decides whether the check icon shows: a filled
      e-mail that fails it is still sent to the provider. */
  lemma ShapeDoesNotGateSignin(email: string, password: string, auth: Outcome)
    requires email != "" && password != "" && !IsValidEmail(email)
    ensures SignInRequest(email, password) in SigninEffects(email, password, auth)
  {
  }

  /** Such e-mails exist: "x" fails the shape check. */
  lemma SomeEmailFailsShape()
    ensures !IsValidEmail("x")
  {
    assert !EmailShape(Trim("x"));
  }
}
