# Styloza to-do app: a verified model of its core

Styloza is a React Native to-do app backed by Firebase Auth, Firestore and
AsyncStorage. This project models the parts of it that follow a rule:

- **The task screen** (`screens/Home.js`):
  - the filtered list it renders: a status and a priority test, then a stable sort by due date;
  - the local delete;
  - the add form's guard and reset;
  - its sign-out.
- **The sign-in and sign-up handlers** (`Auth/Signin.js`, `Auth/Signup.js`):
  - the order of their steps;
  - how they turn an error code into an alert;
  - the `isValidEmail` shape check behind the green check icon.
- **The root component** (`App.tsx`):
  - how it turns the stored `usertoken` into its `isLoading`/`isLogin` flags;
  - its sign-out;
  - its choice between the spinner, the logged-in stack and the authentication stack.

Every call to storage, the authentication provider or the document database
is modelled the same way. It resolves or rejects with an optional error code,
and which of the two happens is a parameter (`Device.Outcome`). Each call also
appends an `Effect` to the device's log (`Device.Device.log`). The log records
alerts and navigation too, so the order of every handler's steps is part of
its contract. The key-value store is a `map<string, string>` that the storage
methods update.

Modules:

| module | file | contents |
|---|---|---|
| `Wrappers` | wrappers.dfy | `Option` |
| `Device` | device.dfy | outcomes, effects, `Device` class with store and log, `JSON.stringify` of the token |
| `Tasks` | tasks.dfy | `Task`, filter tests, generic `Filter`, stable insertion sort, the view, the local delete |
| `Home` | home.dfy | class `HomeScreen`: task list, form fields, filter, handlers |
| `Credentials` | credentials.dfy | JavaScript whitespace, `trim`, the e-mail pattern, shared alert texts |
| `Signin` | signin.dfy | `handleSignin` and its error messages |
| `Signup` | signup.dfy | `handleSignup` and its error messages |
| `App` | app.dfy | class `App`: the launch check, sign-out, the screen choice |
| `Session` | session.dfy | how the handlers interact through the stored token across launches |

The JavaScript sort uses the comparator `new Date(a.dueDate) - new Date(b.dueDate)`.
In the model `dueDate` is an integer timestamp and the sort is an insertion
sort. Section 23.1.3.30 of ECMA-262 requires `Array.prototype.sort` to be
stable. `Tasks.StableSortUnique` proves that only one sequence is both sorted by
due date and keeps the order of each group of equal due dates. So the model's
sort gives the same list as any engine's stable sort.

A few places where the code behaves differently from what a reader might expect:

- The guard of `addTask` also tests `!dueDate`. But `dueDate` always holds a
  `Date` object, which is truthy, so only an empty title or description can
  fail the guard.
- `completed` is never set, so every added task has `completed` false.
- The sign-in handler stores the token before it checks the fields. The token
  is JSON text and so never empty. As a result, any attempt whose storage write
  succeeds makes the next launch open the logged-in stack: an empty field, a
  wrong password or a failed account creation all do this. `Session` states
  this.
- The task screen's `signOut` changes only the task screen's own `isLogin`. The
  root component's flag is not changed.

## Model

| member | source | states |
|---|---|---|
| `Tasks.Filter` | screens/Home.js:68-71 | `Array.prototype.filter`: the passing elements in their order, never more than the input (membership and counts are stated by `FilterHas` and `FilterCount`) |
| `Tasks.StatusPasses` | screens/Home.js:69 | "all" passes every task; "completed" and "incomplete" pass exactly the tasks whose flag is set, respectively clear; any other status passes none |
| `Tasks.PriorityPasses` | screens/Home.js:70 | "all" passes every task; any other value passes exactly the tasks with that exact priority |
| `Tasks.Matches` | screens/Home.js:68-71 | the filter callback keeps a task iff it passes both tests. The default filter ("all", "all") keeps every task. A status other than "all", "completed" or "incomplete" keeps none. A kept task has the chosen priority unless that is "all" |
| `Tasks.FilterHas` | screens/Home.js:68-71 | `filter` keeps an element exactly when it occurs in the list and passes the test |
| `Tasks.FilterCount` | screens/Home.js:68-71 | `filter` keeps every passing element as often as it occurs and drops every other |
| `Tasks.FilterAppend` | screens/Home.js:68-71 | filtering a concatenation is concatenating the filtered parts |
| `Tasks.FilterKeepsAll` | screens/Home.js:68-71 | filtering with a test every element passes returns the list unchanged |
| `Tasks.Insert` | screens/Home.js:72 | inserting a task adds exactly that task to the multiset of tasks |
| `Tasks.InsertSorted` | screens/Home.js:72 | inserting into a list sorted by due date keeps it sorted |
| `Tasks.SortByDueDate` | screens/Home.js:72 | the sort returns a list sorted non-decreasingly by due date that is a permutation of its input |
| `Tasks.InsertByDue` | screens/Home.js:72 | an inserted task goes in front of the tasks with its own due date, and every other group of equal due dates is unchanged |
| `Tasks.SortIsStable` | screens/Home.js:72 | for every due date, the tasks due then keep their relative order through the sort |
| `Tasks.StableSortUnique` | screens/Home.js:72 | two lists that are both sorted by due date and have the same tasks in the same order for each due date are equal |
| `Tasks.FilteredTasks` | screens/Home.js:68-72 | the view is sorted by due date, is a permutation of the tasks passing both tests, and holds a task iff it is in the list and passes the status test and the priority test |
| `Tasks.ViewIsStable` | screens/Home.js:68-72 | tasks of the view with equal due dates are in their order in the task list |
| `Tasks.ViewIsTheStableSort` | screens/Home.js:68-72 | any sorted list that keeps the per-due-date order of the kept tasks is the view, whatever stable sort produced it |
| `Tasks.ShowAllIsPermutation` | screens/Home.js:17 | with the initial filter (`all`/`all`) the view is a permutation of the whole task list |
| `Tasks.RemoveTask` | screens/Home.js:53 | the local delete keeps a task iff its id differs from the deleted id, and together with the tasks carrying that id it makes up the old list |
| `Tasks.RemoveUnknownId` | screens/Home.js:53 | deleting an id that no task carries leaves the list unchanged |
| `Tasks.RemoveTwice` | screens/Home.js:53 | deleting the same id twice is the same as deleting it once |
| `Tasks.RemoveKeepsOrder` | screens/Home.js:53 | the delete preserves the order of the survivors: deleting from a concatenation is deleting from each part |
| `Device.Lookup` | App.tsx:24 | `getItem` returns the stored string exactly when the key is present, and null otherwise |
| `Device.AfterSet` | Auth/Signin.js:45 | a resolved `setItem` stores the value under the key; a rejected one changes nothing; other keys are never affected |
| `Device.AfterRemove` | App.tsx:41 | a resolved `removeItem` deletes the key; a rejected one changes nothing; other keys are never affected |
| `Device.EscapeChar` | Auth/Signin.js:45 | `JSON.stringify`'s quoting of one character: the character itself or a backslash sequence, never a control character |
| `Device.Escape` | Auth/Signin.js:45 | the quoted text of a string holds no control character |
| `Device.EscapeRoundTrip` | Auth/Signin.js:45 | the quoting loses nothing. A JSON literal reader given the quoted text, a closing quote and any further text returns the original string and exactly that further text |
| `Device.TokenRoundTrip` | Auth/Signin.js:45 | reading the stored token back as a `{email, password}` record gives the very credentials it was made from |
| `Device.UserTokenInjective` | Auth/Signin.js:45 | two tokens are equal only if both the e-mails and the passwords are equal |
| `Device.UserToken` | Auth/Signin.js:36-45 | the stored token, `JSON.stringify({ email, password })`, is never empty |
| `Device.Device.Emit` | Auth/Signin.js:58-66 | an auth or database request, an alert or a navigation is logged and leaves the store alone. It accepts no storage call, which must go through the store's own methods |
| `Device.Device.SetItem` | Auth/Signin.js:45 | `setItem` is logged and updates the store as `AfterSet` says |
| `Device.Device.GetItem` | App.tsx:24 | `getItem` is logged, leaves the store alone, and yields the stored value when it resolves |
| `Device.Device.RemoveItem` | App.tsx:41 | `removeItem` is logged and updates the store as `AfterRemove` says |
| `Home.HomeScreen.constructor` | screens/Home.js:11-19 | the screen starts with no tasks, an empty form, the due date at the current time, priority "low", the `all`/`all` filter and `isLogin` false |
| `Home.HomeScreen.View` | screens/Home.js:68-72 | the rendered list is sorted by due date and holds exactly the tasks passing the current filter |
| `Home.HomeScreen.EditTitle` | screens/Home.js:91 | typing sets the title and nothing else |
| `Home.HomeScreen.EditDescription` | screens/Home.js:99 | typing sets the description and nothing else |
| `Home.HomeScreen.PickDueDate` | screens/Home.js:119-122 | confirming a date sets the due date and nothing else |
| `Home.HomeScreen.PickPriority` | screens/Home.js:129-139 | a priority button sets one of the three levels and nothing else |
| `Home.HomeScreen.PickStatusFilter` | screens/Home.js:150 | a status button replaces the filter's status and keeps its priority |
| `Home.HomeScreen.PickPriorityFilter` | screens/Home.js:163 | a priority filter button replaces the filter's priority and keeps its status |
| `Home.HomeScreen.ReceiveTasks` | screens/Home.js:26 | a completed fetch replaces the task list and nothing else |
| `Home.HomeScreen.AddTask` | screens/Home.js:32-48 | an empty title or description gives the alert and nothing else. Otherwise exactly one remote add of the form's fields with `completed` false. Only after it resolves are title and description cleared, the due date reset to now and the priority to "low". A rejection leaves the form as it was. The local list never changes |
| `Home.HomeScreen.DeleteTask` | screens/Home.js:51-54 | the remote delete is made first. Only when it resolves does the list become the old list without the tasks of that id. Nothing else changes |
| `Home.HomeScreen.SignOut` | screens/Home.js:57-65 | the remote sign-out comes first. Only after it resolves is the token removed, and only after both resolve is the screen's flag cleared. Tasks and form are untouched |
| `Credentials.Lead` | Auth/Signin.js:85 | counts the whitespace a string starts with: every character before the count is whitespace and the one at the count is not |
| `Credentials.Trail` | Auth/Signin.js:85 | counts the whitespace a string ends with: every character in that tail is whitespace and the one before it is not |
| `Credentials.Trim` | Auth/Signin.js:85 | `trim` returns the slice after the leading whitespace. Every character cut off on either side is whitespace, and the result neither starts nor ends with whitespace |
| `Credentials.FirstIndex` | Auth/Signin.js:85 | the index of the first occurrence of a character, or the length when there is none |
| `Credentials.PatternGivesShape` | Auth/Signin.js:85 | a string the pattern accepts has no whitespace, exactly one '@' with something before it, and a '.' strictly inside the part after it |
| `Credentials.ShapeGivesPattern` | Auth/Signin.js:85 | every string of that shape is accepted by the pattern |
| `Credentials.IsValidEmail` | Auth/Signup.js:96-97 | `isValidEmail(s)` holds iff `trim(s)` has no whitespace, exactly one '@' that is not its first character, and a '.' after the '@' that is neither the first nor the last character of the part after the '@' |
| `Signin.SigninFailureMessage` | Auth/Signin.js:67-82 | each of the three known codes gets its own message, and the generic message appears exactly for every other outcome |
| `Signin.SigninCodesDistinguished` | Auth/Signin.js:69-81 | no outcome shares its message with a known code |
| `Signin.SigninEffects` | Auth/Signin.js:29-83 | the token write always comes first. An empty field gives only the error alert and no sign-in request. With both fields filled, the sign-in request follows. The success alert and the navigation to "Home" happen iff both fields are filled and sign-in resolves. A rejection ends with the alert for its code |
| `Signin.HandleSignin` | Auth/Signin.js:29-83 | the handler performs exactly those steps, and the store changes only by the token write, whose failure is swallowed |
| `Signin.ShapeDoesNotGateSignin` | Auth/Signin.js:53-58 | for every filled e-mail and password, an e-mail that fails the shape check is still sent to the provider |
| `Signin.SomeEmailFailsShape` | Auth/Signin.js:85 | such e-mails exist: "x" fails the shape check |
| `Signup.SignupFailureMessage` | Auth/Signup.js:74-90 | each of the three known codes gets its own message, and the generic message appears exactly for every other failure |
| `Signup.SignupCodesDistinguished` | Auth/Signup.js:74-90 | no failure shares its message with a known code |
| `Signup.SignupEffects` | Auth/Signup.js:29-92 | an empty field gives only the error alert, before any storage write. Otherwise the token write comes first. Account creation happens iff that write resolves, and the profile write iff creation also resolves. The handler shows exactly one alert, as its last step. It is the success alert iff all three steps resolve, and otherwise the alert for the code of the first failure |
| `Signup.HandleSignup` | Auth/Signup.js:29-92 | the handler performs exactly those steps; the store changes only by the token write, and not at all when a field is empty |
| `Signup.SignupAsWritten` | Auth/Signup.js:59-69 | as written, no profile write is ever made and the success alert never appears. A sign-up whose token write and creation succeed is exactly the token write, the creation request and the generic error alert |
| `Signup.AsWrittenAgreesBeforeProfile` | Auth/Signup.js:35-58 | until the profile write is reached (an empty field, a failed token write, a failed creation), the handler as written and the corrected one take the same steps |
| `Signup.AsWrittenSkipsProfile` | Auth/Signup.js:59-69 | past that point the corrected handler makes the profile write as its third step, and the one as written replaces the profile write and what follows by the generic error alert |
| `App.Truthy` | App.tsx:25 | `Boolean(token)` for a string or null: null and the empty string are false, every other string is true |
| `App.LoginAfterCheck` | App.tsx:21-31 | after the launch check the flag is true iff the read resolved and the stored token is present and non-empty |
| `App.ScreenFor` | App.tsx:48-83 | the spinner shows iff loading; otherwise the logged-in stack iff `isLogin` and the authentication stack iff not |
| `App.App.constructor` | App.tsx:18-19 | the app starts loading and logged out, on the spinner |
| `App.App.CheckLoginCredentials` | App.tsx:21-35 | one read of the token, no change to the store. Afterwards the flag is `LoginAfterCheck` and loading is over on every outcome |
| `App.App.SignOut` | App.tsx:38-46 | the remote sign-out comes first. Only after it resolves is the token removal made, and only after both resolve is `isLogin` cleared. Otherwise the flag is unchanged |
| `Session.AnySigninAttemptLogsIn` | Auth/Signin.js:36-57 | whatever the fields and whatever the sign-in outcome, a sign-in attempt whose token write resolves makes the next launch open the logged-in stack when the launch read resolves |
| `Session.RejectedSignupLogsIn` | Auth/Signup.js:48-53 | a sign-up whose account creation is rejected has already stored the token, so the next launch logs in when the launch read resolves |
| `Session.EmptySignupStoresNothing` | Auth/Signup.js:35-39 | a sign-up with an empty field writes nothing to storage |
| `Session.SignOutLogsOut` | App.tsx:38-46 | after a sign-out whose two calls resolve, the next launch opens the authentication stack |

## Findings

| source | as written | input that shows it | evidently intended | confidence | as-written member | corrected member |
|---|---|---|---|---|---|---|
| Auth/Signup.js:59-65 | the profile write calls `firestore()`, but the file never imports `firestore` (Auth/Signup.js:1-17), so the call throws a reference error that has no `code` | any non-empty e-mail and password whose token write and account creation both succeed: the handler ends with "Something went wrong. Please try again." | the profile document is written and "Account created and signed in!" is shown | high; not executed | `Signup.SignupAsWritten` | `Signup.SignupEffects` |

`Signup.HandleSignup` and `Signup.SignupEffects` take the profile write's
outcome as a parameter: they are the corrected handler, with the database
module in scope. The handler as written, `Signup.SignupAsWritten`, never
reaches the database. Evaluating the unbound name throws first, so its steps
have no profile write, and the catch shows the generic message.

## Left out

- Firebase Auth, Firestore and AsyncStorage are external. Their results are
  parameters, with an optional error code. Users, sessions and the task
  collection on the server are not modelled.
- The fetch effect (screens/Home.js:22-29) re-runs whenever `tasks` changes,
  which is a React scheduling loop. Only its last step is modelled:
  `ReceiveTasks` replaces the list.
- `toggleCompletion` (screens/Home.js:186) is never defined, so there is no
  behaviour to model.
- The profile document's id (`userCredential.user.uid`) and its
  `serverTimestamp` field are not modelled: the effect records only the e-mail.
- `Home.HomeScreen.AddTask`: the `!dueDate` test is not modelled, because the
  due-date state always holds a truthy `Date`. Likewise `toISOString` and the
  `Date` subtraction of the sort comparator, since due dates are integers here.
  An invalid date, which would make the comparator return `NaN`, is not modelled.
- `Credentials.IsValidEmail` restates the regular expression as a string
  predicate; no regular-expression engine is modelled. Strings are sequences of
  Unicode scalar values rather than JavaScript's UTF-16 code units, so lone
  surrogates, and how `JSON.stringify` escapes them, are not modelled. The
  literal reader `Device.ReadLiteral` likewise refuses a `\u` escape of a lone
  surrogate.
- `Signin.HandleSignin`: the sign-in promise is not awaited, so its alert and
  navigation happen later than the handler's return. The model appends them to
  the log in the same call, in their order. Other events in between are not
  modelled.
- Two presses of a button racing each other, and stale closures over state,
  are not modelled. Each handler runs to completion alone.
- JSX rendering, styles, icons, the date picker itself and console logging are
  not modelled.
- screens/OnBoarding.js (static content and one navigation) and Main.tsx (a
  tab navigator) are not part of this model.
- The button that calls the root component's `signOut` belongs to a screen
  whose header is hidden. Whether a user can reach it is not modelled; its
  handler is.
