# Login form core, modelled in Dafny

This project models the decision logic behind the LoginTest app's login form:

- `LoginModel.validate` sorts an optional email and an optional password into success or one of the `LoginError` reasons.
- `createHttpBody` builds the two-key request parameter map.
- `login` turns the API client's callback into a logged-in user or an error.
- `User.init?(json:)` decodes a user from a parsed JSON object.
- `LoginViewModel` derives the login button's enabled flags from the stream of (email, password) pairs and keeps the text and loading relays.

RxSwift's observables are erased. A stream is the finite sequence of the values it emits, in order. `Observable.just` and `Observable.error` become one result value, and `materialize` becomes a `Next`/`Completed`/`Error` event sequence. Everything is a pure function over immutable datatypes.

Modules, following the source files:

| file | module | source |
|---|---|---|
| wrappers.dfy | `Wrappers` | Swift `Optional` |
| json.dfy | `Json` | the `[String: Any]` mapping and `as? String` |
| api_client.dfy | `ApiClient` | `APIError`, as an error tag only |
| user.dfy | `Users` | LoginTest/Model/User.swift |
| login_model.dfy | `LoginModel` | LoginTest/Model/LoginModel.swift |
| login_view_model.dfy | `LoginViewModel` | LoginTest/ViewModel/LoginViewModel.swift |
| view_controller.dfy | `ViewController` | the button-flag binding in LoginTest/View/ViewController.swift |

`validate` names the absent field. It returns `invalidPassword` when only the password is missing and `invalidEmail` when only the email is missing. It collapses every partly empty pair of present texts into `invalidEmailAndPassword`.

## Model

| member | source | states |
|---|---|---|
| Json.StringField | LoginTest/Model/User.swift:8-14 | `json[key] as? String` yields a string exactly when the key is present and holds a string, and then it is that stored string |
| Users.Decode | LoginTest/Model/User.swift:7-16 | decoding succeeds iff `id` and `name` are both present and string-typed; on success `id` and `name` are the stored strings |
| Users.BadIdRejects | LoginTest/Model/User.swift:8-10 | a missing or non-string `id` gives nil whatever `name` holds |
| Users.BadNameRejects | LoginTest/Model/User.swift:12-14 | a missing or non-string `name` gives nil even when `id` is a valid string |
| Users.DecodeReadsOnlyIdAndName | LoginTest/Model/User.swift:7-16 | two objects that agree on the `id` and `name` entries decode alike; every other key is ignored |
| Users.DecodeEncode | LoginTest/Model/User.swift:7-16 | an object carrying a user's `id` and `name` decodes to that user, whatever extra keys it has |
| Users.EncodeDecode | LoginTest/Model/User.swift:7-16 | a decoded user accounts for exactly the `id`/`name` part of the object it came from |
| LoginModel.Emptiness | LoginTest/Model/LoginModel.swift:47 | `text?.isEmpty` is present iff the text is, and is true iff the text has length zero |
| LoginModel.Validate | LoginTest/Model/LoginModel.swift:38-60 | both absent gives `invalidEmailAndPassword`; email present and password absent gives `invalidPassword`; the reverse gives `invalidEmail`; both present with either empty gives `invalidEmailAndPassword`; success iff both are present and non-empty; never `invalidResponseData`; the inner `default` is proved unreachable |
| LoginModel.HttpBodyParams | LoginTest/Model/LoginModel.swift:62-63 | the body parameters have exactly the keys `email` and `password`, bound to the given strings unchanged |
| LoginModel.HttpBodyParamsReadBack | LoginTest/Model/LoginModel.swift:63 | reading either parameter back as a string returns the argument it was built from |
| LoginModel.LoginOutcome | LoginTest/Model/LoginModel.swift:72-86 | a failure is forwarded as the same error; a success logs in iff the mapping holds string `id` and `name`, and then the user carries those strings; otherwise the error is `invalidResponseData` |
| LoginModel.ReplyWithUserLogsIn | LoginTest/Model/LoginModel.swift:74-78 | a reply containing a user's `id` and `name` logs in exactly that user |
| LoginModel.ReplyWithoutUserIsInvalidData | LoginTest/Model/LoginModel.swift:75-79 | a reply without a string `id` or `name` is rejected with `invalidResponseData` |
| LoginViewModel.Materialize | LoginTest/ViewModel/LoginViewModel.swift:50 | a successful validation materialises to exactly a next then a completion, and a failed one to exactly its single error event |
| LoginViewModel.ButtonFlag | LoginTest/ViewModel/LoginViewModel.swift:92-99 | an event enables the button iff it is not an error: nexts and completions give `true`, errors give `false` |
| LoginViewModel.ButtonFlags | LoginTest/ViewModel/LoginViewModel.swift:90-101 | one flag per event, in order, each `false` exactly for the error events |
| LoginViewModel.PairFlagsAreValidity | LoginTest/ViewModel/LoginViewModel.swift:48-50 | every flag one pair contributes equals whether that pair validates, and there is at least one |
| LoginViewModel.FlatEventsAppend | LoginTest/ViewModel/LoginViewModel.swift:48-50 | the flattened validation events of two runs of pairs are the events of the first run followed by those of the second |
| LoginViewModel.ButtonFlagsAppend | LoginTest/ViewModel/LoginViewModel.swift:90-101 | mapping events to flags commutes with concatenation |
| LoginViewModel.ValidityEvents | LoginTest/ViewModel/LoginViewModel.swift:45-51 | fewer than two combined pairs produce no event; otherwise the stream ends with the latest pair's completion iff it validates, and with its validation error otherwise |
| LoginViewModel.IsLoginButtonEnabled | LoginTest/ViewModel/LoginViewModel.swift:90-101 | the first combined pair emits no flag; after two or more pairs the latest flag is `true` iff the latest pair validates |
| LoginViewModel.FirstPairIsSilent | LoginTest/ViewModel/LoginViewModel.swift:46-47 | the first combined pair does not influence the flags of later pairs |
| LoginViewModel.LaterPairAppendsItsValidity | LoginTest/ViewModel/LoginViewModel.swift:46-51 | each later pair keeps everything emitted so far and appends a non-empty run of flags, all equal to that pair's validity |
| LoginViewModel.SetText | LoginTest/ViewModel/LoginViewModel.swift:63-66 | the relays hold exactly the given email and password, absent values included, and the loading flag is untouched |
| LoginViewModel.SetTextLastWins | LoginTest/ViewModel/LoginViewModel.swift:63-66 | a later `setText` completely overrides an earlier one |
| LoginViewModel.TrackText | LoginTest/ViewModel/LoginViewModel.swift:53-55 | after the `setText` subscription has seen a run of pairs, the relays hold the latest pair and the loading flag is unchanged |
| LoginViewModel.LoadingStaysFalse | LoginTest/ViewModel/LoginViewModel.swift:103-105 | `loadingState` starts `false` and no text edit changes it |
| ViewController.ButtonEnabledAfter | LoginTest/View/ViewController.swift:21-45 | replaying the emitted flags into the bound button flag, which starts `false`, leaves it at the latest flag; it is `true` iff there were at least two pairs and the latest one validates |

## Left out

- RxSwift itself is not modelled: `combineLatest`, `share`, disposal, schedulers and the observer protocol. Streams are finite sequences. Inner observables emit synchronously, so `flatMap` is concatenation. Which pairs `combineLatest` produces is an input to the model.
- `LoginViewModel.login` (LoginViewModel.swift:68-84) is not modelled. It is a delayed main-queue dispatch plus an asynchronous subscription, so it is concurrency and timing. As written it passes `String?` relay values to the non-optional, throwing `createHttpBody` without `try`. It also never writes `loadingState`.
- LoginModel.LoginOutcome: states the intended either/or outcome only. As written, the success callback (LoginModel.swift:75-79) calls `onError(invalidResponseData)` even after emitting a user and completing. That error is dropped only because an Rx observable ignores events after completion, and observer ordering is not simulated here.
- LoginModel.HttpBodyParams: models the parameter map only. The `JSONSerialization` encoding to bytes and its rethrown error (LoginModel.swift:64-69) belong to a foreign library.
- The HTTP client (APIClient.swift) is not modelled: URL checks, the request, the 10-second timeout and response parsing are I/O. Only `APIError` is kept, as a tag an error can carry.
- `LoginError.description` (LoginModel.swift:10-21) is not modelled: it returns the empty string for every case.
- The `LoginModel` initialiser and the injected API client are not modelled. The gateway's result is an input to `LoginOutcome`.
- JSON numbers are integers here, not floating point. No decoder reads a number.
- UIKit binding, colours and outlets (ViewController.swift, Extension.swift) are not modelled. The one exception is the value the login-button flag holds.
