/** `LoginModel`: credential validation, the request-body parameters and the
    mapping of the gateway's callback to a login outcome. The Rx wrappers
    (`Observable.just`, `Observable.error`, `Observable.create`) are erased:
    each operation returns the single value or error its observable carries. */
module LoginModel {
  import opened Wrappers
  import opened Json
  import opened Users
  import opened ApiClient

  /** `LoginError`. */
  datatype LoginError = InvalidEmail | InvalidPassword | InvalidEmailAndPassword | InvalidResponseData

  /** Any `Error` an observer can receive: one of the model's own, one of the
      HTTP client's, or a transport error that the login model only forwards. */
  datatype Error =
    | Login(reason: LoginError)
    | Api(kind: ApiError)
    | Transport(detail: string)

  /** What `validate` emits: `just(())` or `error(reason)`. */
  datatype Validation = Valid | Invalid(reason: LoginError)

  /** `text?.isEmpty`: optional chaining yields nothing for an absent text. */
  function Emptiness(text: Option<string>): (r: Option<bool>)
    ensures r.Some? <==> text.Some?
    ensures r.Some? ==> (r.value <==> |text.value| == 0)
  {
    match text
    case None => None
    case Some(t) => Some(|t| == 0)
  }

  /** `validate(email:password:)`, case for case in the order the source
      lists them. The inner `default` is unreachable: it is entered only with
      both texts present, so both emptiness flags are present, and the four
      explicit cases cover every pair of flags; the `assert false` there is
      proved. */
  function Validate(email: Option<string>, password: Option<string>): (r: Validation)
    // both absent
    ensures email.None? && password.None? ==> r == Invalid(InvalidEmailAndPassword)
    // exactly one absent: the reason names the absent field
    ensures email.Some? && password.None? ==> r == Invalid(InvalidPassword)
    ensures email.None? && password.Some? ==> r == Invalid(InvalidEmail)
    // both present, at least one empty
    ensures (email.Some? && password.Some? && (|email.value| == 0 || |password.value| == 0))
            ==> r == Invalid(InvalidEmailAndPassword)
    // success exactly when both are present and non-empty
    ensures r == Valid <==> email.Some? && password.Some? && |email.value| > 0 && |password.value| > 0
    // never a response-data error
    ensures r != Invalid(InvalidResponseData)
  {
    match (email, password)
    case (None, None) => Invalid(InvalidEmailAndPassword)
    case (Some(_), None) => Invalid(InvalidPassword)
    case (None, Some(_)) => Invalid(InvalidEmail)
    case (mailText, passwordText) =>
      match (Emptiness(mailText), Emptiness(passwordText))
      case (Some(true), Some(true)) => Invalid(InvalidEmailAndPassword)
      case (Some(false), Some(true)) => Invalid(InvalidEmailAndPassword)
      case (Some(true), Some(false)) => Invalid(InvalidEmailAndPassword)
      case (Some(false), Some(false)) => Valid
      case _ => assert false; Invalid(InvalidEmailAndPassword)
  }

  /** The parameters `createHttpBody` serialises. Serialisation to bytes is not modelled. */
  function HttpBodyParams(email: string, password: string): (params: JsonObject)
    ensures params.Keys == {"email", "password"}
    ensures params["email"] == JStr(email) && params["password"] == JStr(password)
  {
    map["email" := JStr(email), "password" := JStr(password)]
  }

  /** What the gateway hands to `login`'s callbacks: the parsed success mapping, or an error. */
  datatype GatewayResult = Delivered(json: JsonObject) | Failed(error: Error)

  /** The terminal outcome of one login attempt. */
  datatype Outcome = LoggedIn(user: User) | Rejected(error: Error)

  /** `login(data:)`: the success callback decodes a `User` and emits it, or
      emits `invalidResponseData` when decoding fails; the failure callback
      forwards its error. Only the intended either/or outcome is modelled; the
      error the source also raises after a user (see README) is not. */
  function LoginOutcome(g: GatewayResult): (o: Outcome)
    ensures g.Failed? ==> o == Rejected(g.error)
    ensures g.Delivered? ==>
              (o.LoggedIn? <==> StringField(g.json, IdKey).Some? && StringField(g.json, NameKey).Some?)
    ensures g.Delivered? && o.LoggedIn? ==>
              g.json[IdKey] == JStr(o.user.id) && g.json[NameKey] == JStr(o.user.name)
    ensures g.Delivered? && o.Rejected? ==> o.error == Login(InvalidResponseData)
  {
    match g
    case Failed(e) => Rejected(e)
    case Delivered(json) =>
      match Decode(json)
      case Some(user) => LoggedIn(user)
      case None => Rejected(Login(InvalidResponseData))
  }

  /** The parameter map is read back, through the same downcast the decoders use, as the two given strings. */
  lemma HttpBodyParamsReadBack(email: string, password: string)
    ensures StringField(HttpBodyParams(email, password), "email") == Some(email)
    ensures StringField(HttpBodyParams(email, password), "password") == Some(password)
  {
  }

  /** A server reply carrying a user's `id` and `name`, among any other keys, logs that user in. */
  lemma ReplyWithUserLogsIn(u: User, extra: JsonObject)
    ensures LoginOutcome(Delivered(extra + Encode(u))) == LoggedIn(u)
  {
  }

  /** A reply lacking a string `id` or `name` never logs in, whatever else it carries. */
  lemma ReplyWithoutUserIsInvalidData(json: JsonObject)
    requires StringField(json, IdKey).None? || StringField(json, NameKey).None?
    ensures LoginOutcome(Delivered(json)) == Rejected(Login(InvalidResponseData))
  {
  }
}
