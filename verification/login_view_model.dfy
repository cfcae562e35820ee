/**
 * The login screen's state: input validation, the loading state while the
 * sign-in request is out, and the message each kind of failure is shown as.
 * The sign-in service is outside the model; its answer is an input.
 */
module LoginViewModel {
  import opened Nullable

  datatype LoginState = Idle | Loading | Success | Error(message: string)

  const InitialState: LoginState := Idle

  /** The kinds of sign-in failure the screen tells apart; `Other` keeps the exception's message. */
  datatype Failure =
    | InvalidUser
    | InvalidCredentials
    | UserCollision
    | NetworkFailure
    | Other(message: Nullable<string>)

  /** The sign-in service's answer. */
  datatype AuthOutcome = SignedIn | Failed(failure: Failure)

  const EmptyFieldsText: string := "Email i hasło nie mogą być puste"
  const InvalidUserText: string := "Użytkownik nie istnieje"
  const InvalidCredentialsText: string := "Nieprawidłowy email lub hasło"
  const CollisionText: string := "Konto już istnieje"
  const NetworkText: string := "Problem z połączeniem internetowym"
  const OtherPrefix: string := "Błąd logowania: "

  /** A null message renders as "null" in a string template. */
  function TemplateText(m: Nullable<string>): string {
    m.OrElse("null")
  }

  /** The message shown for a failure. */
  function FailureMessage(f: Failure): (text: string)
    ensures f.Other? <==> |text| >= |OtherPrefix| && text[..|OtherPrefix|] == OtherPrefix
    ensures f.Other? ==> text[|OtherPrefix|..] == TemplateText(f.message)
  {
    match f
    case InvalidUser => assert InvalidUserText[0] != OtherPrefix[0]; InvalidUserText
    case InvalidCredentials => assert InvalidCredentialsText[0] != OtherPrefix[0]; InvalidCredentialsText
    case UserCollision => assert CollisionText[0] != OtherPrefix[0]; CollisionText
    case NetworkFailure => assert NetworkText[0] != OtherPrefix[0]; NetworkText
    case Other(m) => OtherPrefix + TemplateText(m)
  }

  /**
   * Reads back which failure a message reports; the inverse of
   * `FailureMessage` (an `Other` with a null message and one with the text
   * "null" look the same).
   */
  function FailureOfMessage(text: string): Nullable<Failure> {
    if text == InvalidUserText then NonNull(InvalidUser)
    else if text == InvalidCredentialsText then NonNull(InvalidCredentials)
    else if text == CollisionText then NonNull(UserCollision)
    else if text == NetworkText then NonNull(NetworkFailure)
    else if |text| >= |OtherPrefix| && text[..|OtherPrefix|] == OtherPrefix
    then NonNull(Other(NonNull(text[|OtherPrefix|..])))
    else Null
  }

  /** Each message names its failure: the four fixed kinds are recovered exactly. */
  lemma FailureMessageRoundTrip(f: Failure)
    ensures !f.Other? ==> FailureOfMessage(FailureMessage(f)) == NonNull(f)
    ensures f.Other? ==> FailureOfMessage(FailureMessage(f)) == NonNull(Other(NonNull(TemplateText(f.message))))
  {
    var text := FailureMessage(f);
    if f.Other? {
      assert text != InvalidUserText by { assert InvalidUserText[0] != text[0]; }
      assert text != InvalidCredentialsText by { assert InvalidCredentialsText[0] != text[0]; }
      assert text != CollisionText by { assert CollisionText[0] != text[0]; }
      assert text != NetworkText by { assert NetworkText[0] != text[0]; }
    }
  }

  /** What pressing "log in" does: either an immediate verdict or a request in flight. */
  datatype Submission = Rejected(state: LoginState) | Requested(state: LoginState, email: string, password: string)

  /** `login`: empty fields are refused without asking the service; otherwise the state is `Loading`. */
  function Login(email: string, password: string): (r: Submission)
    ensures email == "" || password == "" <==> r.Rejected?
    ensures r.Rejected? ==> r.state == Error(EmptyFieldsText)
    ensures r.Requested? ==> r == Requested(Loading, email, password)
  {
    if |email| == 0 || |password| == 0 then Rejected(Error(EmptyFieldsText))
    else Requested(Loading, email, password)
  }

  /** The state once the service answers. */
  function OnAuthOutcome(outcome: AuthOutcome): (s: LoginState)
    ensures outcome.SignedIn? <==> s == Success
    ensures outcome.Failed? ==> s == Error(FailureMessage(outcome.failure))
  {
    match outcome
    case SignedIn => Success
    case Failed(f) => Error(FailureMessage(f))
  }

  /** The sequence of states one press of "log in" goes through. */
  function LoginStates(email: string, password: string, outcome: AuthOutcome): (states: seq<LoginState>)
    ensures |states| == 1 || |states| == 2
    ensures |states| == 1 <==> email == "" || password == ""
    ensures |states| == 2 ==> states[0] == Loading && states[1] == OnAuthOutcome(outcome)
  {
    match Login(email, password)
    case Rejected(s) => [s]
    case Requested(s, _, _) => [s, OnAuthOutcome(outcome)]
  }

  /** A sign-in ends in `Success` exactly when both fields are filled and the service says yes. */
  lemma LoginSucceedsIff(email: string, password: string, outcome: AuthOutcome)
    ensures var states := LoginStates(email, password, outcome);
      states[|states| - 1] == Success <==> email != "" && password != "" && outcome.SignedIn?
  {
  }

  /** `resetState`: back to idle from any state. */
  function ResetState(s: LoginState): (r: LoginState)
    ensures r == InitialState
  {
    Idle
  }
}
