/**
 `LoginViewModel.kt`: credential validation, the mapping from the server's
 answer to the screen state, and the classification of network failures.

 Each operation takes the repository's behaviour as an input (`Call`) and
 returns the view model's final state together with the request it made, if
 any. The transient `Loading` state set before the request is not kept.
 */
module LoginViewModel {
  import opened Basics
  import opened Domain

  const InvalidCredentials: string := "Неправильный логин или пароль"
  const LoginLettersOnly: string := "Логин должен содержать только английские буквы."
  const PasswordDigitsOnly: string := "Пароль должен содержать только цифры."
  const ServerUnavailable: string := "Сервер недоступен. Проверьте подключение к интернету."
  const ResponseTimeout: string := "Превышено время ожидания ответа от сервера."
  const NetworkTrouble: string := "Ошибка сети. Проверьте подключение."
  const NetworkErrorPrefix: string := "Ошибка сети: "

  const LoginSuccess: string := "LOGIN_SUCCESS"
  const RegisterSuccess: string := "REGISTER_SUCCESS"

  predicate IsAsciiLetter(c: char) {
    ('a' <= c <= 'z') || ('A' <= c <= 'Z')
  }

  predicate IsAsciiDigit(c: char) {
    '0' <= c <= '9'
  }

  /** `loginRegex.matches(s)` for `^[a-zA-Z]+$`: one or more ASCII letters and nothing else. */
  predicate LoginMatches(s: string) {
    |s| > 0 && forall i | 0 <= i < |s| :: IsAsciiLetter(s[i])
  }

  /** `passwordRegex.matches(s)` for `^[0-9]+$`: one or more ASCII digits and nothing else. */
  predicate PasswordMatches(s: string) {
    |s| > 0 && forall i | 0 <= i < |s| :: IsAsciiDigit(s[i])
  }

  /** No string is both a valid login and a valid password. */
  lemma LoginAndPasswordDisjoint(s: string)
    ensures !(LoginMatches(s) && PasswordMatches(s))
  {
    if |s| > 0 {
      assert !(IsAsciiLetter(s[0]) && IsAsciiDigit(s[0]));
    }
  }

  /** Valid logins are closed under concatenation; so are valid passwords. */
  lemma {:induction false} CredentialsConcatenate(a: string, b: string)
    ensures LoginMatches(a) && LoginMatches(b) ==> LoginMatches(a + b)
    ensures PasswordMatches(a) && PasswordMatches(b) ==> PasswordMatches(a + b)
  {
    forall i | |a| <= i < |a + b|
      ensures (a + b)[i] == b[i - |a|]
    {
    }
  }

  /** The view model's observable fields. */
  datatype LoginVm = LoginVm(state: State, authResult: Option<AuthResponse>)

  /** The `/auth` request body: action, login, password. */
  datatype AuthRequest = AuthRequest(action: string, login: string, password: string)

  /** The result of one operation: the final fields and the request made, if any. */
  datatype LoginStep = LoginStep(vm: LoginVm, request: Option<AuthRequest>)

  function InitialLoginVm(): LoginVm {
    LoginVm(Empty, None)
  }

  /** `checkLogin` with the repository behaving as `reply` (consulted only if a request is made). */
  function CheckLogin(vm: LoginVm, login: string, password: string, reply: Call<AuthResponse>): (r: LoginStep)
    ensures !(LoginMatches(login) && PasswordMatches(password)) ==>
      r == LoginStep(vm.(state := Error(InvalidCredentials)), None)
    ensures LoginMatches(login) && PasswordMatches(password) ==>
      r.request == Some(AuthRequest("login", login, password))
    ensures r.request.Some? && reply.Returned? ==>
      && r.vm.authResult == Some(reply.value)
      && (r.vm.state == Success <==> reply.value.status == LoginSuccess)
      && (r.vm.state != Success ==> r.vm.state == Error(reply.value.message))
    ensures r.request.Some? && reply.Threw? ==>
      r.vm == vm.(state := Error(NetworkErrorPrefix + Describe(reply.reason)))
  {
    if LoginMatches(login) && PasswordMatches(password) then
      var request := Some(AuthRequest("login", login, password));
      match reply
      case Returned(response) =>
        var state := if response.status == LoginSuccess then Success else Error(response.message);
        LoginStep(LoginVm(state, Some(response)), request)
      case Threw(reason) =>
        LoginStep(vm.(state := Error(NetworkErrorPrefix + Describe(reason))), request)
    else
      LoginStep(vm.(state := Error(InvalidCredentials)), None)
  }

  /** The validation message of `registerUser`: a bad login is reported before a bad password. */
  function RegisterValidationMessage(login: string, password: string): (message: string)
    requires !(LoginMatches(login) && PasswordMatches(password))
    ensures !LoginMatches(login) ==> message == LoginLettersOnly
    ensures LoginMatches(login) ==> message == PasswordDigitsOnly
    ensures message != InvalidCredentials
  {
    if !LoginMatches(login) then LoginLettersOnly
    else if !PasswordMatches(password) then PasswordDigitsOnly
    else InvalidCredentials
  }

  /** The failure text of `registerUser`, tested in order on the exception's (nullable) message. */
  function ClassifyRegisterFailure(reason: Option<string>): (text: string)
    ensures reason.Some? && Contains(reason.value, "Connect timeout") ==> text == ServerUnavailable
    ensures reason.Some? && !Contains(reason.value, "Connect timeout") && Contains(reason.value, "timeout") ==>
      text == ResponseTimeout
    ensures reason.Some? && !Contains(reason.value, "timeout") && Contains(reason.value, "Network") ==>
      text == NetworkTrouble
    ensures reason.None? ==> text == NetworkErrorPrefix + "null"
    ensures reason.Some? && !Contains(reason.value, "timeout") && !Contains(reason.value, "Network") ==>
      text == NetworkErrorPrefix + reason.value
  {
    match reason
    case None => NetworkErrorPrefix + Describe(reason)
    case Some(m) =>
      if Contains(m, "Connect timeout") then
        ConnectTimeoutMentionsTimeout(m);
        ServerUnavailable
      else if Contains(m, "timeout") then ResponseTimeout
      else if Contains(m, "Network") then NetworkTrouble
      else NetworkErrorPrefix + m
  }

  /**
   Every message with "Connect timeout" also contains "timeout", so the order
   of the tests matters: the first one wins.
   */
  lemma ConnectTimeoutMentionsTimeout(m: string)
    requires Contains(m, "Connect timeout")
    ensures Contains(m, "timeout")
  {
    ContainsInfix(m, "Connect timeout", 8, 15);
    assert "Connect timeout"[8..15] == "timeout";
  }

  /** `registerUser` with the repository behaving as `reply`. */
  function RegisterUser(vm: LoginVm, login: string, password: string, reply: Call<AuthResponse>): (r: LoginStep)
    ensures !(LoginMatches(login) && PasswordMatches(password)) ==>
      && r.request == None && r.vm.authResult == vm.authResult
      && r.vm.state == Error(if LoginMatches(login) then PasswordDigitsOnly else LoginLettersOnly)
    ensures LoginMatches(login) && PasswordMatches(password) ==>
      r.request == Some(AuthRequest("register", login, password))
    ensures r.request.Some? && reply.Returned? ==>
      && r.vm.authResult == Some(reply.value)
      && (r.vm.state == Success <==> reply.value.status == RegisterSuccess)
      && (r.vm.state != Success ==> r.vm.state == Error(reply.value.message))
    ensures r.request.Some? && reply.Threw? ==>
      r.vm == vm.(state := Error(ClassifyRegisterFailure(reply.reason)))
  {
    if LoginMatches(login) && PasswordMatches(password) then
      var request := Some(AuthRequest("register", login, password));
      match reply
      case Returned(response) =>
        var state := if response.status == RegisterSuccess then Success else Error(response.message);
        LoginStep(LoginVm(state, Some(response)), request)
      case Threw(reason) =>
        LoginStep(vm.(state := Error(ClassifyRegisterFailure(reason))), request)
    else
      LoginStep(vm.(state := Error(RegisterValidationMessage(login, password))), None)
  }

  /** `resetState`: back to `Empty` with no stored response. */
  function ResetState(vm: LoginVm): (r: LoginVm)
    ensures r.state == Empty && r.authResult.None?
    ensures r == InitialLoginVm()
  {
    LoginVm(Empty, None)
  }

  /** Whatever happened before, a reset followed by a failed validation reports the generic error. */
  lemma ResetThenInvalidLogin(vm: LoginVm, login: string, password: string, reply: Call<AuthResponse>)
    requires !LoginMatches(login)
    ensures CheckLogin(ResetState(vm), login, password, reply).vm == LoginVm(Error(InvalidCredentials), None)
  {
  }
}
