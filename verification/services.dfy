/** The decision logic of the Ampeli API service: the local checks that
    guard registration and login, the single remote call they make, and the
    classification of a failed call into a fixed error code.

    The remote call itself (`_make_request`) is not modelled: each operation
    takes it as a function from the JSON body it would post to what came
    back, and reports in `sent` whether it made the call at all. */
module AuthService {
  import opened Text
  import opened Values

  /** The error codes the service reports in `result['error']`. */
  datatype ErrorCode =
    | ValidationError | InvalidEmail | WeakPassword
    | UserExists | InvalidData
    | InvalidCredentials | UserNotFound | RateLimited
    | ServiceUnavailable | ServerError | ConnectionError
  {
    function Name(): string
    {
      match this
      case ValidationError => "VALIDATION_ERROR"
      case InvalidEmail => "INVALID_EMAIL"
      case WeakPassword => "WEAK_PASSWORD"
      case UserExists => "USER_EXISTS"
      case InvalidData => "INVALID_DATA"
      case InvalidCredentials => "INVALID_CREDENTIALS"
      case UserNotFound => "USER_NOT_FOUND"
      case RateLimited => "RATE_LIMITED"
      case ServiceUnavailable => "SERVICE_UNAVAILABLE"
      case ServerError => "SERVER_ERROR"
      case ConnectionError => "CONNECTION_ERROR"
    }
  }

  /** The codes decided locally, before any remote call. */
  const LocalCodes: set<ErrorCode> := {ValidationError, InvalidEmail, WeakPassword}

  /** The JSON object posted to the remote API. */
  type Payload = map<string, string>

  /** What the remote call did: returned a decoded JSON object, or raised an
      exception whose text is `text`. */
  datatype Remote = Returned(body: map<string, Value>) | Raised(text: string)

  /** The result dictionary of `register_user` and `login_user`. */
  datatype AuthResult =
    | Succeeded(user: Value, token: Value, message: string)
    | Failed(error: ErrorCode, message: string)
  {
    /** The dictionary exactly as the service builds it. */
    function AsDict(): Value
    {
      match this
      case Succeeded(user, token, message) =>
        Dict(map["success" := Atom(Bool(true)), "user" := user, "token" := token, "message" := StrValue(message)])
      case Failed(error, message) =>
        Dict(map["success" := Atom(Bool(false)), "error" := StrValue(error.Name()), "message" := StrValue(message)])
    }
  }

  /** One call of an authentication operation: the body it posted, if it
      contacted the remote API at all, and the result it returned. */
  datatype Attempt = Attempt(sent: Option<Payload>, result: AuthResult)

  // ---------------------------------------------------------------- checks

  /** `not x` is false for a str-or-None argument. */
  predicate Given(x: Option<string>)
  {
    x.Some? && x.value != ""
  }

  /** The email shape test: an `@` and a `.` somewhere, in any order. */
  predicate EmailShaped(email: string)
  {
    '@' in email && '.' in email
  }

  const MinPasswordLength := 6

  // -------------------------------------------------------- classification

  /** One branch of an error classification: the status digits matched on
      the raw text, the phrase matched on the lower-cased text, and what the
      branch returns. */
  datatype Rule = Rule(status: string, phrase: string, code: ErrorCode, message: string)

  predicate Matches(rule: Rule, text: string)
  {
    HasSubstring(text, rule.status) || HasSubstring(Lower(text), rule.phrase)
  }

  const ConnectionMessage := "Erro de conexão. Verifique sua internet e tente novamente."
  const UnavailableMessage := "Serviço temporariamente indisponível. Tente novamente em alguns minutos."
  const ServerErrorMessage := "Erro interno do servidor. Tente novamente mais tarde."

  /** The `elif` chain of `register_user`'s exception handler, in order. */
  const RegisterRules: seq<Rule> := [
    Rule("409", "conflict", UserExists, "Este email já está cadastrado"),
    Rule("400", "bad request", InvalidData, "Dados inválidos fornecidos"),
    Rule("503", "service unavailable", ServiceUnavailable, UnavailableMessage),
    Rule("500", "internal server error", ServerError, ServerErrorMessage)
  ]

  /** The `elif` chain of `login_user`'s exception handler, in order. */
  const LoginRules: seq<Rule> := [
    Rule("401", "unauthorized", InvalidCredentials, "Email ou senha incorretos"),
    Rule("404", "not found", UserNotFound, "Usuário não encontrado"),
    Rule("429", "too many requests", RateLimited, "Muitas tentativas de login. Tente novamente em alguns minutos."),
    Rule("503", "service unavailable", ServiceUnavailable, UnavailableMessage),
    Rule("500", "internal server error", ServerError, ServerErrorMessage)
  ]

  /** The index of the first rule that matches `text`, if any. */
  function FirstMatch(rules: seq<Rule>, text: string): (r: Option<nat>)
    ensures r.Some? ==> r.value < |rules| && Matches(rules[r.value], text)
    ensures r.Some? ==> forall j :: 0 <= j < r.value ==> !Matches(rules[j], text)
    ensures r.None? ==> forall j :: 0 <= j < |rules| ==> !Matches(rules[j], text)
  {
    if rules == [] then None
    else if Matches(rules[0], text) then Some(0)
    else
      match FirstMatch(rules[1..], text)
      case None => None
      case Some(i) => Some(i + 1)
  }

  /** An ordered first-match classification: the first matching rule wins,
      and a text no rule matches is a connection error. */
  function Classify(rules: seq<Rule>, text: string): AuthResult
  {
    match FirstMatch(rules, text)
    case Some(i) => Failed(rules[i].code, rules[i].message)
    case None => Failed(ConnectionError, ConnectionMessage)
  }

  predicate Conflict(text: string)
  {
    HasSubstring(text, "409") || HasSubstring(Lower(text), "conflict")
  }

  predicate BadRequest(text: string)
  {
    HasSubstring(text, "400") || HasSubstring(Lower(text), "bad request")
  }

  predicate Unavailable(text: string)
  {
    HasSubstring(text, "503") || HasSubstring(Lower(text), "service unavailable")
  }

  predicate InternalError(text: string)
  {
    HasSubstring(text, "500") || HasSubstring(Lower(text), "internal server error")
  }

  predicate Unauthorized(text: string)
  {
    HasSubstring(text, "401") || HasSubstring(Lower(text), "unauthorized")
  }

  predicate NotFound(text: string)
  {
    HasSubstring(text, "404") || HasSubstring(Lower(text), "not found")
  }

  predicate TooManyRequests(text: string)
  {
    HasSubstring(text, "429") || HasSubstring(Lower(text), "too many requests")
  }

  /** The precedence of `register_user`'s classification, branch by branch. */
  lemma RegisterClassification(text: string)
    ensures Classify(RegisterRules, text).error == UserExists <==> Conflict(text)
    ensures Classify(RegisterRules, text).error == InvalidData <==> !Conflict(text) && BadRequest(text)
    ensures Classify(RegisterRules, text).error == ServiceUnavailable <==>
              !Conflict(text) && !BadRequest(text) && Unavailable(text)
    ensures Classify(RegisterRules, text).error == ServerError <==>
              !Conflict(text) && !BadRequest(text) && !Unavailable(text) && InternalError(text)
    ensures Classify(RegisterRules, text).error == ConnectionError <==>
              !Conflict(text) && !BadRequest(text) && !Unavailable(text) && !InternalError(text)
  {
    var r := RegisterRules;
    assert Matches(r[0], text) == Conflict(text);
    assert Matches(r[1], text) == BadRequest(text);
    assert Matches(r[2], text) == Unavailable(text);
    assert Matches(r[3], text) == InternalError(text);
  }

  /** The precedence of `login_user`'s classification, branch by branch. */
  lemma LoginClassification(text: string)
    ensures Classify(LoginRules, text).error == InvalidCredentials <==> Unauthorized(text)
    ensures Classify(LoginRules, text).error == UserNotFound <==> !Unauthorized(text) && NotFound(text)
    ensures Classify(LoginRules, text).error == RateLimited <==>
              !Unauthorized(text) && !NotFound(text) && TooManyRequests(text)
    ensures Classify(LoginRules, text).error == ServiceUnavailable <==>
              !Unauthorized(text) && !NotFound(text) && !TooManyRequests(text) && Unavailable(text)
    ensures Classify(LoginRules, text).error == ServerError <==>
              !Unauthorized(text) && !NotFound(text) && !TooManyRequests(text) && !Unavailable(text)
              && InternalError(text)
    ensures Classify(LoginRules, text).error == ConnectionError <==>
              !Unauthorized(text) && !NotFound(text) && !TooManyRequests(text) && !Unavailable(text)
              && !InternalError(text)
  {
    var r := LoginRules;
    assert Matches(r[0], text) == Unauthorized(text);
    assert Matches(r[1], text) == NotFound(text);
    assert Matches(r[2], text) == TooManyRequests(text);
    assert Matches(r[3], text) == Unavailable(text);
    assert Matches(r[4], text) == InternalError(text);
  }

  /** Every failure text maps to one of the codes the handler lists, never
      to a code the local checks report. */
  lemma ClassificationRanges(text: string)
    ensures Classify(RegisterRules, text).error in
              {UserExists, InvalidData, ServiceUnavailable, ServerError, ConnectionError}
    ensures Classify(LoginRules, text).error in
              {InvalidCredentials, UserNotFound, RateLimited, ServiceUnavailable, ServerError, ConnectionError}
  {
    match FirstMatch(RegisterRules, text)
    case None =>
    case Some(i) => assert i < 4;
    match FirstMatch(LoginRules, text)
    case None =>
    case Some(i) => assert i < 5;
  }

  // ----------------------------------------------------------- register

  /** The body `register_user` posts: name, email and password, and a phone
      only when one was given. */
  function RegisterPayload(name: string, email: string, password: string, phone: Option<string>): (p: Payload)
    ensures p.Keys == {"name", "email", "password"} + (if Given(phone) then {"phone"} else {})
    ensures p["name"] == name && p["email"] == email && p["password"] == password
    ensures "phone" in p ==> p["phone"] == phone.value
  {
    var data := map["name" := name, "email" := email, "password" := password];
    if Given(phone) then data["phone" := phone.value] else data
  }

  /** The result of a call that returned: `user` and `token` taken from the
      body, `{}` and `''` when the body lacks them. */
  function Success(body: map<string, Value>, message: string): AuthResult
  {
    Succeeded(Get(body, "user", Dict(map[])), Get(body, "token", StrValue("")), message)
  }

  predicate RegisterChecksPass(name: Option<string>, email: Option<string>, password: Option<string>)
  {
    Given(name) && Given(email) && Given(password)
    && EmailShaped(email.value) && |password.value| >= MinPasswordLength
  }

  /** `register_user(name, email, password, phone)`. */
  function RegisterUser(name: Option<string>, email: Option<string>, password: Option<string>,
                        phone: Option<string>, remote: Payload -> Remote): (a: Attempt)
    ensures a.sent.Some? <==> RegisterChecksPass(name, email, password)
    ensures a.sent.Some? ==> a.sent.value == RegisterPayload(name.value, email.value, password.value, phone)
    ensures a.sent.Some? ==> (a.result.Succeeded? <==> remote(a.sent.value).Returned?)
    ensures a.sent.Some? && remote(a.sent.value).Raised? ==>
              a.result == Classify(RegisterRules, remote(a.sent.value).text)
    ensures a.sent.Some? && remote(a.sent.value).Returned? ==>
              a.result == Success(remote(a.sent.value).body, "Usuário registrado com sucesso")
    ensures a.sent.None? <==> a.result.Failed? && a.result.error in LocalCodes
  {
    if !Given(name) || !Given(email) || !Given(password) then
      Attempt(None, Failed(ValidationError, "Nome, email e senha são obrigatórios"))
    else if !EmailShaped(email.value) then
      Attempt(None, Failed(InvalidEmail, "Formato de email inválido"))
    else if |password.value| < MinPasswordLength then
      Attempt(None, Failed(WeakPassword, "Senha deve ter pelo menos 6 caracteres"))
    else
      var data := RegisterPayload(name.value, email.value, password.value, phone);
      ClassificationRanges(match remote(data) case Raised(text) => text case Returned(_) => "");
      Attempt(Some(data),
        match remote(data)
        case Returned(body) => Success(body, "Usuário registrado com sucesso")
        case Raised(text) => Classify(RegisterRules, text))
  }

  /** The order of `register_user`'s local checks: missing fields first,
      then the email shape, then the password length. */
  lemma RegisterCheckOrder(name: Option<string>, email: Option<string>, password: Option<string>,
                           phone: Option<string>, remote: Payload -> Remote)
    ensures var r := RegisterUser(name, email, password, phone, remote).result;
      && (r.Failed? && r.error == ValidationError <==> !Given(name) || !Given(email) || !Given(password))
      && (r.Failed? && r.error == InvalidEmail <==>
            Given(name) && Given(email) && Given(password) && !EmailShaped(email.value))
      && (r.Failed? && r.error == WeakPassword <==>
            Given(name) && Given(email) && Given(password) && EmailShaped(email.value)
            && |password.value| < MinPasswordLength)
  {
    if RegisterChecksPass(name, email, password) {
      var data := RegisterPayload(name.value, email.value, password.value, phone);
      if remote(data).Raised? {
        ClassificationRanges(remote(data).text);
      }
    }
  }

  /** When a local check fails the remote API is not consulted: the answer
      is the same whatever the remote call would have done. */
  lemma RegisterRejectsLocally(name: Option<string>, email: Option<string>, password: Option<string>,
                               phone: Option<string>, remote1: Payload -> Remote, remote2: Payload -> Remote)
    requires !RegisterChecksPass(name, email, password)
    ensures RegisterUser(name, email, password, phone, remote1) == RegisterUser(name, email, password, phone, remote2)
  {
  }

  // -------------------------------------------------------------- login

  function LoginPayload(email: string, password: string): (p: Payload)
    ensures p.Keys == {"email", "password"} && p["email"] == email && p["password"] == password
  {
    map["email" := email, "password" := password]
  }

  predicate LoginChecksPass(email: Option<string>, password: Option<string>)
  {
    Given(email) && Given(password) && EmailShaped(email.value)
  }

  /** `login_user(email, password)`: the same checks as registration without
      a name and without the password length. */
  function LoginUser(email: Option<string>, password: Option<string>, remote: Payload -> Remote): (a: Attempt)
    ensures a.sent.Some? <==> LoginChecksPass(email, password)
    ensures a.sent.Some? ==> a.sent.value == LoginPayload(email.value, password.value)
    ensures a.sent.Some? ==> (a.result.Succeeded? <==> remote(a.sent.value).Returned?)
    ensures a.sent.Some? && remote(a.sent.value).Raised? ==>
              a.result == Classify(LoginRules, remote(a.sent.value).text)
    ensures a.sent.Some? && remote(a.sent.value).Returned? ==>
              a.result == Success(remote(a.sent.value).body, "Login realizado com sucesso")
    ensures a.sent.None? <==> a.result.Failed? && a.result.error in LocalCodes
    ensures a.result.Failed? ==> a.result.error != WeakPassword
  {
    if !Given(email) || !Given(password) then
      Attempt(None, Failed(ValidationError, "Email e senha são obrigatórios"))
    else if !EmailShaped(email.value) then
      Attempt(None, Failed(InvalidEmail, "Formato de email inválido"))
    else
      var data := LoginPayload(email.value, password.value);
      ClassificationRanges(match remote(data) case Raised(text) => text case Returned(_) => "");
      Attempt(Some(data),
        match remote(data)
        case Returned(body) => Success(body, "Login realizado com sucesso")
        case Raised(text) => Classify(LoginRules, text))
  }

  /** The order of `login_user`'s local checks. */
  lemma LoginCheckOrder(email: Option<string>, password: Option<string>, remote: Payload -> Remote)
    ensures var r := LoginUser(email, password, remote).result;
      && (r.Failed? && r.error == ValidationError <==> !Given(email) || !Given(password))
      && (r.Failed? && r.error == InvalidEmail <==> Given(email) && Given(password) && !EmailShaped(email.value))
  {
    if LoginChecksPass(email, password) {
      var data := LoginPayload(email.value, password.value);
      if remote(data).Raised? {
        ClassificationRanges(remote(data).text);
      }
    }
  }

  lemma LoginRejectsLocally(email: Option<string>, password: Option<string>,
                            remote1: Payload -> Remote, remote2: Payload -> Remote)
    requires !LoginChecksPass(email, password)
    ensures LoginUser(email, password, remote1) == LoginUser(email, password, remote2)
  {
  }

  /** Every message a failed classification returns says more than ten
      characters. */
  lemma ClassifiedMessagesDescriptive(text: string)
    ensures |Classify(RegisterRules, text).message| > 10
    ensures |Classify(LoginRules, text).message| > 10
  {
    assert forall i :: 0 <= i < |RegisterRules| ==> |RegisterRules[i].message| > 10;
    assert forall i :: 0 <= i < |LoginRules| ==> |LoginRules[i].message| > 10;
  }

  /** Every result of `register_user` says whether it succeeded and carries
      a descriptive message of more than ten characters. */
  lemma RegisterResultDescriptive(name: Option<string>, email: Option<string>, password: Option<string>,
                                  phone: Option<string>, remote: Payload -> Remote)
    ensures var r := RegisterUser(name, email, password, phone, remote).result;
      "success" in r.AsDict().entries && |r.message| > 10
  {
    if RegisterChecksPass(name, email, password) {
      var data := RegisterPayload(name.value, email.value, password.value, phone);
      if remote(data).Raised? {
        ClassifiedMessagesDescriptive(remote(data).text);
      }
    }
  }

  /** Every result of `login_user` says whether it succeeded and carries a
      descriptive message of more than ten characters. */
  lemma LoginResultDescriptive(email: Option<string>, password: Option<string>, remote: Payload -> Remote)
    ensures var r := LoginUser(email, password, remote).result;
      "success" in r.AsDict().entries && |r.message| > 10
  {
    if LoginChecksPass(email, password) {
      var data := LoginPayload(email.value, password.value);
      if remote(data).Raised? {
        ClassifiedMessagesDescriptive(remote(data).text);
      }
    }
  }

  /** On success `user` and `token` are what the body holds, and `{}` and
      `''` where it holds nothing. */
  lemma SuccessDefaults(body: map<string, Value>, message: string)
    ensures "user" !in body ==> Success(body, message).user == Dict(map[])
    ensures "token" !in body ==> Success(body, message).token == StrValue("")
    ensures "user" in body ==> Success(body, message).user == body["user"]
    ensures "token" in body ==> Success(body, message).token == body["token"]
  {
  }
}
