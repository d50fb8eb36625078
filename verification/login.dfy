/**
 * The submit button of the login screen: clear the error, send the
 * credentials, then turn the outcome into writes to the token store and to
 * the screen's state, and navigate once the success flag is up.
 */
module Login {
  import opened Wrappers
  import opened Http

  /** The body of `POST login`. */
  datatype LoginRequest = LoginRequest(email: string, password: string)

  /** The success body of `POST login`. */
  datatype LoginResponse = LoginResponse(token: string)

  /**
   * The screen's fields and its `errorMessage`, `showError` and
   * `loginSuccessful` variables.
   */
  datatype Screen = Screen(email: string, password: string, errorMessage: Option<string>, showError: bool, successful: bool)

  const WrongCredentialsText: string := "Usuario o contraseña incorrectos."

  /** The tap on the button: the error is cleared and the request is built from the fields. */
  function Submit(s: Screen): (r: (Screen, LoginRequest))
    ensures r.0 == s.(errorMessage := None, showError := false)
    ensures r.1.email == s.email && r.1.password == s.password
  {
    (s.(errorMessage := None, showError := false), LoginRequest(s.email, s.password))
  }

  /** One write the result handler performs. */
  datatype Write = SaveToken(token: string) | SetSuccessful | SetError(text: string)

  /** The reply is a 2xx that carries a body. */
  predicate Accepted(reply: Reply<LoginResponse>) {
    reply.Response? && IsSuccessful(reply.code) && reply.body.Some?
  }

  /** Every success flag in `ws` comes after a token save. */
  predicate TokenSavedFirst(ws: seq<Write>) {
    forall i :: 0 <= i < |ws| && ws[i].SetSuccessful? ==> exists j :: 0 <= j < i && ws[j].SaveToken?
  }

  /**
   * The writes of the result handler, in program order: on a 2xx with a
   * body, save its token and then raise the success flag; on a 2xx without
   * one, nothing; otherwise the error text (the server's message, else the
   * fixed one), or the connection error.
   */
  function Writes(reply: Reply<LoginResponse>): (ws: seq<Write>)
    ensures TokenSavedFirst(ws)
    ensures Accepted(reply) ==> ws == [SaveToken(reply.body.value.token), SetSuccessful]
    ensures !(reply.Response? && IsSuccessful(reply.code)) ==> |ws| == 1 && ws[0].SetError?
    ensures (exists i :: 0 <= i < |ws| && ws[i].SaveToken?) <==> Accepted(reply)
    ensures (exists i :: 0 <= i < |ws| && ws[i].SetSuccessful?) <==> Accepted(reply)
    ensures forall i :: 0 <= i < |ws| && ws[i].SaveToken? ==> ws[i].token == reply.body.value.token
    ensures |ws| == 0 <==> reply.Response? && IsSuccessful(reply.code) && reply.body.None?
    ensures forall i :: 0 <= i < |ws| && ws[i].SetError? ==>
              if reply.Response? then ws[i].text == reply.errorMessage.GetOr(WrongCredentialsText)
              else ws[i].text == ConnectionErrorText(reply.detail)
  {
    match reply
    case Response(code, body, errorMessage) =>
      if IsSuccessful(code) then
        match body
        case Some(response) =>
          var ws := [SaveToken(response.token), SetSuccessful];
          assert ws[0].SaveToken? && ws[1].SetSuccessful?;
          ws
        case None => []
      else [SetError(errorMessage.GetOr(WrongCredentialsText))]
    case Failure(detail) => [SetError(ConnectionErrorText(detail))]
  }

  /** The screen and the stored token (the `jwt_token` preference). */
  datatype World = World(screen: Screen, token: Option<string>)

  function Perform(w: World, write: Write): World {
    match write
    case SaveToken(t) => w.(token := Some(t))
    case SetSuccessful => w.(screen := w.screen.(successful := true))
    case SetError(text) => w.(screen := w.screen.(errorMessage := Some(text), showError := true))
  }

  function PerformAll(w: World, ws: seq<Write>): World
    decreases |ws|
  {
    if |ws| == 0 then w else PerformAll(Perform(w, ws[0]), ws[1..])
  }

  /** The outcome arriving at the screen. */
  function OnReply(w: World, reply: Reply<LoginResponse>): World {
    PerformAll(w, Writes(reply))
  }

  /**
   * The token is written exactly when a 2xx arrives with a body, and then it
   * is that body's token; the success flag rises on exactly that outcome;
   * an error is shown on every non-2xx response and on an exception; a 2xx
   * without a body changes nothing.
   */
  lemma OnReplyEffect(w: World, reply: Reply<LoginResponse>)
    ensures Accepted(reply) ==>
              && OnReply(w, reply).token == Some(reply.body.value.token)
              && OnReply(w, reply).screen == w.screen.(successful := true)
    ensures reply.Response? && IsSuccessful(reply.code) && reply.body.None? ==> OnReply(w, reply) == w
    ensures reply.Response? && !IsSuccessful(reply.code) ==>
              OnReply(w, reply) == World(w.screen.(errorMessage := Some(reply.errorMessage.GetOr(WrongCredentialsText)),
                                                   showError := true), w.token)
    ensures reply.Failure? ==>
              OnReply(w, reply) == World(w.screen.(errorMessage := Some(ConnectionErrorText(reply.detail)),
                                                   showError := true), w.token)
  {
    var ws := Writes(reply);
    if Accepted(reply) {
      var w1 := Perform(w, ws[0]);
      var w2 := Perform(w1, ws[1]);
      assert ws[1..][1..] == [];
      assert PerformAll(w, ws) == PerformAll(w1, ws[1..]);
      assert PerformAll(w1, ws[1..]) == PerformAll(w2, ws[1..][1..]);
    } else if reply.Response? && IsSuccessful(reply.code) {
      assert ws == [];
    } else {
      assert ws[1..] == [];
      assert PerformAll(w, ws) == PerformAll(Perform(w, ws[0]), ws[1..]);
    }
  }

  /** A destination and the route popped off the back stack, inclusive. */
  datatype Navigation = Navigation(route: string, popUpTo: string, inclusive: bool)

  /** The effect keyed on the success flag: go to the welcome screen for the entered email. */
  function NavigationOf(s: Screen): (n: Option<Navigation>)
    ensures n.Some? <==> s.successful
    ensures n.Some? ==> "welcome/" <= n.value.route && n.value.route[|"welcome/"|..] == s.email
    ensures n.Some? ==> n.value.popUpTo == "login" && n.value.inclusive
  {
    if s.successful then Some(Navigation("welcome/" + s.email, "login", true)) else None
  }

  /** The error banner is on screen. */
  predicate BannerVisible(s: Screen) {
    s.showError && s.errorMessage.Some?
  }

  /**
   * From a screen that has not logged in yet, one tap and its outcome: the
   * app navigates exactly when a 2xx with a body arrived, and only with the
   * token already stored; otherwise the banner shows unless the 2xx carried
   * no body, and the stored token is untouched.
   */
  lemma Attempt(s: Screen, token: Option<string>, reply: Reply<LoginResponse>)
    requires !s.successful
    ensures var w := OnReply(World(Submit(s).0, token), reply);
            && (NavigationOf(w.screen).Some? <==> Accepted(reply))
            && (NavigationOf(w.screen).Some? ==> w.token == Some(reply.body.value.token))
            && (!Accepted(reply) ==> w.token == token)
            && (BannerVisible(w.screen) <==> !(reply.Response? && IsSuccessful(reply.code)))
  {
    OnReplyEffect(World(Submit(s).0, token), reply);
  }
}
