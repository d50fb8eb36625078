/**
 * The submit button of the registration screen: local validation in a fixed
 * order, then one request, then the mapping of its outcome to the message
 * under the button and to the success dialog.
 */
module Registration {
  import opened Wrappers
  import opened IntText
  import opened Http

  /** The five text fields exactly as typed. */
  datatype Form = Form(firstName: string, lastName: string, email: string, age: string, password: string)

  /** The body of `POST register`: the fields as typed, the age as a number. */
  datatype RegisterRequest = RegisterRequest(firstName: string, lastName: string, email: string, age: int, password: string)

  /**
   * The screen's state: `registrationMessage`, `registrationSuccessful` and
   * `showSuccessDialog`.
   */
  datatype Screen = Screen(message: string, successful: bool, dialog: bool)

  const Initial: Screen := Screen("", false, false)

  const MinAge: int := 13
  const MinPasswordLength: nat := 8

  const RequiredText: string := "Todos los campos son requeridos y la edad debe ser un número."
  const MinAgeText: string := "Debes tener al menos 13 años para registrarte."
  const PasswordText: string := "La contraseña debe tener al menos 8 caracteres."
  const FailurePrefix: string := "Error al registrar: "
  const ConflictText: string := "El correo electrónico ya está registrado."
  const BadRequestText: string := "Datos inválidos en el registro."

  /**
   * Kotlin's `isBlank`: every character is whitespace (so the empty string
   * is blank). Which characters count as whitespace is left to `isSpace`.
   */
  predicate IsBlank(s: string, isSpace: char -> bool) {
    forall i :: 0 <= i < |s| ==> isSpace(s[i])
  }

  /**
   * Kotlin's `String.length`: the number of UTF-16 code units, two for a
   * character outside the Basic Multilingual Plane.
   */
  function Utf16Length(s: string): (n: nat)
    ensures |s| <= n <= 2 * |s|
    ensures (forall i :: 0 <= i < |s| ==> s[i] as int <= 0xFFFF) ==> n == |s|
    ensures |s| == 0 ==> n == 0
    ensures |s| == 1 ==> n == (if s[0] as int > 0xFFFF then 2 else 1)
  {
    if |s| == 0 then 0
    else (if s[0] as int > 0xFFFF then 2 else 1) + Utf16Length(s[1..])
  }

  /** The length of a concatenation is the sum of the lengths, so each character adds its own units. */
  lemma {:induction false} Utf16LengthAppend(a: string, b: string)
    ensures Utf16Length(a + b) == Utf16Length(a) + Utf16Length(b)
    decreases |a|
  {
    if |a| > 0 {
      assert (a + b)[1..] == a[1..] + b;
      Utf16LengthAppend(a[1..], b);
    } else {
      assert a + b == b;
    }
  }

  /** Some field is blank or the age is not an `Int`. */
  predicate Incomplete(f: Form, isSpace: char -> bool) {
    || IsBlank(f.firstName, isSpace)
    || IsBlank(f.lastName, isSpace)
    || IsBlank(f.email, isSpace)
    || ParseInt(f.age).None?
    || IsBlank(f.password, isSpace)
  }

  /** The form passes every local check. */
  predicate Acceptable(f: Form, isSpace: char -> bool) {
    && !Incomplete(f, isSpace)
    && ParseInt(f.age).value >= MinAge
    && Utf16Length(f.password) >= MinPasswordLength
  }

  /** The result of the local checks: the message to show, or the request to send. */
  datatype Check = Rejected(text: string) | Send(request: RegisterRequest)

  /**
   * The three checks in the order the handler makes them; the first that
   * fails decides the message and no request is made.
   */
  function Validate(f: Form, isSpace: char -> bool): (r: Check)
    ensures r.Send? <==> Acceptable(f, isSpace)
    ensures r == Rejected(RequiredText) <==> Incomplete(f, isSpace)
    ensures r == Rejected(MinAgeText) <==> !Incomplete(f, isSpace) && ParseInt(f.age).value < MinAge
    ensures r == Rejected(PasswordText) <==>
              && !Incomplete(f, isSpace)
              && ParseInt(f.age).value >= MinAge
              && Utf16Length(f.password) < MinPasswordLength
    ensures r.Send? ==>
              r.request == RegisterRequest(f.firstName, f.lastName, f.email, ParseInt(f.age).value, f.password)
  {
    var age := ParseInt(f.age);
    if IsBlank(f.firstName, isSpace) || IsBlank(f.lastName, isSpace) || IsBlank(f.email, isSpace)
       || age.None? || IsBlank(f.password, isSpace) then
      Rejected(RequiredText)
    else if age.value < MinAge then
      Rejected(MinAgeText)
    else if Utf16Length(f.password) < MinPasswordLength then
      Rejected(PasswordText)
    else
      Send(RegisterRequest(f.firstName, f.lastName, f.email, age.value, f.password))
  }

  /**
   * The tap on the button: the message is cleared, then replaced by the
   * message of the first failing check; the request, if any, is returned.
   * The success flag and the dialog are left alone.
   */
  function Submit(s: Screen, f: Form, isSpace: char -> bool): (r: (Screen, Option<RegisterRequest>))
    ensures r.1.Some? <==> Acceptable(f, isSpace)
    ensures r.1.Some? ==> r.0.message == ""
    ensures r.1.None? ==> r.0.message in {RequiredText, MinAgeText, PasswordText}
    ensures r.1.Some? ==> Validate(f, isSpace) == Send(r.1.value)
    ensures r.1.None? ==> Validate(f, isSpace) == Rejected(r.0.message)
    ensures r.0.successful == s.successful && r.0.dialog == s.dialog
  {
    var cleared := s.(message := "");
    match Validate(f, isSpace)
    case Rejected(text) => (cleared.(message := text), None)
    case Send(request) => (cleared, Some(request))
  }

  /**
   * The message for a non-2xx response, as the handler computes it: the
   * server's message, else the status code; then the branches for 409 and
   * 400 apply `?:` to that same non-null string, so they keep it.
   */
  function FailureMessage(code: int, errorMessage: Option<string>): (m: string)
    ensures errorMessage.Some? ==> m == errorMessage.value
    ensures errorMessage.None? ==> m == FailurePrefix + ShowInt(code)
  {
    var message := errorMessage.GetOr(FailurePrefix + ShowInt(code));
    if code == 409 then Some(message).GetOr(ConflictText)
    else if code == 400 then Some(message).GetOr(BadRequestText)
    else message
  }

  /**
   * A duplicate-account or bad-request response without a readable message
   * shows the generic text with its status code, never the special texts.
   */
  lemma SpecialFallbacksUnreachable()
    ensures FailureMessage(409, None) == "Error al registrar: 409"
    ensures FailureMessage(400, None) == "Error al registrar: 400"
  {
  }

  /**
   * The outcome of the request, back on the main thread: a 2xx sets the
   * success flag (whose effect opens the dialog); any other response or an
   * exception replaces the message and leaves the flag alone.
   */
  function OnReply<B>(s: Screen, reply: Reply<B>): (r: Screen)
    ensures reply.Response? && IsSuccessful(reply.code) ==>
              r.successful && r.dialog && r.message == s.message
    ensures reply.Response? && !IsSuccessful(reply.code) ==>
              r == s.(message := FailureMessage(reply.code, reply.errorMessage))
    ensures reply.Failure? ==> r == s.(message := ConnectionErrorText(reply.detail))
  {
    match reply
    case Response(code, _, errorMessage) =>
      if IsSuccessful(code) then s.(successful := true, dialog := true)
      else s.(message := FailureMessage(code, errorMessage))
    case Failure(detail) => s.(message := ConnectionErrorText(detail))
  }

  /** The red text under the button is shown. */
  predicate ErrorTextVisible(s: Screen) {
    s.message != "" && !s.successful
  }

  /**
   * From the fresh screen, one tap and its outcome: a rejected form shows
   * its message and sends nothing; a sent form ends in the dialog on a 2xx,
   * and otherwise in a visible error text unless the server's message was
   * empty.
   */
  lemma FirstAttempt<B>(f: Form, isSpace: char -> bool, reply: Reply<B>)
    ensures var (s, request) := Submit(Initial, f, isSpace);
            && (request.None? ==> ErrorTextVisible(s) && !s.dialog)
            && (request.Some? && reply.Response? && IsSuccessful(reply.code) ==>
                  !ErrorTextVisible(OnReply(s, reply)) && OnReply(s, reply).dialog)
            && (request.Some? && !(reply.Response? && IsSuccessful(reply.code)) ==>
                  && !OnReply(s, reply).dialog
                  && (ErrorTextVisible(OnReply(s, reply)) <==> reply.Failure? || reply.errorMessage != Some("")))
  {
    var (s, request) := Submit(Initial, f, isSpace);
    if request.Some? && !(reply.Response? && IsSuccessful(reply.code)) {
      var t := OnReply(s, reply);
      if reply.Failure? {
        assert "Error de conexión: " <= t.message;
      } else if reply.errorMessage.None? {
        assert FailurePrefix <= t.message;
      }
    }
  }
}
