# CodeQuizzer decision logic in Dafny

CodeQuizzer is an Android quiz app with email/password sign-in. Its screens are
Compose UI, but three of them hold real decisions. This project models those
decisions as pure functions over immutable state records and proves their
properties:

- **Quiz session** (`Categoria1`). The session records which question is on
  screen (`indiceActual`), the score (`aciertos`), the chosen option
  (`respuestaSeleccionada`) and whether the final screen shows (`mostrarFinal`).
  It has two transitions:
  - `Quiz.Select` is a tap on an option.
  - `Quiz.Advance` is the effect that runs one second after a selection is recorded.

  `Quiz.TierOf` classifies the final score. `QuizBank.Bank` is the fixed
  ten-question Git bank.
- **Registration submit** (`RegistrationScreen`). Three ordered local checks
  decide whether a request is sent. They use Kotlin's `toIntOrNull`, modelled in
  `IntText`, as well as `isBlank` and `String.length`. The outcome of the call
  then sets the message under the button or the success flag and dialog.
- **Login submit** (`LoginScreen`). The outcome of the call becomes an ordered
  list of writes: save the token, raise the success flag, or show an error. The
  writes are applied to the screen and to the stored token. Success leads to
  navigation to `welcome/<email>`, popping `login` off the back stack.

Modules: `Wrappers` (the option type standing for Kotlin's nullable values),
`IntText`, `Quiz`, `QuizBank`, `Http` (the abstract reply of the authentication
service), `Registration`, `Login`.

Abstract inputs stand in for everything external:
- A call's outcome is a `Http.Reply`: a status code, an optional decoded body
  and the optional `message` that Gson reads from the error body. A thrown
  exception is a `Failure` carrying its optional localized message.
- The stored token is a plain `Option<string>` slot in `Login.World`.
- Which characters are whitespace is a parameter `isSpace`.
- The one-second reveal delay is the explicit `Advance` event.

Three behaviours of the code are worth stating up front:
- `RegistrationScreen.kt:212-216` tries to fall back to special texts for a 409
  (duplicate account) and a 400 (invalid data). It applies `?:` to
  `registrationMessage`, which is a non-null `String`, so the message never
  changes there. `Registration.FailureMessage` models this, and
  `Registration.SpecialFallbacksUnreachable` shows that the generic
  "Error al registrar: <code>" text is what appears.
- With an empty question list the screen shows "No hay preguntas"
  (`Categoria1.kt:170`) and renders no option buttons, so no event changes the
  session (`Quiz.EmptyQuestionListIsInert`).
- There is a button only for each option of the current question, so
  `Quiz.Select` ignores a tap on any other index.

## Model

| member | source | states |
|---|---|---|
| Quiz.Current | app/src/main/java/com/example/login/ui/screen/Categoria1.kt:42 | there is a current question exactly when the index is inside the list, and it is the question at that index |
| Quiz.Select | app/src/main/java/com/example/login/ui/screen/Categoria1.kt:214-227 | a tap on an enabled option of the current question records it, keeps the index and adds one point exactly when it is the right option; any other tap leaves the session unchanged |
| Quiz.Advance | app/src/main/java/com/example/login/ui/screen/Categoria1.kt:44-55 | after a selection, on the last question the final screen shows and nothing else changes; on any other question the index moves on by one and the selection is cleared with the score unchanged; without a pending selection nothing happens |
| Quiz.StartIsValid | app/src/main/java/com/example/login/ui/screen/Categoria1.kt:35-40 | the initial session is at index 0 with score 0 and no selection, is not finished, and satisfies the session invariant |
| Quiz.SelectPreservesValid | app/src/main/java/com/example/login/ui/screen/Categoria1.kt:216-225 | a tap keeps the invariant: the index stays on a question, the score is at most the index plus one for a recorded answer, a selection is an option of the current question, and the final screen only follows an answer to the last question |
| Quiz.AdvancePreservesValid | app/src/main/java/com/example/login/ui/screen/Categoria1.kt:44-55 | the delayed advance keeps the same invariant |
| Quiz.ScoreBounded | app/src/main/java/com/example/login/ui/screen/Categoria1.kt:36-53 | in every valid session the score is at most the number of questions and at most the index plus one |
| Quiz.SelectAtMostOnce | app/src/main/java/com/example/login/ui/screen/Categoria1.kt:217-227 | a tap while an option is already recorded changes nothing, so a second tap on the same question can never score again and two taps add at most one point |
| Quiz.FinishedIsFrozen | app/src/main/java/com/example/login/ui/screen/Categoria1.kt:44-57 | once the final screen shows, neither a tap nor the delayed effect changes the session |
| Quiz.EmptyQuestionListIsInert | app/src/main/java/com/example/login/ui/screen/Categoria1.kt:185-218 | with no questions there is no current question, and no tap or advance changes the session |
| Quiz.RunKeepsInvariant | app/src/main/java/com/example/login/ui/screen/Categoria1.kt:36-55 | along any sequence of taps and reveals the session stays valid, the score never decreases or exceeds the question count, the index never goes back, and a finished session stays as it is |
| Quiz.PlayToEnd | app/src/main/java/com/example/login/ui/screen/Categoria1.kt:44-55 | answering every remaining question, each with one of its options, ends on the final screen at the last question, having added exactly one point per right answer |
| Quiz.AnswerKeyScoresAll | app/src/main/java/com/example/login/ui/screen/Categoria1.kt:219-220 | the sequence of right options matches every question, so it counts one point per question |
| Quiz.PerfectPlay | app/src/main/java/com/example/login/ui/screen/Categoria1.kt:216-225 | for any question list whose right indices are in range, always picking the right option ends finished with a score equal to the number of questions |
| Quiz.TierOf | app/src/main/java/com/example/login/ui/screen/Categoria1.kt:66-70 | each score is in exactly one tier: below 3 keep practising, 3 to 7 inclusive improving, above 7 well done |
| Quiz.TierMonotone | app/src/main/java/com/example/login/ui/screen/Categoria1.kt:66-70 | a higher score never earns a lower tier |
| Quiz.FeedbackTextsDistinct | app/src/main/java/com/example/login/ui/screen/Categoria1.kt:66-70 | the three final-screen messages are pairwise different, so the message shown identifies the tier |
| Quiz.SummaryOf | app/src/main/java/com/example/login/ui/screen/Categoria1.kt:57-70 | the final figures exist exactly when the session is finished; they report the score against the question count, never more right answers than questions, the tier of that score and that tier's message |
| QuizBank.Bank | app/src/main/java/com/example/login/ui/screen/Categoria1.kt:249-310 | the first category has ten questions, each with four options and a right index among them |
| QuizBank.PerfectRun | app/src/main/java/com/example/login/ui/screen/Categoria1.kt:249-310 | on this bank, a learner who always answers right finishes with 10 of 10, the top tier and its message |
| IntText.ParseInt | app/src/main/java/com/example/login/ui/screen/RegistrationScreen.kt:175 | a parsed age always fits in a 32-bit Int; decimal digits with an optional `+` or `-` in front whose value fits are always accepted, with that value |
| IntText.ParseIntSound | app/src/main/java/com/example/login/ui/screen/RegistrationScreen.kt:175 | anything accepted is decimal digits with an optional `+` or `-` in front, and the result is their signed value |
| IntText.ParseIntScan | app/src/main/java/com/example/login/ui/screen/RegistrationScreen.kt:175 | the digit-by-digit scan with an early stop on overflow gives the same result as the reference reading |
| IntText.ShowInt | app/src/main/java/com/example/login/ui/screen/RegistrationScreen.kt:211 | the status code in the failure text is printed as decimal digits whose value is the code, after a `-` when it is negative, with no leading zero (zero itself prints as "0") |
| IntText.ParseShowRoundTrip | app/src/main/java/com/example/login/ui/screen/RegistrationScreen.kt:175 | every 32-bit Int, written in decimal the way Kotlin prints it, is read back as itself |
| Registration.Utf16Length | app/src/main/java/com/example/login/ui/screen/RegistrationScreen.kt:184 | the password length counts UTF-16 code units: none for the empty string, two for a single character outside the Basic Multilingual Plane and one for any other single character; between one and two per character overall, and exactly one per character for a string inside that plane |
| Registration.Utf16LengthAppend | app/src/main/java/com/example/login/ui/screen/RegistrationScreen.kt:184 | the length of two strings joined is the sum of their lengths, so with the single-character cases it fixes the exact UTF-16 count of every password |
| Registration.Validate | app/src/main/java/com/example/login/ui/screen/RegistrationScreen.kt:175-198 | a request is made exactly when all fields are non-blank, the age parses and is at least 13, and the password has at least 8 units; it carries the fields unchanged and the parsed age. Otherwise the message of the first failing check is chosen: the required-fields text exactly when a field is blank or the age does not parse, the age text exactly when the age is below 13, and the password text exactly when only the length fails |
| Registration.Submit | app/src/main/java/com/example/login/ui/screen/RegistrationScreen.kt:173-198 | a tap clears the old message; then it either sends exactly the request the ordered checks build, leaving the message empty, or sends nothing and shows the text of the first failing check; the success flag and dialog are untouched |
| Registration.FailureMessage | app/src/main/java/com/example/login/ui/screen/RegistrationScreen.kt:204-216 | on a non-2xx response the message is the server's message when one was read, else "Error al registrar: " followed by the status code; the 409 and 400 branches leave it as it is |
| Registration.SpecialFallbacksUnreachable | app/src/main/java/com/example/login/ui/screen/RegistrationScreen.kt:211-216 | a 409 or a 400 without a readable message shows the generic text with its code, never the duplicate-account or invalid-data text |
| Registration.OnReply | app/src/main/java/com/example/login/ui/screen/RegistrationScreen.kt:200-222 | a 2xx raises the success flag and opens the dialog without touching the message; any other response sets the failure message; an exception sets the connection-error text; only the message changes in the last two cases |
| Registration.FirstAttempt | app/src/main/java/com/example/login/ui/screen/RegistrationScreen.kt:242-248 | from the fresh screen, a rejected form shows its text and opens no dialog; a 2xx opens the dialog and hides the error text; any other outcome shows the error text, unless the server's message was empty, and opens no dialog |
| Http.ConnectionErrorText | app/src/main/java/com/example/login/ui/screen/LoginScreen.kt:211-215 | an exception's text is "Error de conexión: ", then the exception's message, then ". Verifica tu internet."; a null message prints as the word "null" |
| Login.Submit | app/src/main/java/com/example/login/ui/screen/LoginScreen.kt:184-191 | a tap clears the error message and the show-error flag, changes nothing else, and sends the email and password as typed |
| Login.Writes | app/src/main/java/com/example/login/ui/screen/LoginScreen.kt:193-215 | on a 2xx with a body the writes are exactly: save that body's token, then raise the success flag; a 2xx without a body writes nothing; any other response or an exception writes exactly one error text, which is the server's message, else "Usuario o contraseña incorrectos.", or the connection-error text for an exception; a token save and the success flag occur on no other outcome |
| Login.OnReplyEffect | app/src/main/java/com/example/login/ui/screen/LoginScreen.kt:193-215 | after the handler, the stored token is the body's token and the success flag is up exactly on a 2xx with a body; a 2xx without a body changes nothing; a non-2xx or an exception shows the error and leaves the token and the success flag as they were |
| Login.NavigationOf | app/src/main/java/com/example/login/ui/screen/LoginScreen.kt:63-68 | navigation happens exactly when the success flag is up; it goes to "welcome/" followed by the entered email and pops the login route inclusively |
| Login.Attempt | app/src/main/java/com/example/login/ui/screen/LoginScreen.kt:184-234 | from a screen not yet logged in, a tap and its outcome navigate exactly on a 2xx with a body, and then the token is already stored; on any other outcome the stored token is untouched; the error banner shows exactly when the response was not a 2xx |

## Left out

- Rendering, animations, colours and layout are left out. This includes the background colour set on selection and on advance.
- The animated progress bar `aciertos / total` is left out. It is floating point and only used for display.
- The one-second reveal delay and the seven-second auto-dismiss of the login error banner are left out. The reveal is the explicit `Advance` event and the dismiss is not modelled. Cancelling the delay when the screen is left is not modelled either.
- The HTTP client (base URL, timeouts), the API interface and Gson parsing are not modelled. A reply carries the status code, the optional body and the optional parsed `message` as given inputs.
- The token storage mechanism is not modelled. `getToken` and `clearTokens` are never called from the modelled screens. The token is a plain value slot in `Login.World`.
- Navigation wiring, the welcome screen, the categories 2 to 5, the "Volver al menú" button, the link to registration and the success dialog's "Ir a Login" button are plain navigation. They are left out.
- The password-visibility toggles are UI only.
- Threading is left out. Each reply is an event applied to the state at the time it arrives. Duplicate in-flight requests and a navigation email edited after the tap are therefore not distinguished.
- Kotlin's `isBlank` depends on a whitespace table. Here that table is the parameter `isSpace`, and the contracts hold for every choice of it.
- IntText.ParseInt: accepts only the ASCII digits 0 to 9. The JVM's digit reading also accepts other Unicode decimal digits, for example full-width ones.
- IntText.ParseIntScan: has the same ASCII-only digit reading as `IntText.ParseInt`.
- A Gson-decoded login body whose token is null is not modelled; the token is a non-null string, as the Kotlin type declares. In the app, `TokenManager.saveToken` then fails its non-null parameter check, and the `catch` at `LoginScreen.kt:211-215` shows the "Error de conexión: …" banner on that 2xx instead of logging in.
