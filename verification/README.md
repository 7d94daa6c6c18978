# Survey token lifecycle and survey page, in Dafny

This project models the two sequential state machines of a customer-satisfaction
survey service:

* **The survey routes** (`src/routes.js`). The database becomes a pure value `Store.Db`:
  * the customer table `clientes` (id → name);
  * the survey table `encuestas` (token → customer id and the `respondida` flag);
  * the question catalog `preguntas`;
  * the append-only answer table `respuestas`.

  Each route handler is a total function from the request and the store to a response
  and the next store (`Routes`):
  * `generar-links`: `GenerarLinks`;
  * `validar-token`: `ValidarToken`;
  * `preguntas`: `ObtenerPreguntas`;
  * `guardar-respuesta`: `GuardarRespuesta`;
  * `encuesta`: `ServirEncuesta`.

  `Lifecycle` serves whole sequences of requests. It proves the following:
  * the store only moves forward: a survey's `respondida` flag goes from 0 to 1 and never back, and answers are only appended;
  * the store stays consistent: one survey per customer, every survey owned by a known customer, and a customer has answers on record exactly when their survey is marked answered;
  * along any request sequence, answers are saved at most once per token.
* **The survey page** (`public/script.js`). `SurveyPage.Controller` is a record holding:
  * the loaded questions;
  * the index of the question on screen;
  * the answers object keyed by question id.

  `SurveyPage` also models:
  * the page load: token check, greeting, question fetch;
  * rendering: button states, choice buttons and the text area's initial text;
  * the Next and Previous buttons;
  * the option-click and text-input handlers;
  * the submit handler.

  The page's requests go straight to the route handlers, so whole sessions can be stated end to end (`SurveyPage.SessionCompletes`, `Scenarios`).

Supporting modules:
* `Text`: JavaScript's `split(",")` and its inverse `Join`.
* `Entries`: a JavaScript object with integer keys. It is kept as its entry list in ascending key order. `Object.entries` reports keys in that order when they are array indices (0 up to 2^32 - 2), and the model takes every question id to be one. `AsMap` gives the mapping the list stands for.
* `Wrappers`: `Option`.

Behaviours of the code that the model keeps:
* `validar-token` does not look at the question catalog. It is the page that refuses an empty or non-array question list.
* `/encuesta` does distinguish an unknown token (404) from an answered one (400). `validar-token` and `guardar-respuesta` answer both with the same 400.
* `generar-links` is a bulk operation. It inserts rows for every customer without a survey and answers 400 only when there is none. It has no per-customer duplicate error.
* `validar-token` joins the customer table, so a survey whose customer row is missing does not validate. `guardar-respuesta` and `/encuesta` accept such a token. `Lifecycle.ValidatedTokenOpensPage` states both directions under the store invariant.
* A free-text answer that was typed and then erased stays in the answers object as `""`. Such a submission is therefore not blocked and stores an empty response.
* A customer name may be NULL. The greeting falls back to "Estimado Cliente" for a NULL or empty name.
* A click on an option marks exactly the clicked button, without re-rendering. The next rendering marks every button whose label equals the stored answer, so a scale that repeats a label shows more than one marked button.
* JavaScript truthiness of a nullable string is one predicate, `Routes.Present`. It is the `!token` test of every route and of the page, the test that a question has a scale, and the fallback for the customer name.

## Model

| member | source | states |
|---|---|---|
| Text.Split | public/script.js:92 | splitting at commas gives one more piece than there are commas, no piece contains a comma, and joining the pieces gives back the scale string |
| Text.SplitJoin | public/script.js:92 | comma-free labels joined with commas split back into exactly those labels |
| Entries.Get | public/script.js:101 | reading `respuestas[id]` yields a value exactly when the id has been assigned |
| Entries.Put | public/script.js:109 | assigning `respuestas[id]` makes that id read back the new value, leaves every other id's value unchanged, adds the id to the keys, and keeps the keys in ascending order |
| Entries.PutIsUpdate | public/script.js:122 | an assignment is exactly a map update of the answers at that id |
| Routes.Issue | src/routes.js:21-28 | the insert loop adds one unanswered survey per listed customer under its fresh token; no other token is added and the existing rows are unchanged |
| Routes.Links | src/routes.js:30-33 | one link per issued token, in customer order, each the survey URL followed by that token |
| Routes.GenerarLinks | src/routes.js:12-36 | 400 with the store unchanged exactly when no customer lacks a survey; otherwise each pending customer gets a new unanswered token, existing surveys, customers, questions and answers are untouched, and the success message is returned with the links |
| Routes.UnansweredWithCustomer | src/routes.js:95-98 | the token-and-customer query finds at most one row, and finds one exactly when the token is unanswered and its customer exists; the row carries that customer's id and possibly NULL name |
| Routes.ValidarToken | src/routes.js:88-106 | missing token gives 400; otherwise success iff the token is unanswered and its customer exists, returning that customer's id and name (possibly NULL); the store never changes |
| Routes.ObtenerPreguntas | src/routes.js:119-125 | 404 exactly when the catalog is empty, otherwise the whole catalog; the store never changes |
| Routes.UnansweredOwner | src/routes.js:143-146 | the owner query finds at most one row, and finds one exactly when the token is unanswered; the row is the token's customer |
| Routes.Record | src/routes.js:154-161 | the answer loop appends exactly one row per submitted pair, in order, all for the given customer, after the existing rows |
| Routes.GuardarRespuesta | src/routes.js:136-168 | missing token or missing, non-array or empty answers give 400 and change nothing; an unknown or answered token gives 400 and changes nothing; otherwise the answers are appended for the token's customer, only that token is marked answered, and nothing else changes |
| Routes.SurveyRows | src/routes.js:186-189 | the survey query finds at most one row, and finds one exactly when the token exists; the row is that survey |
| Routes.ServirEncuesta | src/routes.js:179-201 | missing token 400, unknown token 404, answered token 400, otherwise the page; the store never changes |
| Lifecycle.GenerarLinksCoversPending | src/routes.js:12-28 | after generating links the customers owning a survey are exactly those that did before plus those that were pending; none is left pending |
| Lifecycle.SurveyedAfterLinks | src/routes.js:12-28 | link generation gives surveys only to customers that had one or were pending |
| Lifecycle.PendingServedByLinks | src/routes.js:21-28 | after a successful link generation every pending customer owns a survey |
| Lifecycle.GenerarLinksTwice | src/routes.js:16-18 | after any link generation no customer is left without a survey, so the only admissible second batch is empty and it answers 400 and changes nothing |
| Lifecycle.IssuedTokensWork | src/routes.js:22-32 | every freshly issued token validates to its own customer and opens the survey page |
| Lifecycle.GenerarLinksOneSurvey | src/routes.js:12-28 | link generation never gives a customer a second survey |
| Lifecycle.GenerarLinksOwnersKnown | src/routes.js:12-28 | link generation issues surveys only to customers in the customer table |
| Lifecycle.GenerarLinksKeepsCompleted | src/routes.js:28 | new surveys start unanswered, so the answered customers and the answer table are unchanged |
| Lifecycle.GenerarLinksConsistent | src/routes.js:12-28 | link generation keeps the store invariant |
| Lifecycle.ValidatedTokenOpensPage | src/routes.js:186-199 | a token that validates also opens the page; with every survey owned by a known customer, the converse holds |
| Lifecycle.MissingTokenRefused | src/routes.js:88-183 | a missing or empty token gets 400 "Token no proporcionado" from validar-token and the "Token requerido" page from /encuesta, each exactly in that case, and "Datos incompletos" from guardar-respuesta, with the store unchanged |
| Lifecycle.SecondSubmissionRefused | src/routes.js:143-166 | after a successful submission, the next submission with the same token, whatever its payload, fails with 400 and changes nothing; `Lifecycle.NoSubmissionAfterAnswered` covers any later request |
| Lifecycle.EmptySubmissionRefused | src/routes.js:138-140 | an empty answer array is refused with 400 and the token stays usable |
| Lifecycle.IncompleteDataExactly | src/routes.js:138-140 | guardar-respuesta answers "Datos incompletos" exactly when the token is missing or empty, or the answers are absent, not an array, or empty |
| Lifecycle.GuardarRespuestaConsistent | src/routes.js:152-166 | saving answers keeps the store invariant: answers and the completion mark arrive together |
| Lifecycle.HandleSafe | src/routes.js:7-201 | serving any single request keeps every survey, never un-answers one, only appends answers, and keeps the invariant |
| Lifecycle.RunSafe | src/routes.js:7-201 | the same holds across any sequence of requests |
| Lifecycle.NoSubmissionAfterAnswered | src/routes.js:146-150 | once a token is answered no later request saves answers for it |
| Lifecycle.AtMostOneSubmission | src/routes.js:143-166 | in any sequence of requests at most one saves answers for a given token |
| Lifecycle.InitialRunConsistent | src/routes.js:7-201 | from an empty survey table and no answers, any sequence of requests keeps the customers and questions and leaves the store consistent |
| SurveyPage.Next | public/script.js:143-148 | moves one question forward exactly when not on the last question, otherwise changes nothing; keeps the index within the questions |
| SurveyPage.Previous | public/script.js:150-155 | moves one question back exactly when not on the first question, otherwise changes nothing; keeps the index within the questions |
| SurveyPage.NavigationInverse | public/script.js:143-155 | Next then Previous, and Previous then Next where they move, return to the same state |
| SurveyPage.Render | public/script.js:77-141 | Previous is disabled iff on the first question; Submit is shown iff on the last and Next iff not; a question has option buttons iff its scale is non-empty, with the scale's pieces as labels, active iff equal to the stored answer; otherwise the text area shows the stored text or "" |
| SurveyPage.OptionsAreScalePieces | public/script.js:89-92 | the option labels glued back with commas give the scale, one more label than commas |
| SurveyPage.ControlsMatchNavigation | public/script.js:134-136 | Previous is enabled exactly when it would move, Next is shown exactly when it would move, and Submit exactly when Next would not |
| SurveyPage.SelectOption | public/script.js:105-110 | a click stores the clicked label under the question's id and changes no other answer, question or index |
| SurveyPage.EditText | public/script.js:120-123 | typing stores the current text, possibly empty, under the question's id and changes nothing else |
| SurveyPage.ClickedButtons | public/script.js:105-107 | right after a click the buttons keep their labels, and exactly the clicked one is marked |
| SurveyPage.SelectedOptionShownActive | public/script.js:101-109 | a click marks exactly the clicked button; when the question is next rendered, a button is marked exactly when its label equals the clicked one; the two agree when the labels are distinct |
| SurveyPage.TypedTextSurvivesNavigation | public/script.js:120-122 | text typed for a question is shown again after moving forward and back |
| SurveyPage.ReplayKeepsInvariant | public/script.js:143-155 | whatever the user does, the question list stays, the index stays within it, and answers exist only for loaded questions |
| SurveyPage.Pack | public/script.js:160-163 | one pair per stored answer: every stored answer appears, every pair carries the stored value for its id, and no id appears twice (ids ascend) |
| SurveyPage.Submit | public/script.js:157-183 | blocked, with nothing sent, exactly when there are no answers; otherwise success iff the token is usable, storing the packed pairs for the token's customer and marking it answered, with customers and questions unchanged; on failure the store is unchanged and the alert shows the service's error, "Datos incompletos" for an empty token and the token-refused message otherwise |
| SurveyPage.Load | public/script.js:20-73 | the page redirects before any request exactly when the token is missing or empty; it redirects after the validation request exactly when the token is refused; it fails exactly when the token validates and the catalog is empty; it reaches the welcome screen exactly when the token validates and there are questions, greeting the customer by name, or by the default for a NULL or empty name, with the first question on screen and no answers |
| SurveyPage.SubmittedAnswersInCatalog | public/script.js:160-175 | an accepted submission stores answers only for questions the page loaded |
| SurveyPage.SessionCompletes | public/script.js:157-181 | after a successful load and any user actions, submitting is either blocked or accepted, and after acceptance the same link only redirects |
| Scenarios.ChoiceSession | public/script.js:105-180 | one scale question "Bad,OK,Good": choosing "Good" and submitting stores exactly that answer and marks the survey answered |
| Scenarios.RepeatedLabelMarkedTwice | public/script.js:101-107 | on the scale "A,A", clicking the first button marks only it, but the next rendering marks both |
| Scenarios.BlankSession | public/script.js:160-168 | one free-text question left untouched: the text area is empty and submission is blocked without reaching the service |

## Left out

- Database and server failures: the 500 responses of every route, a batch of inserts that fails part-way, the uncaught-error middleware and the process crash handlers. Each request is modelled as an atomic step that succeeds.
- Concurrency: the check-then-act gap between reading and updating a token in `guardar-respuesta`, and the missing transaction around its inserts. Requests are served one at a time.
- `/obtener-links`: it dumps the survey table and changes nothing.
- `src/server.js` and `src/db.js`: server setup, CORS, body parsing, logging, connection configuration, the duplicate `listen` calls, and the unconditional `/encuesta` static route that shadows the validating handler mounted under `/api`.
- GenerarLinks: takes the database's row order and the random tokens as parameters. Its requires asks the tokens to be distinct, unused, 32 hexadecimal digits. The source does not check for collisions; a colliding random token is not modelled.
- SQL details: tokens compare by exact string equality, whatever the column collation. The survey table is a map, so two rows cannot share a token. `NOT IN` with a NULL customer id is not modelled.
- Request bodies and query strings: a token is a string that is present or absent, and `""` counts as absent, as `!token` does. Non-string JSON tokens, a repeated `token` query parameter and answer pairs with missing or mistyped fields are not modelled.
- The page's DOM work: CSS classes, `innerHTML` templates, alerts and redirects. Only the outcome is kept: redirected, failed, blocked, thanked or alerted, plus the requests sent.
- `fetch` and JSON: the page calls the route handlers directly on the same store. URL-encoding of the token in the validation request is not modelled.
- Network errors during submission (the `catch` branch) are not modelled.
- The welcome screen is not a separate state: "Aceptar" renders question 0 of the state `Start` builds.
- The "Aceptar" handler is registered before the questions arrive. A click before they arrive is not modelled.
- SurveyPage.Pack: lists ids in ascending order. This matches `Object.entries` only for integer ids that are valid array indices. `parseInt` on the string key is taken to give back the id.
- SurveyPage.Submit: may be applied on any question. The source hides the button except on the last question but does not check the index in the handler.
