/**
 * The survey page's controller: loading the session, showing one question
 * at a time, recording the chosen or typed answers, and submitting them.
 * The page talks to the service only through the route handlers.
 */
module SurveyPage {
  import opened Wrappers
  import opened Text
  import opened Entries
  import opened Store
  import opened Routes

  /**
   * The page state: the loaded questions, the index of the question on
   * screen, and the answers object keyed by question id.
   */
  datatype Controller = Controller(preguntas: seq<Question>, index: int, respuestas: seq<Entry>)

  /** The state once the questions are loaded: first question, no answers. */
  function Start(preguntas: seq<Question>): Controller {
    Controller(preguntas, 0, [])
  }

  /** The index names a loaded question and the answers object is well formed. */
  predicate Valid(c: Controller) {
    0 <= c.index < |c.preguntas| && Ordered(c.respuestas)
  }

  /** The ids of the loaded questions. */
  function Ids(preguntas: seq<Question>): set<int> {
    set i | 0 <= i < |preguntas| :: preguntas[i].idPregunta
  }

  /** Answers are only recorded for loaded questions. */
  predicate AnswersInCatalog(c: Controller) {
    Keys(c.respuestas) <= Ids(c.preguntas)
  }

  /** The question on screen. */
  function Current(c: Controller): Question
    requires Valid(c)
  {
    c.preguntas[c.index]
  }

  /** The question is shown as choice buttons: its scale is truthy, neither NULL nor empty. */
  predicate HasScale(q: Question) {
    Present(q.escala)
  }

  /** The choice labels of a scale question: its scale split at commas. */
  function Options(q: Question): seq<string>
    requires HasScale(q)
  {
    Split(q.escala.value, ',')
  }

  // ----- navigation -----

  /** The "Siguiente" button: one question forward, unless on the last one. */
  function Next(c: Controller): (c': Controller)
    ensures c'.preguntas == c.preguntas && c'.respuestas == c.respuestas
    ensures c.index < |c.preguntas| - 1 ==> c'.index == c.index + 1
    ensures c.index >= |c.preguntas| - 1 ==> c' == c
    ensures Valid(c) ==> Valid(c')
  {
    if c.index < |c.preguntas| - 1 then c.(index := c.index + 1) else c
  }

  /** The "Atrás" button: one question back, unless on the first one. */
  function Previous(c: Controller): (c': Controller)
    ensures c'.preguntas == c.preguntas && c'.respuestas == c.respuestas
    ensures c.index > 0 ==> c'.index == c.index - 1
    ensures c.index <= 0 ==> c' == c
    ensures Valid(c) ==> Valid(c')
  {
    if c.index > 0 then c.(index := c.index - 1) else c
  }

  /** Forward then back returns to the same state, and so does back then forward. */
  lemma NavigationInverse(c: Controller)
    requires Valid(c)
    ensures c.index < |c.preguntas| - 1 ==> Previous(Next(c)) == c
    ensures c.index > 0 ==> Next(Previous(c)) == c
  {
  }

  // ----- rendering -----

  /** One choice button: its label and whether it is marked as selected. */
  datatype OptionButton = OptionButton(caption: string, active: bool)

  /** The answer input: choice buttons, or a text area with its initial text. */
  datatype Input = Choices(buttons: seq<OptionButton>) | TextArea(value: string)

  /** What `renderQuestion` puts on screen. */
  datatype View = View(texto: string, input: Input, prevDisabled: bool, submitShown: bool, nextShown: bool)

  /** Renders the question on screen. */
  function Render(c: Controller): (v: View)
    requires Valid(c)
    ensures v.texto == Current(c).texto
    ensures v.prevDisabled <==> c.index == 0
    ensures v.submitShown <==> c.index == |c.preguntas| - 1
    ensures v.nextShown <==> !v.submitShown
    ensures v.input.Choices? <==> HasScale(Current(c))
    ensures v.input.Choices? ==>
      var opts := Options(Current(c));
      && |v.input.buttons| == |opts|
      && forall i :: 0 <= i < |opts| ==>
           && v.input.buttons[i].caption == opts[i]
           && ',' !in v.input.buttons[i].caption
           && (v.input.buttons[i].active <==> Get(c.respuestas, Current(c).idPregunta) == Some(opts[i]))
    ensures v.input.TextArea? ==>
      v.input.value == Get(c.respuestas, Current(c).idPregunta).GetOr("")
  {
    var q := Current(c);
    var stored := Get(c.respuestas, q.idPregunta);
    var input :=
      if HasScale(q) then
        var opts := Options(q);
        Choices(seq(|opts|, i requires 0 <= i < |opts| => OptionButton(opts[i], stored == Some(opts[i]))))
      else
        TextArea(if stored.Some? && stored.value != "" then stored.value else "");
    var last := c.index == |c.preguntas| - 1;
    View(q.texto, input, c.index == 0, last, !last)
  }

  /** A scale's choice labels are its comma-separated pieces, and gluing them back gives the scale. */
  lemma OptionsAreScalePieces(q: Question)
    requires HasScale(q)
    ensures Join(Options(q), ',') == q.escala.value
    ensures |Options(q)| == Count(q.escala.value, ',') + 1
  {
  }

  /**
   * The navigation buttons match what they do: "Atrás" is enabled exactly
   * when it moves, "Siguiente" is shown exactly when it moves, and
   * otherwise "Enviar" is shown in its place.
   */
  lemma ControlsMatchNavigation(c: Controller)
    requires Valid(c)
    ensures !Render(c).prevDisabled <==> Previous(c) != c
    ensures Render(c).nextShown <==> Next(c) != c
    ensures Render(c).submitShown <==> Next(c) == c
  {
  }

  // ----- answering -----

  /** Clicking the `j`-th choice button of the question on screen. */
  function SelectOption(c: Controller, j: int): (c': Controller)
    requires Valid(c) && HasScale(Current(c)) && 0 <= j < |Options(Current(c))|
    ensures c'.preguntas == c.preguntas && c'.index == c.index
    ensures Valid(c')
    ensures AsMap(c'.respuestas) == AsMap(c.respuestas)[Current(c).idPregunta := Options(Current(c))[j]]
  {
    var q := Current(c);
    PutIsUpdate(c.respuestas, q.idPregunta, Options(q)[j]);
    c.(respuestas := Put(c.respuestas, q.idPregunta, Options(q)[j]))
  }

  /** Typing in the text area of the question on screen; the text may be empty. */
  function EditText(c: Controller, text: string): (c': Controller)
    requires Valid(c) && !HasScale(Current(c))
    ensures c'.preguntas == c.preguntas && c'.index == c.index
    ensures Valid(c')
    ensures AsMap(c'.respuestas) == AsMap(c.respuestas)[Current(c).idPregunta := text]
  {
    var q := Current(c);
    PutIsUpdate(c.respuestas, q.idPregunta, text);
    c.(respuestas := Put(c.respuestas, q.idPregunta, text))
  }

  /**
   * The option buttons right after the `j`-th one is clicked. The click
   * handler does not re-render: it clears the mark of every option button
   * on screen and marks the clicked one.
   */
  function ClickedButtons(buttons: seq<OptionButton>, j: int): (after: seq<OptionButton>)
    requires 0 <= j < |buttons|
    ensures |after| == |buttons|
    ensures forall i :: 0 <= i < |after| ==> after[i].caption == buttons[i].caption
    ensures after[j].active
    ensures forall i :: 0 <= i < |after| && i != j ==> !after[i].active
  {
    seq(|buttons|, i requires 0 <= i < |buttons| => buttons[i].(active := i == j))
  }

  /**
   * A click marks exactly the clicked button at once; when the question is
   * next rendered, a button is marked exactly when its label equals the
   * clicked one. The two agree when the scale's labels are distinct; with a
   * repeated label the next rendering marks every copy.
   */
  lemma SelectedOptionShownActive(c: Controller, j: int)
    requires Valid(c) && HasScale(Current(c)) && 0 <= j < |Options(Current(c))|
    ensures
      var now := ClickedButtons(Render(c).input.buttons, j);
      var later := Render(SelectOption(c, j)).input.buttons;
      && |later| == |now|
      && later[j].active
      && (forall i :: 0 <= i < |later| ==> later[i].caption == now[i].caption)
      && (forall i :: 0 <= i < |later| ==> (later[i].active <==> later[i].caption == later[j].caption))
      && ((forall a, b :: 0 <= a < b < |later| ==> later[a].caption != later[b].caption) ==> later == now)
  {
    var q := Current(c);
    assert Get(SelectOption(c, j).respuestas, q.idPregunta) == Some(Options(q)[j]);
  }

  /** Text typed for a question is shown again when the user comes back to it. */
  lemma TypedTextSurvivesNavigation(c: Controller, text: string)
    requires Valid(c) && !HasScale(Current(c)) && c.index < |c.preguntas| - 1
    ensures Render(Previous(Next(EditText(c, text)))).input == TextArea(text)
  {
    var q := Current(c);
    var c' := EditText(c, text);
    assert Get(c'.respuestas, q.idPregunta) == Some(text);
  }

  /** A user action on the page. */
  datatype Event = NextClick | PreviousClick | OptionClick(j: int) | TextInput(text: string)

  /** The action is possible on the current screen: a clicked button or a typed-in area exists. */
  predicate Enabled(c: Controller, e: Event) {
    && Valid(c)
    && match e
       case OptionClick(j) => HasScale(Current(c)) && 0 <= j < |Options(Current(c))|
       case TextInput(_) => !HasScale(Current(c))
       case _ => true
  }

  /** The state after one user action. */
  function Apply(c: Controller, e: Event): Controller
    requires Enabled(c, e)
  {
    match e
    case NextClick => Next(c)
    case PreviousClick => Previous(c)
    case OptionClick(j) => SelectOption(c, j)
    case TextInput(text) => EditText(c, text)
  }

  /** Each action of the sequence is possible when its turn comes. */
  predicate EnabledRun(c: Controller, es: seq<Event>)
    decreases |es|
  {
    es == [] || (Enabled(c, es[0]) && EnabledRun(Apply(c, es[0]), es[1..]))
  }

  /** The state after the actions one after another. */
  function Replay(c: Controller, es: seq<Event>): Controller
    requires EnabledRun(c, es)
    decreases |es|
  {
    if es == [] then c else Replay(Apply(c, es[0]), es[1..])
  }

  /**
   * Whatever the user does, the questions stay the same, the index stays
   * within the questions, and answers are only recorded for loaded questions.
   */
  lemma {:induction false} ReplayKeepsInvariant(c: Controller, es: seq<Event>)
    requires Valid(c) && AnswersInCatalog(c)
    requires EnabledRun(c, es)
    ensures Replay(c, es).preguntas == c.preguntas
    ensures Valid(Replay(c, es)) && AnswersInCatalog(Replay(c, es))
    decreases |es|
  {
    if es != [] {
      var c1 := Apply(c, es[0]);
      match es[0] {
        case OptionClick(j) =>
          assert Keys(c1.respuestas) == Keys(c.respuestas) + {Current(c).idPregunta};
        case TextInput(text) =>
          assert Keys(c1.respuestas) == Keys(c.respuestas) + {Current(c).idPregunta};
        case _ =>
      }
      ReplayKeepsInvariant(c1, es[1..]);
    }
  }

  // ----- submitting -----

  /** `Object.entries(respuestas)` as `{id_pregunta, respuesta}` pairs, in ascending id order. */
  function Pack(e: seq<Entry>): (items: seq<Answer>)
    requires Ordered(e)
    ensures |items| == |e|
    ensures forall i :: 0 <= i < |items| ==> Get(e, items[i].idPregunta) == Some(items[i].respuesta)
    ensures forall i, j :: 0 <= i < j < |items| ==> items[i].idPregunta < items[j].idPregunta
    ensures forall k :: k in Keys(e) ==> exists i :: 0 <= i < |items| && items[i].idPregunta == k
  {
    var items := seq(|e|, i requires 0 <= i < |e| => Answer(e[i].key, e[i].value));
    forall i | 0 <= i < |items|
      ensures Get(e, items[i].idPregunta) == Some(items[i].respuesta)
    {
      GetAt(e, i);
    }
    forall k | k in Keys(e)
      ensures exists i :: 0 <= i < |items| && items[i].idPregunta == k
    {
      var i := KeyIndex(e, k);
      assert items[i].idPregunta == k;
    }
    items
  }

  /** What a click on "Enviar" leads to. */
  datatype SubmitResult = Blocked | Thanked | Alerted(error: string)

  /** The outcome of a submission and the service's store after it. */
  datatype Submission = Submission(result: SubmitResult, db: Db)

  /**
   * The submit handler: with no answers it alerts and sends nothing;
   * otherwise it posts the packed answers and thanks the user on success or
   * alerts the service's error, leaving the page as it was for a retry.
   */
  function Submit(c: Controller, token: Token, db: Db): (s: Submission)
    requires Ordered(c.respuestas)
    ensures s.result == Blocked <==> c.respuestas == []
    ensures s.result == Blocked ==> s.db == db
    ensures s.result.Alerted? ==> s.db == db
    ensures s.result.Alerted? ==> s.result == Alerted(if token == "" then IncompleteData else TokenRejected)
    ensures c.respuestas != [] ==> (s.result == Thanked <==> token != "" && Usable(db, token))
    ensures s.result == Thanked ==>
      var owner := db.encuestas[token].idCliente;
      var items := Pack(c.respuestas);
      && s.db.clientes == db.clientes
      && s.db.preguntas == db.preguntas
      && s.db.encuestas == db.encuestas[token := Survey(owner, true)]
      && |s.db.respuestas| == |db.respuestas| + |items|
      && db.respuestas <= s.db.respuestas
      && forall i :: 0 <= i < |items| ==>
           s.db.respuestas[|db.respuestas| + i] == AnswerRow(owner, items[i].idPregunta, items[i].respuesta)
  {
    var items := Pack(c.respuestas);
    if |items| == 0 then Submission(Blocked, db)
    else
      var r := GuardarRespuesta(db, Some(token), Items(items));
      if r.response.Ok? then Submission(Thanked, r.db) else Submission(Alerted(r.response.error), r.db)
  }

  // ----- loading -----

  /** A request the page sends to the service while loading. */
  datatype Call = ValidarTokenCall | PreguntasCall

  /** How loading ends, with the requests made on the way. */
  datatype Loaded =
    | Redirected(calls: seq<Call>)
    | LoadFailed(calls: seq<Call>)
    | Welcome(calls: seq<Call>, token: Token, saludo: string, controller: Controller)

  const DefaultName := "Estimado Cliente"

  /**
   * Page load with the URL's `token` parameter: validate the token, greet
   * the customer, fetch the questions. A missing token redirects before any
   * request, a refused token redirects, and a missing question list fails.
   */
  function Load(tokenParam: Option<string>, db: Db): (l: Loaded)
    ensures l == Redirected([]) <==> !Present(tokenParam)
    ensures l == Redirected([ValidarTokenCall]) <==>
      Present(tokenParam) && !(Usable(db, tokenParam.value) && db.encuestas[tokenParam.value].idCliente in db.clientes)
    ensures l.Redirected? ==> l.calls == [] || l.calls == [ValidarTokenCall]
    ensures l.LoadFailed? <==>
      Present(tokenParam) && ValidarToken(db, tokenParam).response.Ok? && db.preguntas == []
    ensures l.LoadFailed? ==> l.calls == [ValidarTokenCall, PreguntasCall]
    ensures l.Welcome? <==>
      Present(tokenParam) && ValidarToken(db, tokenParam).response.Ok? && db.preguntas != []
    ensures l.Welcome? ==> Some(l.token) == tokenParam && Usable(db, l.token)
    ensures l.Welcome? ==>
      var owner := db.encuestas[l.token].idCliente;
      && l.calls == [ValidarTokenCall, PreguntasCall]
      && l.controller == Start(db.preguntas)
      && Valid(l.controller)
      && AnswersInCatalog(l.controller)
      && l.saludo == (if Present(db.clientes[owner]) then db.clientes[owner].value else DefaultName)
  {
    if !Present(tokenParam) then Redirected([])
    else
      var v := ValidarToken(db, tokenParam).response;
      if v.Error? then Redirected([ValidarTokenCall])
      else
        var saludo := if Present(v.body.nombreCliente) then v.body.nombreCliente.value else DefaultName;
        var p := ObtenerPreguntas(db).response;
        if p.Error? || |p.body| == 0 then LoadFailed([ValidarTokenCall, PreguntasCall])
        else Welcome([ValidarTokenCall, PreguntasCall], tokenParam.value, saludo, Start(p.body))
  }

  /** An accepted submission stores answers only to questions the page loaded. */
  lemma SubmittedAnswersInCatalog(c: Controller, token: Token, db: Db)
    requires Valid(c) && AnswersInCatalog(c)
    requires Submit(c, token, db).result == Thanked
    ensures forall i :: |db.respuestas| <= i < |Submit(c, token, db).db.respuestas| ==>
      Submit(c, token, db).db.respuestas[i].idPregunta in Ids(c.preguntas)
  {
    var s := Submit(c, token, db);
    var items := Pack(c.respuestas);
    forall i | |db.respuestas| <= i < |s.db.respuestas|
      ensures s.db.respuestas[i].idPregunta in Ids(c.preguntas)
    {
      var k := i - |db.respuestas|;
      assert s.db.respuestas[|db.respuestas| + k].idPregunta == items[k].idPregunta;
      assert Get(c.respuestas, items[k].idPregunta).Some?;
    }
  }

  /**
   * A whole session: after a successful load and any user actions, a
   * submission is either blocked for lack of answers (nothing sent) or
   * accepted, storing only answers to loaded questions; after an accepted
   * submission the same link only redirects.
   */
  lemma SessionCompletes(tokenParam: Option<string>, db: Db, es: seq<Event>)
    requires Load(tokenParam, db).Welcome?
    requires EnabledRun(Load(tokenParam, db).controller, es)
    ensures Valid(Replay(Load(tokenParam, db).controller, es))
    ensures
      var l := Load(tokenParam, db);
      var c := Replay(l.controller, es);
      var s := Submit(c, l.token, db);
      && (s.result == Blocked || s.result == Thanked)
      && (s.result == Thanked ==>
            && (forall i :: |db.respuestas| <= i < |s.db.respuestas| ==> s.db.respuestas[i].idPregunta in Ids(db.preguntas))
            && Load(tokenParam, s.db) == Redirected([ValidarTokenCall]))
  {
    var l := Load(tokenParam, db);
    var c := Replay(l.controller, es);
    ReplayKeepsInvariant(l.controller, es);
    if Submit(c, l.token, db).result == Thanked {
      SubmittedAnswersInCatalog(c, l.token, db);
    }
  }
}
