/** Two complete sessions worked through on concrete data. */
module Scenarios {
  import opened Wrappers
  import opened Text
  import opened Entries
  import opened Store
  import opened Routes
  import opened SurveyPage

  const SampleToken := "0123456789abcdef0123456789abcdef"

  /** A store with one customer holding an unanswered survey and the given catalog. */
  function OneCustomer(preguntas: seq<Question>): (db: Db)
    ensures Usable(db, SampleToken)
  {
    Db(map[1 := Some("Ana")], map[SampleToken := Survey(1, false)], preguntas, [])
  }

  const Rating := Question(1, "Rate us", Some("Bad,OK,Good"))

  /** The rating question offers its three labels. */
  lemma RatingOptions()
    ensures Options(Rating) == ["Bad", "OK", "Good"]
  {
    var labels := ["Bad", "OK", "Good"];
    assert labels[1..][1..] == ["Good"];
    assert Join(labels[1..], ',') == "OK,Good";
    assert Join(labels, ',') == "Bad,OK,Good";
    SplitJoin(labels, ',');
  }

  /** A single answer packs into a single pair. */
  lemma PackSingle(k: int, v: string)
    ensures Pack([Entry(k, v)]) == [Answer(k, v)]
  {
    var items := Pack([Entry(k, v)]);
    assert items[0] == Answer(k, v);
  }

  /** The sample link opens the survey with a greeting for Ana and the first question. */
  lemma LoadSample(preguntas: seq<Question>)
    requires preguntas != []
    ensures Load(Some(SampleToken), OneCustomer(preguntas))
      == Welcome([ValidarTokenCall, PreguntasCall], SampleToken, "Ana", Start(preguntas))
  {
  }

  /** Submitting a single answer on a usable token stores just that answer and closes the survey. */
  lemma SubmitSingle(c: Controller, t: Token, db: Db, k: int, v: string)
    requires c.respuestas == [Entry(k, v)]
    requires t != "" && Usable(db, t) && db.respuestas == []
    ensures Submit(c, t, db).result == Thanked
    ensures Submit(c, t, db).db.respuestas == [AnswerRow(db.encuestas[t].idCliente, k, v)]
    ensures Submit(c, t, db).db.encuestas[t].respondida
  {
    PackSingle(k, v);
    var s := Submit(c, t, db);
    assert s.db.respuestas[0] == AnswerRow(db.encuestas[t].idCliente, k, v);
  }

  /**
   * One scale question "Bad,OK,Good": choosing "Good" and submitting stores
   * exactly that answer for the customer and marks the survey answered.
   */
  lemma ChoiceSession()
    ensures |Options(Rating)| == 3 && Options(Rating)[2] == "Good"
    ensures
      var db := OneCustomer([Rating]);
      var l := Load(Some(SampleToken), db);
      && l.Welcome?
      && l.saludo == "Ana"
      && var c := SelectOption(l.controller, 2);
         var s := Submit(c, l.token, db);
         && s.result == Thanked
         && s.db.respuestas == [AnswerRow(1, 1, "Good")]
         && s.db.encuestas[SampleToken].respondida
  {
    var db := OneCustomer([Rating]);
    RatingOptions();
    LoadSample([Rating]);
    var c := SelectOption(Start([Rating]), 2);
    assert c.respuestas == [Entry(1, "Good")];
    SubmitSingle(c, SampleToken, db, 1, "Good");
  }

  /** One free-text question left blank: submitting is blocked and nothing reaches the service. */
  lemma BlankSession()
    ensures
      var db := OneCustomer([Question(2, "Comments", None)]);
      var l := Load(Some(SampleToken), db);
      && l.Welcome?
      && Render(l.controller).input == TextArea("")
      && Submit(l.controller, l.token, db) == Submission(Blocked, db)
  {
  }

  const Twins := Question(3, "Pick", Some("A,A"))

  /** With a repeated label a click marks one button, but the next rendering marks both copies. */
  lemma RepeatedLabelMarkedTwice()
    ensures Options(Twins) == ["A", "A"]
    ensures
      var c := Start([Twins]);
      var now := ClickedButtons(Render(c).input.buttons, 0);
      var later := Render(SelectOption(c, 0)).input.buttons;
      && now[0].active && !now[1].active
      && later[0].active && later[1].active
  {
    var labels := ["A", "A"];
    assert Join(labels, ',') == "A,A";
    SplitJoin(labels, ',');
    SelectedOptionShownActive(Start([Twins]), 0);
  }
}
