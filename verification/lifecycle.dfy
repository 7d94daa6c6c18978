/**
 * The token lifecycle across requests: what each handler preserves, how
 * the handlers relate to one another, and what holds along any sequence of
 * requests served one after another.
 */
module Lifecycle {
  import opened Wrappers
  import opened Store
  import opened Routes

  /** A request to one of the survey routes. */
  datatype Request =
    | GenerarLinksRequest(order: seq<int>, draws: seq<Token>)
    | ValidarTokenRequest(token: Option<string>)
    | PreguntasRequest
    | GuardarRespuestaRequest(token: Option<string>, respuestas: Payload)
    | EncuestaRequest(token: Option<string>)

  /** The request can be served in this store: a link batch comes with a fresh environment. */
  predicate Admissible(db: Db, req: Request) {
    req.GenerarLinksRequest? ==> FreshBatch(db, req.order, req.draws)
  }

  /** The HTTP status of a response. */
  function StatusOf<T>(r: Response<T>): int {
    if r.Ok? then 200 else r.status
  }

  /** The status a request is answered with and the store after it. */
  datatype Outcome = Outcome(status: int, db: Db)

  /** Serves one request. */
  function Handle(db: Db, req: Request): Outcome
    requires Admissible(db, req)
  {
    match req
    case GenerarLinksRequest(order, draws) =>
      var r := GenerarLinks(db, order, draws); Outcome(StatusOf(r.response), r.db)
    case ValidarTokenRequest(token) =>
      var r := ValidarToken(db, token); Outcome(StatusOf(r.response), r.db)
    case PreguntasRequest =>
      var r := ObtenerPreguntas(db); Outcome(StatusOf(r.response), r.db)
    case GuardarRespuestaRequest(token, respuestas) =>
      var r := GuardarRespuesta(db, token, respuestas); Outcome(StatusOf(r.response), r.db)
    case EncuestaRequest(token) =>
      var r := ServirEncuesta(db, token); Outcome(StatusOf(r.response), r.db)
  }

  // ----- generar-links -----

  /** Every customer owning a survey after link generation owned one before or was pending. */
  lemma SurveyedAfterLinks(db: Db, order: seq<int>, draws: seq<Token>)
    requires FreshBatch(db, order, draws)
    ensures Surveyed(GenerarLinks(db, order, draws).db) <= Surveyed(db) + Pending(db)
  {
    var db' := GenerarLinks(db, order, draws).db;
    forall c | c in Surveyed(db')
      ensures c in Surveyed(db) + Pending(db)
    {
      var t :| t in db'.encuestas && db'.encuestas[t].idCliente == c;
      if t !in db.encuestas {
        var i := NewSurveyIsDraw(db, order, draws, t);
      } else {
        assert db'.encuestas[t] == db.encuestas[t];
      }
    }
  }

  /** After a successful link generation every previously surveyed or pending customer owns a survey. */
  lemma PendingServedByLinks(db: Db, order: seq<int>, draws: seq<Token>)
    requires FreshBatch(db, order, draws)
    requires GenerarLinks(db, order, draws).response.Ok?
    ensures Surveyed(db) + Pending(db) <= Surveyed(GenerarLinks(db, order, draws).db)
  {
    var db' := GenerarLinks(db, order, draws).db;
    forall c | c in Surveyed(db) + Pending(db)
      ensures c in Surveyed(db')
    {
      if c in Pending(db) {
        var i :| 0 <= i < |order| && order[i] == c;
        assert db'.encuestas[draws[i]].idCliente == c;
      } else {
        var t :| t in db.encuestas && db.encuestas[t].idCliente == c;
        assert db'.encuestas[t].idCliente == c;
      }
    }
  }

  /** A link batch gives a survey to exactly the customers that had none, and leaves none pending. */
  lemma GenerarLinksCoversPending(db: Db, order: seq<int>, draws: seq<Token>)
    requires FreshBatch(db, order, draws)
    requires GenerarLinks(db, order, draws).response.Ok?
    ensures Surveyed(GenerarLinks(db, order, draws).db) == Surveyed(db) + Pending(db)
    ensures Pending(GenerarLinks(db, order, draws).db) == {}
  {
    var db' := GenerarLinks(db, order, draws).db;
    SurveyedAfterLinks(db, order, draws);
    PendingServedByLinks(db, order, draws);
    forall c | c in db'.clientes
      ensures c in Surveyed(db')
    {
      assert c in Surveyed(db) || c in Pending(db);
    }
  }

  /** Generating links a second time finds no customer without a survey and changes nothing. */
  lemma GenerarLinksTwice(db: Db, order: seq<int>, draws: seq<Token>)
    requires FreshBatch(db, order, draws)
    ensures
      var db' := GenerarLinks(db, order, draws).db;
      && Pending(db') == {}
      && FreshBatch(db', [], [])
      && GenerarLinks(db', [], []) == Reply(Error(BadRequest, NoNewCustomers), db')
  {
    var r := GenerarLinks(db, order, draws);
    if r.response.Ok? {
      GenerarLinksCoversPending(db, order, draws);
    }
  }

  /** Every issued token validates to its customer and opens the survey page. */
  lemma IssuedTokensWork(db: Db, order: seq<int>, draws: seq<Token>, i: int)
    requires FreshBatch(db, order, draws)
    requires 0 <= i < |draws|
    ensures
      var db' := GenerarLinks(db, order, draws).db;
      && ValidarToken(db', Some(draws[i])).response == Ok(Cliente(order[i], db.clientes[order[i]]))
      && ServirEncuesta(db', Some(draws[i])).response == Ok(PageFile)
  {
    assert order[i] in Pending(db);
    assert |draws[i]| == 32;
  }

  /** A survey row that link generation added belongs to one of the listed customers, unanswered. */
  lemma NewSurveyIsDraw(db: Db, order: seq<int>, draws: seq<Token>, t: Token) returns (i: int)
    requires FreshBatch(db, order, draws)
    requires t in GenerarLinks(db, order, draws).db.encuestas && t !in db.encuestas
    ensures 0 <= i < |draws| && draws[i] == t
    ensures GenerarLinks(db, order, draws).db.encuestas[t] == Survey(order[i], false)
    ensures order[i] in Pending(db)
  {
    i :| 0 <= i < |draws| && draws[i] == t;
  }

  /** Link generation gives no customer a second survey. */
  lemma GenerarLinksOneSurvey(db: Db, order: seq<int>, draws: seq<Token>)
    requires FreshBatch(db, order, draws)
    requires OneSurveyPerCustomer(db)
    ensures OneSurveyPerCustomer(GenerarLinks(db, order, draws).db)
  {
    var db' := GenerarLinks(db, order, draws).db;
    forall t, u | t in db'.encuestas && u in db'.encuestas && t != u
      ensures db'.encuestas[t].idCliente != db'.encuestas[u].idCliente
    {
      if t in db.encuestas && u in db.encuestas {
        assert db'.encuestas[t] == db.encuestas[t] && db'.encuestas[u] == db.encuestas[u];
      } else if t in db.encuestas {
        var j := NewSurveyIsDraw(db, order, draws, u);
        assert db'.encuestas[t] == db.encuestas[t];
        assert db.encuestas[t].idCliente in Surveyed(db);
      } else if u in db.encuestas {
        var i := NewSurveyIsDraw(db, order, draws, t);
        assert db'.encuestas[u] == db.encuestas[u];
        assert db.encuestas[u].idCliente in Surveyed(db);
      } else {
        var i := NewSurveyIsDraw(db, order, draws, t);
        var j := NewSurveyIsDraw(db, order, draws, u);
      }
    }
  }

  /** Link generation only issues surveys to known customers. */
  lemma GenerarLinksOwnersKnown(db: Db, order: seq<int>, draws: seq<Token>)
    requires FreshBatch(db, order, draws)
    requires SurveysHaveCustomers(db)
    ensures SurveysHaveCustomers(GenerarLinks(db, order, draws).db)
  {
    var db' := GenerarLinks(db, order, draws).db;
    forall t | t in db'.encuestas
      ensures db'.encuestas[t].idCliente in db'.clientes
    {
      if t !in db.encuestas {
        var i := NewSurveyIsDraw(db, order, draws, t);
      } else {
        assert db'.encuestas[t] == db.encuestas[t];
      }
    }
  }

  /** Link generation neither answers a survey nor records an answer. */
  lemma GenerarLinksKeepsCompleted(db: Db, order: seq<int>, draws: seq<Token>)
    requires FreshBatch(db, order, draws)
    ensures Completed(GenerarLinks(db, order, draws).db) == Completed(db)
    ensures Answered(GenerarLinks(db, order, draws).db) == Answered(db)
  {
    var db' := GenerarLinks(db, order, draws).db;
    forall c | c in Completed(db')
      ensures c in Completed(db)
    {
      var t :| t in db'.encuestas && db'.encuestas[t].respondida && db'.encuestas[t].idCliente == c;
      if t !in db.encuestas {
        var i := NewSurveyIsDraw(db, order, draws, t);
      }
      assert db'.encuestas[t] == db.encuestas[t];
    }
    forall c | c in Completed(db)
      ensures c in Completed(db')
    {
      var t :| t in db.encuestas && db.encuestas[t].respondida && db.encuestas[t].idCliente == c;
      assert db'.encuestas[t] == db.encuestas[t];
    }
  }

  /** Link generation keeps the store consistent. */
  lemma GenerarLinksConsistent(db: Db, order: seq<int>, draws: seq<Token>)
    requires FreshBatch(db, order, draws)
    requires Consistent(db)
    ensures Consistent(GenerarLinks(db, order, draws).db)
  {
    GenerarLinksOneSurvey(db, order, draws);
    GenerarLinksOwnersKnown(db, order, draws);
    GenerarLinksKeepsCompleted(db, order, draws);
  }

  // ----- validar-token, preguntas, encuesta -----

  /**
   * The `!token` test: every route taking a token refuses a missing or
   * empty one with its own 400 message, before looking at the store, and
   * gives that message for nothing else.
   */
  lemma MissingTokenRefused(db: Db, token: Option<string>, respuestas: Payload)
    ensures ValidarToken(db, token).response == Error(BadRequest, TokenMissing) <==> !Present(token)
    ensures ServirEncuesta(db, token).response == Error(BadRequest, PageTokenRequired) <==> !Present(token)
    ensures !Present(token) ==> GuardarRespuesta(db, token, respuestas) == Reply(Error(BadRequest, IncompleteData), db)
  {
    assert TokenMissing != TokenRejected by { assert TokenMissing[6] != TokenRejected[6]; }
    assert PageTokenRequired != PageTokenInvalid by { assert PageTokenRequired[15] != PageTokenInvalid[15]; }
    assert PageTokenRequired != PageAlreadyAnswered by { assert PageTokenRequired[10] != PageAlreadyAnswered[10]; }
  }

  /** A token that validates also opens the survey page; in a consistent store the converse holds too. */
  lemma ValidatedTokenOpensPage(db: Db, token: Option<string>)
    ensures ValidarToken(db, token).response.Ok? ==> ServirEncuesta(db, token).response.Ok?
    ensures SurveysHaveCustomers(db) && ServirEncuesta(db, token).response.Ok? ==>
      ValidarToken(db, token).response.Ok?
  {
  }

  // ----- guardar-respuesta -----

  /** A token that was answered once is refused by every later submission, which changes nothing. */
  lemma SecondSubmissionRefused(db: Db, t: Token, first: Payload, second: Payload)
    requires GuardarRespuesta(db, Some(t), first).response.Ok?
    ensures
      var db' := GuardarRespuesta(db, Some(t), first).db;
      GuardarRespuesta(db', Some(t), second) == Reply(Error(BadRequest, TokenRejected), db')
        || GuardarRespuesta(db', Some(t), second) == Reply(Error(BadRequest, IncompleteData), db')
  {
  }

  /** An empty answer list is refused and leaves the token usable. */
  lemma EmptySubmissionRefused(db: Db, t: Token)
    requires Usable(db, t)
    ensures GuardarRespuesta(db, Some(t), Items([])) == Reply(Error(BadRequest, IncompleteData), db)
    ensures Usable(GuardarRespuesta(db, Some(t), Items([])).db, t)
  {
  }

  /** "Datos incompletos" is the answer to exactly the submissions that fail the input check. */
  lemma IncompleteDataExactly(db: Db, token: Option<string>, respuestas: Payload)
    ensures GuardarRespuesta(db, token, respuestas).response == Error(BadRequest, IncompleteData)
      <==> !WellFormed(token, respuestas)
  {
    assert IncompleteData != TokenRejected by { assert IncompleteData[0] != TokenRejected[0]; }
  }

  /** Saving answers keeps the store consistent: the answers and the completion mark arrive together. */
  lemma GuardarRespuestaConsistent(db: Db, token: Option<string>, respuestas: Payload)
    requires Consistent(db)
    ensures Consistent(GuardarRespuesta(db, token, respuestas).db)
  {
    var r := GuardarRespuesta(db, token, respuestas);
    if r.response.Ok? {
      var t := token.value;
      var owner := db.encuestas[t].idCliente;
      var items := respuestas.items;
      var db' := r.db;
      assert Completed(db') == Completed(db) + {owner} by {
        forall c | c in Completed(db')
          ensures c in Completed(db) + {owner}
        {
          var u :| u in db'.encuestas && db'.encuestas[u].respondida && db'.encuestas[u].idCliente == c;
          if u != t {
            assert db.encuestas[u] == db'.encuestas[u];
          }
        }
        forall c | c in Completed(db) + {owner}
          ensures c in Completed(db')
        {
          if c == owner {
            assert db'.encuestas[t].respondida && db'.encuestas[t].idCliente == c;
          } else {
            var u :| u in db.encuestas && db.encuestas[u].respondida && db.encuestas[u].idCliente == c;
            assert u != t;
            assert db'.encuestas[u] == db.encuestas[u];
          }
        }
      }
      assert Answered(db') == Answered(db) + {owner} by {
        var n := |db.respuestas|;
        forall c | c in Answered(db')
          ensures c in Answered(db) + {owner}
        {
          var i :| 0 <= i < |db'.respuestas| && db'.respuestas[i].idCliente == c;
          if i < n {
            assert db'.respuestas[i] == db.respuestas[i];
          } else {
            var k := i - n;
            assert db'.respuestas[|db.respuestas| + k] == AnswerRow(owner, items[k].idPregunta, items[k].respuesta);
          }
        }
        forall c | c in Answered(db) + {owner}
          ensures c in Answered(db')
        {
          if c == owner {
            assert db'.respuestas[n + 0].idCliente == owner;
          } else {
            var i :| 0 <= i < n && db.respuestas[i].idCliente == c;
            assert db'.respuestas[i] == db.respuestas[i];
          }
        }
      }
      assert forall u :: u in db'.encuestas ==> u in db.encuestas && db'.encuestas[u].idCliente == db.encuestas[u].idCliente;
    }
  }

  // ----- request sequences -----

  /** Serving any one request only moves the store forward, and keeps it consistent. */
  lemma HandleSafe(db: Db, req: Request)
    requires Admissible(db, req)
    ensures Evolves(db, Handle(db, req).db)
    ensures Consistent(db) ==> Consistent(Handle(db, req).db)
  {
    match req
    case GenerarLinksRequest(order, draws) =>
      if Consistent(db) {
        GenerarLinksConsistent(db, order, draws);
      }
    case GuardarRespuestaRequest(token, respuestas) =>
      if Consistent(db) {
        GuardarRespuestaConsistent(db, token, respuestas);
      }
    case _ =>
  }

  /** Each request of the sequence is admissible when its turn comes. */
  predicate AdmissibleRun(db: Db, reqs: seq<Request>)
    decreases |reqs|
  {
    reqs == [] || (Admissible(db, reqs[0]) && AdmissibleRun(Handle(db, reqs[0]).db, reqs[1..]))
  }

  /** The store after serving the requests one after another. */
  function Run(db: Db, reqs: seq<Request>): Db
    requires AdmissibleRun(db, reqs)
    decreases |reqs|
  {
    if reqs == [] then db else Run(Handle(db, reqs[0]).db, reqs[1..])
  }

  /** The number of requests in the sequence that saved answers for token `t`. */
  function Submissions(db: Db, reqs: seq<Request>, t: Token): nat
    requires AdmissibleRun(db, reqs)
    decreases |reqs|
  {
    if reqs == [] then 0
    else
      var o := Handle(db, reqs[0]);
      var hit := reqs[0].GuardarRespuestaRequest? && reqs[0].token == Some(t) && o.status == 200;
      (if hit then 1 else 0) + Submissions(o.db, reqs[1..], t)
  }

  /** Along any sequence of requests the store only moves forward and stays consistent. */
  lemma {:induction false} RunSafe(db: Db, reqs: seq<Request>)
    requires AdmissibleRun(db, reqs)
    ensures Evolves(db, Run(db, reqs))
    ensures Consistent(db) ==> Consistent(Run(db, reqs))
    decreases |reqs|
  {
    if reqs != [] {
      var db1 := Handle(db, reqs[0]).db;
      HandleSafe(db, reqs[0]);
      RunSafe(db1, reqs[1..]);
      EvolvesTransitive(db, db1, Run(db1, reqs[1..]));
    }
  }

  /** Once a token is answered, no request of any later sequence saves answers for it again. */
  lemma {:induction false} NoSubmissionAfterAnswered(db: Db, reqs: seq<Request>, t: Token)
    requires AdmissibleRun(db, reqs)
    requires t in db.encuestas && db.encuestas[t].respondida
    ensures Submissions(db, reqs, t) == 0
    decreases |reqs|
  {
    if reqs != [] {
      var db1 := Handle(db, reqs[0]).db;
      HandleSafe(db, reqs[0]);
      NoSubmissionAfterAnswered(db1, reqs[1..], t);
    }
  }

  /** Any sequence of requests saves answers for a given token at most once. */
  lemma {:induction false} AtMostOneSubmission(db: Db, reqs: seq<Request>, t: Token)
    requires AdmissibleRun(db, reqs)
    ensures Submissions(db, reqs, t) <= 1
    decreases |reqs|
  {
    if reqs != [] {
      var o := Handle(db, reqs[0]);
      if reqs[0].GuardarRespuestaRequest? && reqs[0].token == Some(t) && o.status == 200 {
        assert o.db.encuestas[t].respondida;
        NoSubmissionAfterAnswered(o.db, reqs[1..], t);
      } else {
        AtMostOneSubmission(o.db, reqs[1..], t);
      }
    }
  }

  /**
   * Starting from an empty survey table and no answers, any sequence of
   * requests keeps the customers and questions and leaves the store consistent.
   */
  lemma InitialRunConsistent(clientes: map<int, Option<string>>, preguntas: seq<Question>, reqs: seq<Request>)
    requires AdmissibleRun(Initial(clientes, preguntas), reqs)
    ensures Run(Initial(clientes, preguntas), reqs).clientes == clientes
    ensures Run(Initial(clientes, preguntas), reqs).preguntas == preguntas
    ensures Consistent(Run(Initial(clientes, preguntas), reqs))
  {
    RunSafe(Initial(clientes, preguntas), reqs);
  }
}
