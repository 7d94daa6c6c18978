/**
 * The survey service's request handlers (the `/generar-links`,
 * `/validar-token`, `/preguntas`, `/guardar-respuesta` and `/encuesta`
 * routes), each a total function from a request and the store to a
 * response and the next store.
 */
module Routes {
  import opened Wrappers
  import opened Store

  /** The JSON answer of a route: a 200 body, or an error status with its message. */
  datatype Response<T> = Ok(body: T) | Error(status: int, error: string)

  /** A response together with the store after the request. */
  datatype Reply<T> = Reply(response: Response<T>, db: Db)

  /** One generated link: the customer and the survey URL carrying the token. */
  datatype Enlace = Enlace(idCliente: int, enlace: string)

  /** The identity `validar-token` reports for a usable token; the name may be NULL. */
  datatype Cliente = Cliente(idCliente: int, nombreCliente: Option<string>)

  /** The 200 body of `generar-links`: its message and the links. */
  datatype Generated = Generated(message: string, enlaces: seq<Enlace>)

  /** The `respuestas` field of a submission body: absent, not an array, or an array of pairs. */
  datatype Payload = Missing | NotArray | Items(items: seq<Answer>)

  const BadRequest := 400
  const NotFound := 404

  const LinkBase := "http://localhost:3000/encuesta?token="
  const PageFile := "index.html"

  const NoNewCustomers := "No hay clientes nuevos para generar encuestas."
  const LinksGenerated := "Enlaces generados correctamente"
  const TokenMissing := "Token no proporcionado"
  const TokenRejected := "Token inválido o encuesta ya respondida"
  const NoQuestions := "No hay preguntas registradas"
  const IncompleteData := "Datos incompletos"
  const AnswersSaved := "Respuestas guardadas correctamente"
  const PageTokenRequired := "\U{274C} Error: Token requerido."
  const PageTokenInvalid := "\U{274C} Error: Token inválido."
  const PageAlreadyAnswered := "\U{274C} Error: Encuesta ya respondida."

  /**
   * A nullable string is truthy in JavaScript: present and not the empty
   * string. This is the `!token` test of the handlers and the page, the
   * `escala_respuesta` test of the page and its `nombre_cliente || …` fallback.
   */
  predicate Present(field: Option<string>) {
    field.Some? && field.value != ""
  }

  /** What `randomBytes(16).toString("hex")` produces: 32 lower-case hexadecimal digits. */
  predicate HexToken(t: Token) {
    |t| == 32 && forall i :: 0 <= i < |t| ==> t[i] in "0123456789abcdef"
  }

  /**
   * The environment of one `generar-links` call: `order` is the row order in
   * which the database lists the customers without a survey (each exactly
   * once), and `draws` are the random tokens, one per listed customer,
   * distinct and not already in use.
   */
  predicate FreshBatch(db: Db, order: seq<int>, draws: seq<Token>) {
    && |order| == |draws|
    && (forall i, j :: 0 <= i < j < |order| ==> order[i] != order[j])
    && (forall i :: 0 <= i < |order| ==> order[i] in Pending(db))
    && (forall c :: c in Pending(db) ==> c in order)
    && (forall i, j :: 0 <= i < j < |draws| ==> draws[i] != draws[j])
    && (forall i :: 0 <= i < |draws| ==> draws[i] !in db.encuestas && HexToken(draws[i]))
  }

  /** The insert loop of `generar-links`: one unanswered survey row per listed customer. */
  function Issue(enc: map<Token, Survey>, order: seq<int>, draws: seq<Token>): (enc': map<Token, Survey>)
    requires |order| == |draws|
    requires forall i, j :: 0 <= i < j < |draws| ==> draws[i] != draws[j]
    requires forall i :: 0 <= i < |draws| ==> draws[i] !in enc
    ensures forall t :: t in enc' <==> t in enc || t in draws
    ensures forall t :: t in enc ==> enc'[t] == enc[t]
    ensures forall i :: 0 <= i < |draws| ==> enc'[draws[i]] == Survey(order[i], false)
    decreases |order|
  {
    if order == [] then enc
    else
      var enc1 := enc[draws[0] := Survey(order[0], false)];
      var r := Issue(enc1, order[1..], draws[1..]);
      assert forall i :: 1 <= i < |draws| ==> draws[i] == draws[1..][i - 1];
      assert forall t :: t in draws <==> t == draws[0] || t in draws[1..];
      r
  }

  /** The links reported for the issued tokens, in the same order. */
  function Links(order: seq<int>, draws: seq<Token>): (links: seq<Enlace>)
    requires |order| == |draws|
    ensures |links| == |order|
    ensures forall i :: 0 <= i < |links| ==>
      && links[i].idCliente == order[i]
      && LinkBase <= links[i].enlace
      && links[i].enlace[|LinkBase|..] == draws[i]
  {
    seq(|order|, i requires 0 <= i < |order| => Enlace(order[i], LinkBase + draws[i]))
  }

  /** `POST /generar-links`. */
  function GenerarLinks(db: Db, order: seq<int>, draws: seq<Token>): (r: Reply<Generated>)
    requires FreshBatch(db, order, draws)
    ensures r.response.Error? <==> Pending(db) == {}
    ensures r.response.Error? ==> r.response == Error(BadRequest, NoNewCustomers) && r.db == db
    ensures r.response.Ok? ==>
      && r.db.clientes == db.clientes
      && r.db.preguntas == db.preguntas
      && r.db.respuestas == db.respuestas
      && (forall t :: t in r.db.encuestas <==> t in db.encuestas || t in draws)
      && (forall t :: t in db.encuestas ==> r.db.encuestas[t] == db.encuestas[t])
      && (forall i :: 0 <= i < |draws| ==> r.db.encuestas[draws[i]] == Survey(order[i], false))
      && r.response.body == Generated(LinksGenerated, Links(order, draws))
  {
    if |order| == 0 then
      assert forall c :: c !in Pending(db);
      Reply(Error(BadRequest, NoNewCustomers), db)
    else
      assert order[0] in Pending(db);
      Reply(Ok(Generated(LinksGenerated, Links(order, draws))), db.(encuestas := Issue(db.encuestas, order, draws)))
  }

  /** The rows of `SELECT … FROM Encuestas_Clientes JOIN Clientes WHERE token = t AND respondida = 0`. */
  function UnansweredWithCustomer(db: Db, t: Token): (rows: seq<Cliente>)
    ensures |rows| <= 1
    ensures rows != [] <==> Usable(db, t) && db.encuestas[t].idCliente in db.clientes
    ensures rows != [] ==> rows[0].idCliente == db.encuestas[t].idCliente
    ensures rows != [] ==> rows[0].nombreCliente == db.clientes[rows[0].idCliente]
  {
    if t in db.encuestas && !db.encuestas[t].respondida && db.encuestas[t].idCliente in db.clientes
    then [Cliente(db.encuestas[t].idCliente, db.clientes[db.encuestas[t].idCliente])]
    else []
  }

  /** `GET /validar-token?token=…`. */
  function ValidarToken(db: Db, token: Option<string>): (r: Reply<Cliente>)
    ensures r.db == db
    ensures !Present(token) ==> r.response == Error(BadRequest, TokenMissing)
    ensures Present(token) ==>
      (r.response.Ok? <==> Usable(db, token.value) && db.encuestas[token.value].idCliente in db.clientes)
    ensures Present(token) && r.response.Error? ==> r.response == Error(BadRequest, TokenRejected)
    ensures r.response.Ok? ==>
      var owner := db.encuestas[token.value].idCliente;
      r.response.body == Cliente(owner, db.clientes[owner])
  {
    if !Present(token) then Reply(Error(BadRequest, TokenMissing), db)
    else
      var rows := UnansweredWithCustomer(db, token.value);
      if |rows| == 0 then Reply(Error(BadRequest, TokenRejected), db)
      else Reply(Ok(rows[0]), db)
  }

  /** `GET /preguntas`. */
  function ObtenerPreguntas(db: Db): (r: Reply<seq<Question>>)
    ensures r.db == db
    ensures r.response.Error? <==> db.preguntas == []
    ensures r.response.Error? ==> r.response == Error(NotFound, NoQuestions)
    ensures r.response.Ok? ==> r.response.body == db.preguntas
  {
    var rows := db.preguntas;
    if |rows| == 0 then Reply(Error(NotFound, NoQuestions), db) else Reply(Ok(rows), db)
  }

  /** The submission passes the input check: a token and a non-empty array of answers. */
  predicate WellFormed(token: Option<string>, respuestas: Payload) {
    Present(token) && respuestas.Items? && |respuestas.items| > 0
  }

  /** The rows of `SELECT id_cliente FROM Encuestas_Clientes WHERE token = t AND respondida = 0`. */
  function UnansweredOwner(db: Db, t: Token): (rows: seq<int>)
    ensures |rows| <= 1
    ensures rows != [] <==> Usable(db, t)
    ensures rows != [] ==> rows[0] == db.encuestas[t].idCliente
  {
    if t in db.encuestas && !db.encuestas[t].respondida then [db.encuestas[t].idCliente] else []
  }

  /** The insert loop of `guardar-respuesta`: one answer row per submitted pair, in order. */
  function Record(rows: seq<AnswerRow>, idCliente: int, items: seq<Answer>): (rows': seq<AnswerRow>)
    ensures |rows'| == |rows| + |items|
    ensures rows <= rows'
    ensures forall i :: 0 <= i < |items| ==>
      rows'[|rows| + i] == AnswerRow(idCliente, items[i].idPregunta, items[i].respuesta)
    decreases |items|
  {
    if items == [] then rows
    else
      var r := Record(rows + [AnswerRow(idCliente, items[0].idPregunta, items[0].respuesta)], idCliente, items[1..]);
      assert forall i :: 1 <= i < |items| ==> items[i] == items[1..][i - 1];
      r
  }

  /** `POST /guardar-respuesta` with body `{token, respuestas}`. */
  function GuardarRespuesta(db: Db, token: Option<string>, respuestas: Payload): (r: Reply<string>)
    ensures !WellFormed(token, respuestas) ==> r == Reply(Error(BadRequest, IncompleteData), db)
    ensures WellFormed(token, respuestas) && !Usable(db, token.value) ==>
      r == Reply(Error(BadRequest, TokenRejected), db)
    ensures r.response.Ok? <==> WellFormed(token, respuestas) && Usable(db, token.value)
    ensures r.response.Ok? ==>
      var t := token.value;
      var owner := db.encuestas[t].idCliente;
      var items := respuestas.items;
      && r.response.body == AnswersSaved
      && r.db.clientes == db.clientes
      && r.db.preguntas == db.preguntas
      && r.db.encuestas == db.encuestas[t := Survey(owner, true)]
      && |r.db.respuestas| == |db.respuestas| + |items|
      && db.respuestas <= r.db.respuestas
      && (forall i :: 0 <= i < |items| ==>
            r.db.respuestas[|db.respuestas| + i] == AnswerRow(owner, items[i].idPregunta, items[i].respuesta))
  {
    if !Present(token) || !respuestas.Items? || |respuestas.items| == 0 then
      Reply(Error(BadRequest, IncompleteData), db)
    else
      var t := token.value;
      var rows := UnansweredOwner(db, t);
      if |rows| == 0 then Reply(Error(BadRequest, TokenRejected), db)
      else
        var idCliente := rows[0];
        var stored := Record(db.respuestas, idCliente, respuestas.items);
        Reply(Ok(AnswersSaved), db.(respuestas := stored, encuestas := db.encuestas[t := db.encuestas[t].(respondida := true)]))
  }

  /** The rows of `SELECT id_cliente, respondida FROM Encuestas_Clientes WHERE token = t`. */
  function SurveyRows(db: Db, t: Token): (rows: seq<Survey>)
    ensures |rows| <= 1
    ensures rows != [] <==> t in db.encuestas
    ensures rows != [] ==> rows[0] == db.encuestas[t]
  {
    if t in db.encuestas then [db.encuestas[t]] else []
  }

  /** `GET /encuesta?token=…`: the survey page for an unanswered token. */
  function ServirEncuesta(db: Db, token: Option<string>): (r: Reply<string>)
    ensures r.db == db
    ensures !Present(token) ==> r.response == Error(BadRequest, PageTokenRequired)
    ensures Present(token) && token.value !in db.encuestas ==> r.response == Error(NotFound, PageTokenInvalid)
    ensures Present(token) && token.value in db.encuestas && db.encuestas[token.value].respondida ==>
      r.response == Error(BadRequest, PageAlreadyAnswered)
    ensures r.response.Ok? <==> Present(token) && Usable(db, token.value)
    ensures r.response.Ok? ==> r.response.body == PageFile
  {
    if !Present(token) then Reply(Error(BadRequest, PageTokenRequired), db)
    else
      var rows := SurveyRows(db, token.value);
      if |rows| == 0 then Reply(Error(NotFound, PageTokenInvalid), db)
      else if rows[0].respondida then Reply(Error(BadRequest, PageAlreadyAnswered), db)
      else Reply(Ok(PageFile), db)
  }
}
