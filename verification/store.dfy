/**
 * The survey database as pure state: the customer table, the survey table
 * keyed by token, the question catalog and the append-only answer table.
 */
module Store {
  import opened Wrappers

  /** An opaque survey token; the key of a survey row. */
  type Token = string

  /** A survey row: the customer it was issued to and whether it was answered (`respondida` 0/1). */
  datatype Survey = Survey(idCliente: int, respondida: bool)

  /**
   * A catalog question. `escala` holds the comma-separated choice labels;
   * NULL or the empty string make the question free text.
   */
  datatype Question = Question(idPregunta: int, texto: string, escala: Option<string>)

  /** A stored answer row. */
  datatype AnswerRow = AnswerRow(idCliente: int, idPregunta: int, respuesta: string)

  /** One submitted `{id_pregunta, respuesta}` pair. */
  datatype Answer = Answer(idPregunta: int, respuesta: string)

  /**
   * The store: customers by id with their name (`nombre_cliente`, which may
   * be NULL), surveys by token, the question catalog and the answer rows.
   */
  datatype Db = Db(
    clientes: map<int, Option<string>>,
    encuestas: map<Token, Survey>,
    preguntas: seq<Question>,
    respuestas: seq<AnswerRow>)

  /** The customers that already own a survey row. */
  function Surveyed(db: Db): set<int> {
    set t | t in db.encuestas :: db.encuestas[t].idCliente
  }

  /** The customers that do not own a survey row yet. */
  function Pending(db: Db): set<int> {
    set id | id in db.clientes && id !in Surveyed(db)
  }

  /** The token names a survey that has not been answered: it may still be used. */
  predicate Usable(db: Db, t: Token) {
    t in db.encuestas && !db.encuestas[t].respondida
  }

  /** The customers owning an answered survey. */
  function Completed(db: Db): set<int> {
    set t | t in db.encuestas && db.encuestas[t].respondida :: db.encuestas[t].idCliente
  }

  /** The customers with at least one stored answer. */
  function Answered(db: Db): set<int> {
    set i | 0 <= i < |db.respuestas| :: db.respuestas[i].idCliente
  }

  /** No customer owns two survey rows. */
  predicate OneSurveyPerCustomer(db: Db) {
    forall t, u :: t in db.encuestas && u in db.encuestas && t != u ==>
      db.encuestas[t].idCliente != db.encuestas[u].idCliente
  }

  /** Every survey row belongs to a known customer. */
  predicate SurveysHaveCustomers(db: Db) {
    forall t :: t in db.encuestas ==> db.encuestas[t].idCliente in db.clientes
  }

  /**
   * The store's invariant: one survey per customer, every survey owned by a
   * customer, and a customer has answers on record exactly when their
   * survey is marked answered (answers and completion appear together).
   */
  predicate Consistent(db: Db) {
    && OneSurveyPerCustomer(db)
    && SurveysHaveCustomers(db)
    && Completed(db) == Answered(db)
  }

  /**
   * How the store may change between two moments: customers and questions
   * stay, answers are only appended, no survey row disappears or changes
   * owner, and an answered survey stays answered.
   */
  predicate Evolves(db: Db, db': Db) {
    && db'.clientes == db.clientes
    && db'.preguntas == db.preguntas
    && db.respuestas <= db'.respuestas
    && (forall t :: t in db.encuestas ==>
          && t in db'.encuestas
          && db'.encuestas[t].idCliente == db.encuestas[t].idCliente
          && (db.encuestas[t].respondida ==> db'.encuestas[t].respondida))
  }

  /** The empty store with a given customer table and question catalog. */
  function Initial(clientes: map<int, Option<string>>, preguntas: seq<Question>): (db: Db)
    ensures Consistent(db)
    ensures Pending(db) == clientes.Keys
  {
    var db := Db(clientes, map[], preguntas, []);
    assert Surveyed(db) == {};
    db
  }

  /** `Evolves` composes. */
  lemma EvolvesTransitive(a: Db, b: Db, c: Db)
    requires Evolves(a, b) && Evolves(b, c)
    ensures Evolves(a, c)
  {
  }
}
