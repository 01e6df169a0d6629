// The database access point: one manager per process, holding the path of
// the database file and a session opened on first use, and the rule that
// keeps the run-wide parameters recorded in the database consistent with
// what the user asks for.
//
// The database engine is not modelled: an engine is the URL it would be
// created with, and a session is an object that records what it was asked
// to do.  The rows of `db_parameter` a session sees are given when the
// session is opened.

module SqlManager {
  import opened Runtime
  import opened Schema
  import opened Constants

  /** The `db_parameter` table: each row under its parameter name. */
  type ParameterTable = map<string, DBParameter>

  /** Every row is filed under its own name. */
  predicate Keyed(table: ParameterTable)
  {
    forall name :: name in table ==> table[name].parameterName == name
  }

  /** The outcome of `check_db_parameter` and the table it leaves. */
  datatype Checked = Checked(outcome: Outcome, table: ParameterTable)

  /**
   * `check_db_parameter`: an absent parameter is inserted as a boolean with
   * the user's value; a present one must hold that same value, or the run
   * is aborted with SNPnetException and nothing is written.
   */
  function CheckParameter(table: ParameterTable, name: string, userValue: string): (r: Checked)
    ensures r.outcome == Done <==> name !in table || table[name].parameterValue == userValue
    ensures r.outcome.Failed? ==> r.outcome.error == Raised("SNPnetException") && r.table == table
    ensures r.outcome == Done ==> name in r.table && r.table[name].parameterValue == userValue
    ensures r.table.Keys == table.Keys + {name} || r.table == table
    ensures forall k :: k in table ==> k in r.table && r.table[k] == table[k]
  {
    if name !in table then Checked(Done, table[name := DBParameter(name, BOOLEAN_TYPE_STRING, userValue)])
    else if table[name].parameterValue != userValue then Checked(Failed(Raised("SNPnetException")), table)
    else Checked(Done, table)
  }

  /** An inserted row is a boolean parameter filed under its own name. */
  lemma InsertedRow(table: ParameterTable, name: string, userValue: string)
    requires name !in table
    ensures CheckParameter(table, name, userValue).table[name] == DBParameter(name, BOOLEAN_TYPE_STRING, userValue)
  {
  }

  /** The check keeps every row filed under its own name. */
  lemma CheckKeepsKeyed(table: ParameterTable, name: string, userValue: string)
    requires Keyed(table)
    ensures Keyed(CheckParameter(table, name, userValue).table)
  {
  }

  /** Asking twice for the same value: the second check passes and writes nothing. */
  lemma CheckIdempotent(table: ParameterTable, name: string, userValue: string)
    requires CheckParameter(table, name, userValue).outcome == Done
    ensures var once := CheckParameter(table, name, userValue).table;
            CheckParameter(once, name, userValue) == Checked(Done, once)
  {
  }

  /** Once a value is recorded, asking for any other value aborts the run. */
  lemma FirstValueSticks(table: ParameterTable, name: string, first: string, second: string)
    requires CheckParameter(table, name, first).outcome == Done && second != first
    ensures var once := CheckParameter(table, name, first).table;
            CheckParameter(once, name, second) == Checked(Failed(Raised("SNPnetException")), once)
  {
  }

  /** A session: the URL of its engine, the parameter rows it sees, the objects it was asked to delete, and whether it was closed. */
  class Session {
    var url: string
    var parameters: ParameterTable
    var deletions: seq<Value>
    var closed: bool

    constructor(url: string, parameters: ParameterTable)
      ensures this.url == url && this.parameters == parameters
      ensures deletions == [] && !closed
    {
      this.url := url;
      this.parameters := parameters;
      deletions := [];
      closed := false;
    }
  }

  /** `check_db_parameter` on a session: the table the session sees becomes the table the rule leaves. */
  method CheckDbParameter(session: Session, name: string, userValue: string) returns (r: Outcome)
    modifies session
    ensures Checked(r, session.parameters) == CheckParameter(old(session.parameters), name, userValue)
    ensures session.url == old(session.url) && session.deletions == old(session.deletions)
    ensures session.closed == old(session.closed)
  {
    if name !in session.parameters {
      session.parameters := session.parameters[name := DBParameter(name, BOOLEAN_TYPE_STRING, userValue)];
      return Done;
    }
    var dbValue := session.parameters[name].parameterValue;
    if dbValue != userValue {
      return Failed(Raised("SNPnetException"));
    }
    return Done;
  }

  /** `get_engine`: the URL of the database file, or None while no path is set. */
  function EngineUrl(dbPath: Option<string>): (r: Option<string>)
    ensures r.None? <==> dbPath.None?
    ensures r.Some? ==> |r.value| == |PATH_SQL_BASE| + |dbPath.value|
    ensures r.Some? ==> r.value[..|PATH_SQL_BASE|] == PATH_SQL_BASE && r.value[|PATH_SQL_BASE|..] == dbPath.value
  {
    if dbPath.Some? then Some(PATH_SQL_BASE + dbPath.value) else None
  }

  /** Distinct database paths give distinct engines. */
  lemma EngineUrlInjective(a: Option<string>, b: Option<string>)
    requires EngineUrl(a) == EngineUrl(b)
    ensures a == b
  {
    if a.Some? {
      assert EngineUrl(a).value[|PATH_SQL_BASE|..] == a.value;
      assert EngineUrl(b).value[|PATH_SQL_BASE|..] == b.value;
    }
  }

  class SqlManager {
    var dbPath: Option<string>
    var session: Session?

    constructor()
      ensures dbPath == None && session == null
    {
      dbPath := None;
      session := null;
    }

    method SetDbPath(path: string)
      modifies this
      ensures dbPath == Some(path) && session == old(session)
    {
      dbPath := Some(path);
    }

    /**
     * `get_session`: the open session, or a new one on the database file when
     * there is none; with no path set, building the engine URL concatenates a
     * string with None and raises TypeError.  `stored` is the table the
     * database file holds.
     */
    method GetSession(stored: ParameterTable) returns (r: Result<Session>)
      modifies this
      ensures dbPath == old(dbPath)
      ensures old(session) != null ==> r.Ok? && r.value == old(session) && session == old(session)
      ensures old(session) == null && dbPath.None? ==> r == Err(TypeError) && session == null
      ensures old(session) == null && dbPath.Some? ==>
                r.Ok? && fresh(r.value) && session == r.value &&
                Some(r.value.url) == EngineUrl(dbPath) && r.value.parameters == stored &&
                r.value.deletions == [] && !r.value.closed
    {
      if session == null {
        if dbPath.None? {
          return Err(TypeError);
        }
        session := new Session(PATH_SQL_BASE + dbPath.value, stored);
      }
      var current: Session := session;
      return Ok(current);
    }

    /** `close_session`: closes the open session and forgets it; with none open, `None.close` raises AttributeError. */
    method CloseSession() returns (r: Outcome)
      modifies this, session
      ensures dbPath == old(dbPath) && session == null
      ensures old(session) == null ==> r == Failed(AttributeError("close"))
      ensures old(session) != null ==>
                r == Done && old(session).closed && old(session).url == old(session.url) &&
                old(session).parameters == old(session.parameters) &&
                old(session).deletions == old(session.deletions)
    {
      if session == null {
        return Failed(AttributeError("close"));
      }
      session.closed := true;
      session := null;
      return Done;
    }

    /** `get_engine`. */
    function GetEngine(): (r: Option<string>)
      reads this
      ensures r == EngineUrl(dbPath)
    {
      if dbPath != None then Some(PATH_SQL_BASE + dbPath.value) else None
    }

    /** `delete`: None is ignored; anything else is handed to the open session, and with none open `None.delete` raises AttributeError. */
    method Delete(obj: Value) returns (r: Outcome)
      modifies session
      ensures obj == NoneValue ==> r == Done && (session != null ==> session.deletions == old(session.deletions))
      ensures obj != NoneValue && session == null ==> r == Failed(AttributeError("delete"))
      ensures obj != NoneValue && session != null ==> r == Done && session.deletions == old(session.deletions) + [obj]
      ensures session != null ==>
                session.url == old(session.url) && session.parameters == old(session.parameters) &&
                session.closed == old(session.closed)
    {
      if obj != NoneValue {
        if session == null {
          return Failed(AttributeError("delete"));
        }
        session.deletions := session.deletions + [obj];
      }
      return Done;
    }
  }

  /** Two calls to `get_session` with no close between them give the same session. */
  method SessionReused(manager: SqlManager, stored: ParameterTable) returns (first: Result<Session>, second: Result<Session>)
    modifies manager
    ensures first.Ok? ==> second == first
  {
    first := manager.GetSession(stored);
    second := manager.GetSession(stored);
  }

  /** The holder of the process-wide manager, `SqlManager.__instance`. */
  class Registry {
    var instance: SqlManager?

    constructor()
      ensures instance == null
    {
      instance := null;
    }

    /** `get_instance`: creates the manager on the first call and returns that same object on every later one. */
    method GetInstance() returns (r: SqlManager)
      modifies this
      ensures instance == r
      ensures old(instance) != null ==> r == old(instance)
      ensures old(instance) == null ==> fresh(r) && r.dbPath == None && r.session == null
    {
      if instance == null {
        instance := new SqlManager();
      }
      return instance;
    }
  }

  /** Every call to `get_instance` after the first returns the object the first one created. */
  method SingleInstance(registry: Registry) returns (first: SqlManager, second: SqlManager)
    modifies registry
    ensures first == second
  {
    first := registry.GetInstance();
    second := registry.GetInstance();
  }
}
