/**
 * `DatabaseConnection`: one PDO handle per process, created on the first
 * call of `getInstance` from fixed settings and handed out on every later
 * call.
 *
 * The PDO driver is not modelled: a `Driver` is the answer the driver gives
 * to a connection request, either a handle or the message of the
 * `PDOException` it raises. PHP's static `$instance` property is the field
 * of a `ConnectionSlot` object, since Dafny has no static fields.
 */
module Connection {

  /** An open PDO handle; only its identity matters here. */
  datatype Handle = Handle(id: nat)

  /** The two kinds of exception the data-access functions can raise. */
  datatype Exception =
    | PDOException(message: string)      // raised by PDO itself
    | GeneralException(message: string)  // a plain `Exception`, raised by the constructor

  /** What a PHP call does: return a value or throw an exception to its caller. */
  datatype Outcome<T> = Returned(value: T) | Threw(exception: Exception)

  const DbHost: string := "localhost"
  const DbName: string := "tienda_vr_dunz"
  const DbUser: string := "root"
  const DbPass: string := ""
  const DbCharset: string := "utf8mb4"

  /** The PDO attributes the constructor sets. */
  datatype PdoOptions = PdoOptions(errModeException: bool, fetchAssoc: bool, emulatePrepares: bool)

  /** The arguments of `new PDO(...)`. */
  datatype ConnectRequest = ConnectRequest(dsn: string, user: string, password: string, options: PdoOptions)

  /** The data source name: MySQL driver, host, database and character set. */
  function Dsn(): string
  {
    "mysql:host=" + DbHost + ";dbname=" + DbName + ";charset=" + DbCharset
  }

  /** The one request the constructor ever makes. */
  function Request(): (req: ConnectRequest)
    ensures req.options.errModeException && req.options.fetchAssoc && !req.options.emulatePrepares
    ensures req.user == DbUser && req.password == DbPass
  {
    ConnectRequest(Dsn(), DbUser, DbPass, PdoOptions(true, true, false))
  }

  /** How the driver answers a connection request. */
  datatype DriverOutcome = Connected(handle: Handle) | DriverFailed(message: string)

  type Driver = ConnectRequest -> DriverOutcome

  const ConnectionErrorPrefix: string := "Error de conexión a la base de datos: "

  /**
   * The exception a failed connection is turned into: a plain `Exception`
   * whose message is the fixed prefix followed by the driver's message,
   * which can be read back after the prefix.
   */
  function ConnectionError(driverMessage: string): (e: Exception)
    ensures e.GeneralException?
    ensures |e.message| == |ConnectionErrorPrefix| + |driverMessage|
    ensures e.message[..|ConnectionErrorPrefix|] == ConnectionErrorPrefix
    ensures e.message[|ConnectionErrorPrefix|..] == driverMessage
  {
    GeneralException(ConnectionErrorPrefix + driverMessage)
  }

  /** Different driver messages give different connection errors. */
  lemma ConnectionErrorInjective(m1: string, m2: string)
    requires ConnectionError(m1) == ConnectionError(m2)
    ensures m1 == m2
  {
    calc {
      m1;
      ConnectionError(m1).message[|ConnectionErrorPrefix|..];
      ConnectionError(m2).message[|ConnectionErrorPrefix|..];
      m2;
    }
  }

  /** An instance of `DatabaseConnection`, holding its PDO handle. */
  class DatabaseConnection {
    const connection: Handle

    /**
     * The private constructor: ask the driver for a connection; on failure
     * rethrow as `ConnectionError`. Only a successful call yields an object.
     */
    static method Create(driver: Driver) returns (r: Outcome<DatabaseConnection>)
      ensures driver(Request()).Connected? ==>
                r.Returned? && fresh(r.value) && r.value.connection == driver(Request()).handle
      ensures driver(Request()).DriverFailed? ==>
                r == Threw(ConnectionError(driver(Request()).message))
    {
      var answer := driver(Request());
      if answer.Connected? {
        var c := new DatabaseConnection.Init(answer.handle);
        r := Returned(c);
      } else {
        r := Threw(ConnectionError(answer.message));
      }
    }

    constructor Init(h: Handle)
      ensures connection == h
    {
      connection := h;
    }

    /** `getConnection()`. */
    function GetConnection(): (h: Handle)
      ensures h == connection
    {
      connection
    }
  }

  /**
   * The static property `DatabaseConnection::$instance`. The ghost field
   * `constructions` counts the objects `getInstance` has created.
   */
  class ConnectionSlot {
    var instance: DatabaseConnection?
    ghost var constructions: nat

    /** At most one object is ever created, and it is the one stored. */
    ghost predicate Valid()
      reads this
    {
      constructions <= 1 && (instance == null <==> constructions == 0)
    }

    /** The property starts out `null`. */
    constructor ()
      ensures Valid() && instance == null && constructions == 0
    {
      instance := null;
      constructions := 0;
    }

    /**
     * `getInstance()`: construct only while the property is null. A failed
     * construction leaves it null, so a later call tries again; once set it
     * is returned unchanged by every call.
     */
    method GetInstance(driver: Driver) returns (r: Outcome<DatabaseConnection>)
      requires Valid()
      modifies this
      ensures Valid()
      ensures old(instance) != null ==>
                r.Returned? && r.value == old(instance) && instance == old(instance)
                && constructions == old(constructions)
      ensures old(instance) == null && driver(Request()).Connected? ==>
                r.Returned? && fresh(r.value) && instance == r.value
                && r.value.connection == driver(Request()).handle && constructions == 1
      ensures old(instance) == null && driver(Request()).DriverFailed? ==>
                r == Threw(ConnectionError(driver(Request()).message))
                && instance == null && constructions == 0
    {
      if instance == null {
        var created := DatabaseConnection.Create(driver);
        if created.Returned? {
          instance := created.value;
          constructions := constructions + 1;
        }
        r := created;
      } else {
        r := Returned(instance);
      }
    }

    /**
     * Two calls in a row: whatever the driver would answer the second time,
     * a first call that succeeded fixes the instance both calls return.
     */
    method GetInstanceTwice(first: Driver, second: Driver)
      returns (r1: Outcome<DatabaseConnection>, r2: Outcome<DatabaseConnection>)
      requires Valid()
      modifies this
      ensures Valid() && constructions <= 1
      ensures r1.Returned? ==> r2 == r1 && instance == r1.value
    {
      r1 := GetInstance(first);
      r2 := GetInstance(second);
    }

    /**
     * `getDBConnection()`: the handle of the single instance, or the
     * connection error, which reaches the caller.
     */
    method GetDBConnection(driver: Driver) returns (r: Outcome<Handle>)
      requires Valid()
      modifies this
      ensures Valid()
      ensures old(instance) != null ==> r.Returned? && r.value == old(instance).connection
      ensures old(instance) == null && driver(Request()).Connected? ==>
                r == Returned(driver(Request()).handle)
      ensures old(instance) == null && driver(Request()).DriverFailed? ==>
                r == Threw(ConnectionError(driver(Request()).message))
      ensures r.Threw? ==> r.exception.GeneralException?
    {
      var inst := GetInstance(driver);
      match inst
      case Returned(c) => r := Returned(c.GetConnection());
      case Threw(e) => r := Threw(e);
    }
  }
}
