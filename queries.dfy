/**
 * The query functions of the data-access layer, with the database itself
 * abstracted away: what each builds (its SQL text and the values it binds,
 * with their PDO types) and how it maps the outcome of running the
 * statement to what its caller sees.
 *
 * Running a prepared statement is an `Executor`: given the handle and the
 * statement it either yields rows or raises a `PDOException` (the
 * connection is opened with `ERRMODE_EXCEPTION`). The connection a
 * function works on is the outcome of `getDBConnection()`, passed in.
 */
module Queries {
  import opened Wrappers
  import opened Php
  import opened Connection
  import opened SqlLike

  /** The PDO type a value is bound with: `PDO::PARAM_STR` (the default) or `PDO::PARAM_INT`. */
  datatype ParamType = ParamStr | ParamInt

  /** One `bindValue($key, $value, $type)`. */
  datatype Binding = Binding(key: string, value: PhpValue, kind: ParamType)

  /** A prepared statement with the values bound to its placeholders. */
  datatype Statement = Statement(sql: string, bindings: seq<Binding>)

  /** A fetched row, column name to value. */
  type Row = map<string, PhpValue>

  /** What running a statement does on the server. */
  datatype ExecOutcome = Executed(rows: seq<Row>) | Failed(message: string)

  type Executor = (Handle, Statement) -> ExecOutcome

  /**
   * `$stmt->execute(); return $stmt->fetchAll();` on the read path: the
   * rows, or the `PDOException`, which reaches the caller.
   */
  function FetchAll(outcome: ExecOutcome): (r: Outcome<seq<Row>>)
    ensures outcome.Executed? <==> r.Returned?
    ensures r.Returned? ==> r.value == outcome.rows
    ensures r.Threw? ==> r.exception == PDOException(outcome.message)
  {
    match outcome
    case Executed(rows) => Returned(rows)
    case Failed(m) => Threw(PDOException(m))
  }

  // ---------------------------------------------------------------------
  // obtenerJuegosDisponibles

  const ListGamesBase: string := "SELECT * FROM" + " vista_juegos_completa" + " WHERE 1=1"
  const CategoryFilter: string := " AND categoria = :categoria"
  const RatingOrderAndLimit: string := " ORDER BY" + " calificacion_promedio DESC" + " LIMIT :limite"
  const CategoriaKey: string := ":categoria"
  const LimiteKey: string := ":limite"

  /**
   * The SQL text and parameter array `obtenerJuegosDisponibles` assembles:
   * the category filter and its parameter only for a truthy category, then
   * always the ordering and limit with the `:limite` parameter.
   */
  function ListGamesQuery(limite: PhpValue, categoria: PhpValue): (string, PhpArray)
  {
    if Truthy(categoria) then
      (ListGamesBase + CategoryFilter + RatingOrderAndLimit,
       [(CategoriaKey, categoria), (LimiteKey, limite)])
    else
      (ListGamesBase + RatingOrderAndLimit, [(LimiteKey, limite)])
  }

  /**
   * What the assembled query says: the text contains the category filter
   * exactly when the category is truthy, right after the base text, and
   * `:categoria` is a parameter exactly then; the ordering and limit
   * always end the text, `:limite` is always the last parameter, bound to
   * the given limit, and no key is repeated.
   */
  lemma ListGamesQueryShape(limite: PhpValue, categoria: PhpValue)
    ensures var (sql, params) := ListGamesQuery(limite, categoria);
      && sql[..|ListGamesBase|] == ListGamesBase
      && (Contains(sql, CategoryFilter) <==> Truthy(categoria))
      && (Truthy(categoria) <==> CategoryFilter <= sql[|ListGamesBase|..])
      && |RatingOrderAndLimit| <= |sql|
      && sql[|sql| - |RatingOrderAndLimit|..] == RatingOrderAndLimit
      && (CategoriaKey in Keys(params) <==> Truthy(categoria))
      && Lookup(params, CategoriaKey) == (if Truthy(categoria) then Some(categoria) else None)
      && Lookup(params, LimiteKey) == Some(limite)
      && params[|params| - 1] == (LimiteKey, limite)
      && DistinctKeys(params)
  {
    var (sql, params) := ListGamesQuery(limite, categoria);
    if Truthy(categoria) {
      assert sql[|ListGamesBase|..] == CategoryFilter + RatingOrderAndLimit;
      assert CategoryFilter <= sql[|ListGamesBase|..];
      assert Keys(params) == [CategoriaKey, LimiteKey];
    } else {
      assert sql[|ListGamesBase|..] == RatingOrderAndLimit;
      UnfilteredQueryHasNoFilter();
      assert Keys(params) == [LimiteKey];
    }
  }

  /**
   * The text run for a falsy category holds the category filter nowhere:
   * the filter's "AND" has an `N`, which that text lacks.
   */
  lemma UnfilteredQueryHasNoFilter()
    ensures !Contains(ListGamesBase + RatingOrderAndLimit, CategoryFilter)
  {
    var sql := ListGamesBase + RatingOrderAndLimit;
    assert CategoryFilter[2] == 'N';
    assert 'N' !in ListGamesBase && 'N' !in RatingOrderAndLimit;
    assert forall k :: 0 <= k <= |sql| ==> !(CategoryFilter <= sql[k..]);
  }

  /**
   * Building the text and the array step by step, as the source does:
   * start from the base query and an empty array, append the filter and
   * assign `:categoria` when the category is truthy, then append the
   * ordering and assign `:limite`.
   */
  method BuildListGamesQuery(limite: PhpValue, categoria: PhpValue)
    returns (sql: string, params: PhpArray)
    ensures (sql, params) == ListGamesQuery(limite, categoria)
  {
    sql := ListGamesBase;
    params := [];
    if Truthy(categoria) {
      sql := sql + CategoryFilter;
      params := Assign(params, CategoriaKey, categoria);
      assert params == [(CategoriaKey, categoria)];
      assert LimiteKey[1] != CategoriaKey[1];
      assert Keys(params) == [CategoriaKey];
    }
    sql := sql + RatingOrderAndLimit;
    params := Assign(params, LimiteKey, limite);
    assert sql == ListGamesQuery(limite, categoria).0;
    assert params == ListGamesQuery(limite, categoria).1;
  }

  /** How the binding loop binds one entry: `:limite` as an integer, anything else with the default type. */
  function BindingFor(key: string, value: PhpValue): Binding
  {
    Binding(key, value, if key == LimiteKey then ParamInt else ParamStr)
  }

  /** The bindings the loop makes, one per array entry, in array order. */
  function Bindings(params: PhpArray): (bs: seq<Binding>)
    ensures |bs| == |params|
    ensures forall i :: 0 <= i < |params| ==> bs[i] == BindingFor(params[i].0, params[i].1)
  {
    seq(|params|, i requires 0 <= i < |params| => BindingFor(params[i].0, params[i].1))
  }

  /** How many bindings are made for `key`. */
  function CountKey(bs: seq<Binding>, key: string): nat
  {
    if bs == [] then 0 else (if bs[0].key == key then 1 else 0) + CountKey(bs[1..], key)
  }

  /**
   * With no repeated key, the loop binds every key of the array exactly
   * once and nothing else; `:limite` is the one bound as an integer.
   */
  lemma {:induction false} BindsEachKeyOnce(params: PhpArray, key: string)
    requires DistinctKeys(params)
    ensures CountKey(Bindings(params), key) == if key in Keys(params) then 1 else 0
    ensures forall i :: 0 <= i < |params| ==>
              (Bindings(params)[i].kind == ParamInt <==> params[i].0 == LimiteKey)
    decreases |params|
  {
    if params != [] {
      var bs := Bindings(params);
      assert bs[1..] == Bindings(params[1..]);
      assert Keys(params) == [params[0].0] + Keys(params[1..]);
      BindsEachKeyOnce(params[1..], key);
      if params[0].0 == key {
        assert key !in Keys(params[1..]);
      }
    }
  }

  /** `foreach ($params as $key => $value)` with its `bindValue` calls. */
  method BindParams(params: PhpArray) returns (bindings: seq<Binding>)
    ensures bindings == Bindings(params)
  {
    bindings := [];
    var i := 0;
    while i < |params|
      invariant 0 <= i <= |params|
      invariant bindings == Bindings(params[..i])
    {
      var (key, value) := params[i];
      if key == LimiteKey {
        bindings := bindings + [Binding(key, value, ParamInt)];
      } else {
        bindings := bindings + [Binding(key, value, ParamStr)];
      }
      i := i + 1;
      assert params[..i] == params[..i - 1] + [params[i - 1]];
    }
    assert params[..i] == params;
  }

  /** The statement `obtenerJuegosDisponibles` runs. */
  function ListGamesStatement(limite: PhpValue, categoria: PhpValue): Statement
  {
    var (sql, params) := ListGamesQuery(limite, categoria);
    Statement(sql, Bindings(params))
  }

  /**
   * The statement binds `:limite` once, as an integer, and `:categoria`
   * once, as a string, exactly when the category is truthy.
   */
  lemma ListGamesBindings(limite: PhpValue, categoria: PhpValue)
    ensures var st := ListGamesStatement(limite, categoria);
      && CountKey(st.bindings, LimiteKey) == 1
      && CountKey(st.bindings, CategoriaKey) == (if Truthy(categoria) then 1 else 0)
      && st.bindings[|st.bindings| - 1] == Binding(LimiteKey, limite, ParamInt)
      && (Truthy(categoria) ==> st.bindings[0] == Binding(CategoriaKey, categoria, ParamStr))
  {
    var (sql, params) := ListGamesQuery(limite, categoria);
    ListGamesQueryShape(limite, categoria);
    BindsEachKeyOnce(params, LimiteKey);
    BindsEachKeyOnce(params, CategoriaKey);
  }

  /**
   * `obtenerJuegosDisponibles($limite = 10, $categoria = null)`: a
   * connection error or a `PDOException` reaches the caller; otherwise the
   * rows the server returns for the assembled statement.
   */
  method ObtenerJuegosDisponibles(conn: Outcome<Handle>, exec: Executor,
                                  limite: PhpValue := Int(10), categoria: PhpValue := Null)
    returns (r: Outcome<seq<Row>>)
    ensures conn.Threw? ==> r == Threw(conn.exception)
    ensures conn.Returned? ==> r == FetchAll(exec(conn.value, ListGamesStatement(limite, categoria)))
  {
    if conn.Threw? {
      return Threw(conn.exception);
    }
    var sql, params := BuildListGamesQuery(limite, categoria);
    var bindings := BindParams(params);
    r := FetchAll(exec(conn.value, Statement(sql, bindings)));
  }

  // ---------------------------------------------------------------------
  // buscarJuegos

  const SearchSql: string :=
    "SELECT * FROM vista_juegos_completa \n"
    + "            WHERE titulo LIKE :termino \n"
    + "               OR descripcion_corta LIKE :termino \n"
    + "               OR categoria LIKE :termino \n"
    + "               OR desarrollador LIKE :termino\n"
    + "            ORDER BY calificacion_promedio DESC \n"
    + "            LIMIT :limite"
  const TerminoKey: string := ":termino"

  /**
   * `"%$termino%"`: the term between two `%`, and nothing else done to it;
   * the term can be read back from between them.
   */
  function SearchPattern(termino: string): (p: string)
    ensures |p| == |termino| + 2
    ensures p[0] == '%' && p[|p| - 1] == '%'
    ensures p[1..|p| - 1] == termino
  {
    "%" + termino + "%"
  }

  /** The statement `buscarJuegos` runs: the pattern bound as a string, the limit as an integer. */
  function SearchStatement(termino: string, limite: PhpValue): (st: Statement)
    ensures st.sql == SearchSql
    ensures st.bindings == [Binding(TerminoKey, Str(SearchPattern(termino)), ParamStr),
                            Binding(LimiteKey, limite, ParamInt)]
  {
    Statement(SearchSql, [Binding(TerminoKey, Str(SearchPattern(termino)), ParamStr),
                          Binding(LimiteKey, limite, ParamInt)])
  }

  /** The search condition the statement's WHERE clause applies to one row. */
  predicate SearchCondition(titulo: string, descripcion: string, categoria: string,
                            desarrollador: string, pattern: string)
  {
    Like(titulo, pattern) || Like(descripcion, pattern)
    || Like(categoria, pattern) || Like(desarrollador, pattern)
  }

  /**
   * For a term without wildcards, a row matches exactly when one of the
   * four columns contains the term.
   */
  lemma SearchFindsLiteralTerm(titulo: string, descripcion: string, categoria: string,
                               desarrollador: string, termino: string)
    requires Literal(termino)
    ensures SearchCondition(titulo, descripcion, categoria, desarrollador, SearchPattern(termino))
            <==> Contains(titulo, termino) || Contains(descripcion, termino)
                 || Contains(categoria, termino) || Contains(desarrollador, termino)
  {
    SurroundedLiteralMatchesSubstring(titulo, termino);
    SurroundedLiteralMatchesSubstring(descripcion, termino);
    SurroundedLiteralMatchesSubstring(categoria, termino);
    SurroundedLiteralMatchesSubstring(desarrollador, termino);
  }

  /**
   * The term is not escaped: a `_` in it still matches any character, so
   * searching for "_" matches a row whose title is "VR" although "VR" does
   * not contain "_".
   */
  lemma SearchTermWildcardsAreLive()
    ensures SearchCondition("VR", "", "", "", SearchPattern("_"))
    ensures !Contains("VR", "_")
  {
    var p := SearchPattern("_");
    assert p == "%_%";
    assert p[1..] == "_%";
    assert p[1..][1..] == "%";
    PercentMatchesAll("R");
    assert Like("VR"[1..], p[1..][1..]);
    assert Like("VR", p[1..]);
    forall k | 0 <= k <= 2
      ensures !("_" <= "VR"[k..])
    {
      assert "VR"[0..] == "VR" && "VR"[1..] == "R" && "VR"[2..] == "";
    }
  }

  /**
   * `buscarJuegos($termino, $limite = 10)`: a connection error or a
   * `PDOException` reaches the caller; otherwise the rows the server
   * returns for the search statement.
   */
  function BuscarJuegos(conn: Outcome<Handle>, exec: Executor, termino: string,
                        limite: PhpValue := Int(10)): (r: Outcome<seq<Row>>)
    ensures conn.Threw? ==> r == Threw(conn.exception)
    ensures conn.Returned? ==> r == FetchAll(exec(conn.value, SearchStatement(termino, limite)))
  {
    match conn
    case Threw(e) => Threw(e)
    case Returned(h) => FetchAll(exec(h, SearchStatement(termino, limite)))
  }

  // ---------------------------------------------------------------------
  // agregarReseña and aplicarDescuentoJuego

  const InsertReviewSql: string :=
    "INSERT INTO reseñas (id_juego, nombre_usuario, email_usuario, calificacion, comentario) \n"
    + "                VALUES (:id_juego, :nombre_usuario, :email_usuario, :calificacion, :comentario)"
  const ApplyDiscountSql: string := "CALL AplicarDescuento(:id_juego, :porcentaje)"

  /**
   * `$stmt->execute($array)`: every value of the array is bound, in order,
   * as a string.
   */
  function ExecuteWithArray(sql: string, params: PhpArray): (st: Statement)
    ensures st.sql == sql && |st.bindings| == |params|
    ensures forall i :: 0 <= i < |params| ==>
              st.bindings[i] == Binding(params[i].0, params[i].1, ParamStr)
  {
    Statement(sql, seq(|params|, i requires 0 <= i < |params| => Binding(params[i].0, params[i].1, ParamStr)))
  }

  /**
   * The write path's `try`/`catch (PDOException)`: a connection error was
   * raised before the `try` and reaches the caller; once connected, the
   * call answers `true` when the statement runs and `false` when it raises,
   * and never throws.
   */
  function CatchingWrite(conn: Outcome<Handle>, exec: Executor, st: Statement): (r: Outcome<bool>)
    ensures conn.Threw? ==> r == Threw(conn.exception)
    ensures conn.Returned? ==> r.Returned?
    ensures r == Returned(true) <==> conn.Returned? && exec(conn.value, st).Executed?
    ensures r == Returned(false) <==> conn.Returned? && exec(conn.value, st).Failed?
  {
    match conn
    case Threw(e) => Threw(e)
    case Returned(h) => Returned(exec(h, st).Executed?)
  }

  /** The insert `agregarReseña` runs, with its five values in order. */
  function ReviewStatement(idJuego: PhpValue, nombreUsuario: PhpValue, calificacion: PhpValue,
                           comentario: PhpValue, email: PhpValue): Statement
  {
    ExecuteWithArray(InsertReviewSql,
      [(":id_juego", idJuego), (":nombre_usuario", nombreUsuario), (":email_usuario", email),
       (":calificacion", calificacion), (":comentario", comentario)])
  }

  /**
   * `agregarReseña($id_juego, $nombre_usuario, $calificacion, $comentario,
   * $email = null)`.
   */
  function AgregarResena(conn: Outcome<Handle>, exec: Executor, idJuego: PhpValue,
                         nombreUsuario: PhpValue, calificacion: PhpValue, comentario: PhpValue,
                         email: PhpValue := Null): (r: Outcome<bool>)
    ensures conn.Threw? ==> r == Threw(conn.exception)
    ensures conn.Returned? ==> r.Returned?
    ensures r == Returned(true) <==>
              conn.Returned? && exec(conn.value, ReviewStatement(idJuego, nombreUsuario, calificacion, comentario, email)).Executed?
    ensures r == Returned(false) <==>
              conn.Returned? && exec(conn.value, ReviewStatement(idJuego, nombreUsuario, calificacion, comentario, email)).Failed?
  {
    CatchingWrite(conn, exec, ReviewStatement(idJuego, nombreUsuario, calificacion, comentario, email))
  }

  /** The stored-procedure call `aplicarDescuentoJuego` runs. */
  function DiscountStatement(idJuego: PhpValue, porcentaje: PhpValue): Statement
  {
    ExecuteWithArray(ApplyDiscountSql, [(":id_juego", idJuego), (":porcentaje", porcentaje)])
  }

  /** `aplicarDescuentoJuego($id_juego, $porcentaje)`; the percentage is not checked here. */
  function AplicarDescuentoJuego(conn: Outcome<Handle>, exec: Executor, idJuego: PhpValue,
                                 porcentaje: PhpValue): (r: Outcome<bool>)
    ensures conn.Threw? ==> r == Threw(conn.exception)
    ensures conn.Returned? ==> r.Returned?
    ensures r == Returned(true) <==> conn.Returned? && exec(conn.value, DiscountStatement(idJuego, porcentaje)).Executed?
    ensures r == Returned(false) <==> conn.Returned? && exec(conn.value, DiscountStatement(idJuego, porcentaje)).Failed?
  {
    CatchingWrite(conn, exec, DiscountStatement(idJuego, porcentaje))
  }

  /**
   * The two write functions bind their integers as strings, unlike the
   * read functions: `execute` with an array gives every value the default
   * type.
   */
  lemma WritesBindAsStrings(idJuego: PhpValue, nombreUsuario: PhpValue, calificacion: PhpValue,
                            comentario: PhpValue, email: PhpValue, porcentaje: PhpValue)
    ensures forall b :: b in ReviewStatement(idJuego, nombreUsuario, calificacion, comentario, email).bindings
              ==> b.kind == ParamStr
    ensures forall b :: b in DiscountStatement(idJuego, porcentaje).bindings ==> b.kind == ParamStr
    ensures DiscountStatement(idJuego, porcentaje).bindings
              == [Binding(":id_juego", idJuego, ParamStr), Binding(":porcentaje", porcentaje, ParamStr)]
  {
  }
}
