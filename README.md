# JuegosDunz storefront: a Dafny model of its stateful handlers and its query assembly

JuegosDunz is a small storefront for virtual-reality games. Its browser script
wires cosmetic behaviour into static markup, and its PHP layer sends one SQL
statement per function to MySQL through a single PDO connection. This project
models the parts of both that have exact behaviour apart from the browser and
the database, and proves what they promise.

- `konami.dfy` (module `Konami`): the Konami-code easter egg. `KonamiListener`
  holds the `konamiCode` buffer. `KeyDown` pushes the key code, shifts one entry
  out past ten, compares the buffer element by element against the fixed
  ten-code sequence, and empties it on a match. `Step` and `Presses` state the
  same handler on values. The lemmas prove four things. The buffer is the
  window of the last ten codes since the last reset. Activation is exactly
  equality with the sequence. A fresh buffer cannot fire within nine presses.
  Typing the sequence fires on its tenth key and on no earlier one, whatever
  came before.
- `typewriter.dfy` (module `Typewriter`): the hero-title typing effect.
  `TypeWriter.Tick` is one firing of the timer callback. After `k` firings the
  title is the first `min(k, length)` UTF-16 code units of the original, and
  the callback stops rescheduling once the whole title is shown. A character
  outside the Basic Multilingual Plane is two code units, so it takes two
  firings to appear.
- `ui.dfy` (module `Ui`): the menu toggle and in-page navigation (`Page`), the
  target id taken from an `#href`, the header's scroll threshold (`Header`) and
  the notification colour.
- `wrappers.dfy` (module `Wrappers`): the `Option` type the other modules share.
- `php.dfy` (module `Php`): PHP truthiness and string-keyed arrays as ordered
  maps, the parts of PHP the query code relies on.
- `connection.dfy` (module `Connection`): the `DatabaseConnection` singleton.
  The static `$instance` is the field of a `ConnectionSlot`. The PDO driver is a
  function from the connection request to a handle or an error message.
- `like.dfy` (module `SqlLike`): SQL `LIKE` matching with `%` and `_`, with the
  proof that `'%term%'` matches exactly the texts containing a wildcard-free
  term.
- `queries.dfy` (module `Queries`): `obtenerJuegosDisponibles` (assembling the
  SQL text and the parameter array, then the binding loop), `buscarJuegos`
  (the `%…%` pattern), and the two write functions, which turn a
  `PDOException` into `false`. Running a statement is an opaque `Executor`
  that yields rows or raises. A function's connection is the outcome of
  `getDBConnection()`, passed in.

Where the intended design and the code differ, the model follows the code:

- The write functions call `execute` with an array, which binds every value,
  ids and percentage included, as a string. Only the read functions bind
  integers with `PDO::PARAM_INT`.
- The search term is wrapped in `%` but not escaped. A `%` or `_` inside it is
  still a wildcard (`SearchTermWildcardsAreLive`).
- A write function calls `getDBConnection()` before its `try`. A connection
  failure therefore reaches the caller as an `Exception`, even from the write
  path.
- `__wakeup` is a public method with an empty body, so it does not stop
  unserialisation.

## Model

| member | source | states |
|---|---|---|
| Konami.EveryMatches | script.js:238 | `every` over the buffer is true exactly when each code equals the sequence entry at the same index |
| Konami.Presses | script.js:230-270 | feeding a run of keys gives one activation flag per key press |
| Konami.PressesFlags | script.js:230-270 | the flag of each press is the activation the handler gives that key on the buffer the earlier presses left |
| Konami.ActivatesIffKonami | script.js:237-238 | the length test plus the element-wise test holds exactly when the buffer equals the ten-code sequence |
| Konami.StepWindow | script.js:231-268 | if the buffer is the last ten codes since the reset, a press fires exactly when the last ten codes including the new one spell the sequence; the buffer is then empty, and otherwise it is the new window |
| Konami.StepBounded | script.js:231-235 | a press never leaves more than ten codes in the buffer |
| Konami.QuietRunKeepsWindow | script.js:231-235 | over presses none of which fires, the buffer ends as the last min(n, 10) codes received, in arrival order |
| Konami.ShortRunNeverFires | script.js:237-268 | fewer presses than it takes to fill the buffer never fire, and they leave exactly those codes; so after an activation the next one needs ten fresh presses |
| Konami.OnlyLastIsKeyA | script.js:228 | no entry of the sequence before the last equals the last ("KeyA") |
| Konami.NotKeyANeverFires | script.js:237-238 | a press of any key other than "KeyA" never fires |
| Konami.LastKeyFires | script.js:228-238 | after the first nine codes of the sequence, "KeyA" fires |
| Konami.EarlierKeyDoesNotFire | script.js:228-238 | each of the first nine codes of the sequence, typed in order, extends the window and does not fire |
| Konami.KonamiFiresOnTenthKey | script.js:228-268 | typing the whole sequence, from any reachable buffer, fires on its tenth key and on no earlier key |
| Konami.KonamiListener.constructor | script.js:227 | the buffer starts empty |
| Konami.KonamiListener.KeyDown | script.js:230-270 | the handler's new buffer and activation are those of `Step`; the buffer stays within ten codes, is the window of the codes since the last reset, and is emptied exactly on activation |
| Typewriter.TypedIsPrefix | script.js:133-140 | after k firings the title is exactly the first min(k, length) UTF-16 code units of the original |
| Typewriter.TypedCompletes | script.js:135-139 | from the original's length on, the title is the whole original and further firings change nothing |
| Typewriter.TypeWriter.constructor | script.js:130-133 | the original is saved, the title emptied and the counter set to 0 |
| Typewriter.TypeWriter.Tick | script.js:134-140 | a firing appends the next UTF-16 code unit (`charAt(i)`) and reschedules exactly while `i` is below the length; `i` never passes the length and the title is always the prefix of length `i` |
| Ui.ToggleTwiceRestores | script.js:10-13 | two clicks on the toggle restore both `active` flags |
| Ui.HandlersKeepSync | script.js:10-39 | when the menu's and the toggle's flags agree, both handlers keep them agreeing, and navigating clears both |
| Ui.Page.ToggleClick | script.js:10-13 | a click flips the `active` flag of the menu and of the toggle |
| Ui.Page.NavLinkClick | script.js:20-41 | when the target id exists the page scrolls to its offset minus the header height minus 20 and the menu is closed (the toggle's flag is cleared only if the menu was active); otherwise, and always for a bare `#`, nothing changes |
| Ui.TargetId | script.js:23 | the target id is the `href` without its first character, and empty for an empty `href` |
| Ui.TargetIdOfAnchor | script.js:17-23 | the id after `#` in an anchor's `href` is the one looked up |
| Ui.Header.OnScroll | script.js:47-55 | the background is translucent exactly when `scrollY > 50`, and background and backdrop filter are always set as a matching pair |
| Ui.NotificationColour | script.js:317-324 | "#4CAF50" exactly for 'success', "#f44336" exactly for 'error', "#2196F3" exactly for every other type |
| Ui.DefaultNotificationIsInfo | script.js:317 | a notification without a type gets "#2196F3" |
| Php.FalsyValues | config_database.php:87 | `if ($categoria)` is false exactly for null, false, 0, "" and "0" |
| Php.Assign | config_database.php:89-93 | `$params[$key] = $value` makes the key map to the value, keeps every other key's value, and appends when the key is new |
| Php.AssignKeys | config_database.php:85-93 | assigning keeps the array's keys in order and adds a new key at the end |
| Php.AssignKeepsKeysDistinct | config_database.php:85-93 | assigning never duplicates a key |
| Connection.Request | config_database.php:26-33 | the connection uses exception error mode, associative fetches, native prepares and the fixed user and password |
| Connection.ConnectionError | config_database.php:34-35 | a failed connection becomes a plain `Exception` whose message is "Error de conexión a la base de datos: " followed by the driver's message |
| Connection.ConnectionErrorInjective | config_database.php:35 | the driver's message can be recovered from the connection error |
| Connection.DatabaseConnection.Create | config_database.php:24-37 | the constructor yields a new object holding the driver's handle, or throws the connection error |
| Connection.DatabaseConnection.GetConnection | config_database.php:52-54 | returns the instance's handle |
| Connection.ConnectionSlot.constructor | config_database.php:19 | the static instance starts out null |
| Connection.ConnectionSlot.GetInstance | config_database.php:42-47 | constructs only while the instance is null; a set instance is returned unchanged; a failed construction leaves it null; at most one object is ever constructed |
| Connection.ConnectionSlot.GetInstanceTwice | config_database.php:42-47 | once a call has succeeded, the next call returns the same instance whatever the driver would answer |
| Connection.ConnectionSlot.GetDBConnection | config_database.php:70-72 | the handle of the single instance, or the connection error, which is always a plain `Exception` |
| SqlLike.PercentMatchesAll | config_database.php:184 | the pattern `%` matches every text |
| SqlLike.LiteralThenPercent | config_database.php:184 | a wildcard-free term followed by `%` matches exactly the texts that start with the term |
| SqlLike.LeadingPercent | config_database.php:184 | a leading `%` matches when the rest of the pattern matches some suffix |
| SqlLike.SurroundedLiteralMatchesSubstring | config_database.php:175-184 | `s LIKE '%term%'` holds exactly when a wildcard-free term occurs in `s` |
| Queries.FetchAll | config_database.php:106-107 | a read returns the rows, or the `PDOException` reaches the caller |
| Queries.ListGamesQueryShape | config_database.php:84-93 | the text contains the category filter anywhere exactly when the category is truthy, and then right after the base text; `:categoria` is a parameter exactly when the category is truthy; the ordering and limit always end the text; `:limite` is always the last parameter, set to the limit; no key repeats |
| Queries.UnfilteredQueryHasNoFilter | config_database.php:84-92 | the text run for a falsy category contains the category filter nowhere |
| Queries.BuildListGamesQuery | config_database.php:84-93 | building the text and the array step by step gives exactly the query stated by `ListGamesQuery` |
| Queries.Bindings | config_database.php:98-104 | one binding per array entry, in order: `:limite` as an integer, every other key with the default type |
| Queries.BindsEachKeyOnce | config_database.php:98-104 | with distinct keys, every key of the array is bound exactly once and no other key is bound; only `:limite` is bound as an integer |
| Queries.BindParams | config_database.php:98-104 | the binding loop makes exactly the bindings `Bindings` states |
| Queries.ListGamesBindings | config_database.php:84-104 | `:limite` is bound once, as an integer, last; `:categoria` is bound once, as a string, first, exactly when the category is truthy |
| Queries.ObtenerJuegosDisponibles | config_database.php:81-108 | a connection error or a `PDOException` reaches the caller; otherwise the rows the server returns for the assembled statement |
| Queries.SearchPattern | config_database.php:184 | the pattern is the term between two `%`, and the term can be read back from between them |
| Queries.SearchStatement | config_database.php:175-186 | the search runs its fixed SQL with the pattern bound as a string and the limit as an integer |
| Queries.SearchFindsLiteralTerm | config_database.php:175-185 | for a wildcard-free term a row matches exactly when its title, short description, category or developer contains the term |
| Queries.SearchTermWildcardsAreLive | config_database.php:184-185 | the term is not escaped: searching for "_" matches the title "VR", which does not contain "_" |
| Queries.BuscarJuegos | config_database.php:172-190 | a connection error or a `PDOException` reaches the caller; otherwise the rows the server returns for the search statement |
| Queries.ExecuteWithArray | config_database.php:154-160 | `execute($array)` binds every value of the array, in order, as a string |
| Queries.CatchingWrite | config_database.php:149-166 | once connected, a write answers true when the statement runs and false when it raises, and never throws; a connection error reaches the caller |
| Queries.AgregarResena | config_database.php:146-167 | true exactly when the insert runs, false exactly when it raises a `PDOException`, and a connection error reaches the caller |
| Queries.AplicarDescuentoJuego | config_database.php:208-224 | true exactly when the procedure call runs, false exactly when it raises a `PDOException`, and a connection error reaches the caller |
| Queries.WritesBindAsStrings | config_database.php:154-160 | the review insert and the discount call bind every value as a string, the game id and percentage included |

## Left out

- `obtenerJuegoPorId`, `obtenerReseñasJuego` and `obtenerCategorias` are not part of this model.
- What the database does is not modelled: rows, the view's contents, filtering, ordering and limiting by MySQL, and the `AplicarDescuento` procedure's effect on prices. An `Executor` stands for all of it.
- PDO's rules for placeholders are not modelled. The search SQL uses `:termino` four times while the connection turns emulated prepares off (config_database.php:30), and native prepares accept a named placeholder only once, so every `buscarJuegos` call would likely raise a `PDOException`. Nothing was executed to confirm this. `Queries.BuscarJuegos` leaves that answer to the `Executor`, so `SearchFindsLiteralTerm` states which rows the WHERE clause selects, not that a search returns them.
- `SqlLike.Like` compares characters exactly. It leaves out MySQL's case-insensitive collation and the backslash escape character of `LIKE`.
- PDO's conversion of a value bound with `PDO::PARAM_INT` is not modelled. A `Binding` records only the requested type.
- PHP floats and arrays as argument values are not modelled. `PhpValue` covers null, booleans, integers and strings.
- `error_log`, `ini_set`, `date_default_timezone_set` and `error_reporting` are logging and process configuration.
- `__clone` and `__wakeup` are not modelled: copying and unserialising objects are outside the model.
- The timers are not modelled: the 500 ms and 100 ms delays, the easter egg's 3-second removal, and the button loading state. A call of `TypeWriter.Tick` is one firing of the callback.
- The DOM effects are not modelled: hover transforms, `IntersectionObserver`, injected CSS, `console.log`, and the overlay's styling.
- Floating-point animation is not modelled: parallax, ripple geometry, float delays, and `animateNumber`'s easing.
- The header's style values are carried as the strings the handler writes. Beyond `scrollY > 50` and the pairing of the two styles, nothing is modelled.
- A page without `.nav-menu`, `.menu-toggle`, `.header` or `.hero h1` is not modelled. The model assumes the elements exist. `Ui.Page.NavLinkClick` also assumes no element has the empty id, as in the DOM.
