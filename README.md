# Per-user event registry — Dafny model

This project models the back end of a small HTTP service. Users register with
an e-mail and a password and log in to get a bearer token. With that token they
create, list, read, update and delete *eventos*: conferences, seminars,
congresses and courses, attended in person or online. Every event belongs to
the user who created it. Only that user can see, change or delete it.

The model has these modules:

- `Enums` (`enums.dfy`): the closed enumerations `Categoria` (`CONFERENCIA`,
  `SEMINARIO`, `CONGRESO`, `CURSO`) and `Forma` (`PRESENCIAL`, `VIRTUAL`). Each
  has a label function and a parser, and the two are proved to round-trip.
- `Eventos` (`eventos.dfy`): the `Evento` row and the JSON request body, where
  each key may be absent. It also has the parsed body (`Patch`), the rule that
  builds a row at creation (`Created`) and the merge-patch rule of an update
  (`Merge`), with its algebraic properties. `ColumnValue` is what a
  `varchar(n)` column stores: PostgreSQL refuses a longer value unless
  everything past the `n`th character is spaces, and then cuts it to `n`
  characters. `StoreRow` applies it to the event row's `String(100)` fields,
  and `Registry.Register` applies it to the `String(100)` e-mail and the
  `String(50)` password.
- `Query` (`query.dfy`): the list query as pure functions. It filters the rows
  by owner and sorts them by `fechaInicio`, newest first. This module proves
  the result is exactly the owner's rows in non-increasing order, and that the
  order is unique when start times are distinct.
- `Http` (`http.dfy`): the handler replies (each constructor notes its status code), and the
  token (an opaque value carrying the identity).
- `App` (`registry.dfy`): class `Registry`, which holds the user table
  (`usuarios`, e-mail to password), the event table (`eventos`, id to row) and
  the next id. It has one method per handler. Each event handler takes the caller's
  identity, the one its bearer token carries, as a plain string; registration
  and login take the request body alone. Each
  state-changing handler states its whole new state. Each one also keeps the
  invariant `Valid()`: rows are keyed by their own id, ids are never reissued,
  every owner is a registered user, and every value fits its column.

Behaviour of the code that the model keeps:

- The enum labels are the Spanish value strings of `EventoCat` and `EventoForm`.
- Access by a non-owner answers 401 "No tiene acceso a este evento".
- A duplicate registration answers 200 with only a message.
- A wrong password answers 200 with only a message.
- A create request with a missing key or a bad label ends in a 500. The
  handler does no validation of its own: a missing key raises `KeyError`, and
  the database refuses an unknown enum label.
- A value longer than its column but only by trailing spaces is stored cut.
  Registration then answers with a token for the e-mail as written, which is
  not the stored key, so logging in with the same body answers 404.
- The owner of a new event is the caller's identity as the `usuario_email`
  column stores it, and the foreign key to the user table is checked on that
  stored value. A token whose identity is cut by that column therefore creates
  events that it is then refused (401), and that its own listing leaves out.

## Model

| member | source | states |
|---|---|---|
| `Enums.ParseCategoria` | API/app.py:35-39 | a category label reads to the value whose label it is; exactly the four value strings are accepted, and any other string is refused, since no value has it as its label |
| `Enums.ParseForma` | API/app.py:41-43 | a modality label reads to the value whose label it is; exactly the two value strings are accepted, and any other string is refused |
| `Enums.CategoriaLabel` | API/app.py:73 | a category is dumped by value as one of the four value strings of `EventoCat` |
| `Enums.FormaLabel` | API/app.py:74 | a modality is dumped by value as one of the two value strings of `EventoForm` |
| `Enums.CategoriaLabelInjective` | API/app.py:35-39 | distinct categories have distinct labels |
| `Enums.FormaLabelInjective` | API/app.py:41-43 | distinct modalities have distinct labels |
| `Enums.CategoriaRoundTrip` | API/app.py:73 | serialising a category by value and reading it back gives the same category |
| `Enums.FormaRoundTrip` | API/app.py:74 | serialising a modality by value and reading it back gives the same modality |
| `Eventos.Fits` | API/app.py:54-61 | the row's `nombre`, `lugar`, `direccion` and `usuario_email` fit their `String(100)` columns |
| `Eventos.Complete` | API/app.py:94-100 | all seven keys that the create handler reads are present |
| `Eventos.ColumnValue` | API/app.py:48-49 | a `varchar(n)` value is stored as is when it fits, cut to its first `n` characters when only spaces lie past them, and refused otherwise; what is stored always fits |
| `Eventos.StoreRow` | API/app.py:54-61 | the event row as its columns store it: refused exactly when one of its four text fields is, otherwise a row that fits, equal to the input except for cut trailing spaces, and the input itself when it already fits; each text field of a stored row is what its column stores for the input's field |
| `Eventos.TrailingSpacesCut` | API/app.py:54 | a 100-character `nombre` followed by a space is stored without the space |
| `Eventos.ParsePatch` | API/app.py:123-136 | reading a body fails exactly when a present `categoria` or `forma` is not a label; otherwise every writable key keeps its presence and value, and `id`/`usuario_email` are dropped |
| `Eventos.Merge` | API/app.py:123-136 | merge patch: a present field overwrites, an absent one keeps its value, `id` and the owner never change |
| `Eventos.Created` | API/app.py:93-102 | a created row has the assigned id, the caller as owner and the body's seven fields; patching it with the same body changes nothing |
| `Eventos.MergeEmpty` | API/app.py:123-136 | an update with an empty body leaves the row identical |
| `Eventos.MergeLugarOnly` | API/app.py:127-128 | a body carrying only `lugar` changes only `lugar` |
| `Eventos.MergeIdempotent` | API/app.py:123-136 | repeating an update with the same body changes nothing more |
| `Eventos.MergeThen` | API/app.py:123-136 | two updates in a row equal one update in which the later keys win |
| `Eventos.MergeComplete` | API/app.py:93-102 | an update carrying all seven keys yields the row that a create with that body would build for the same id and owner |
| `Query.TableRows` | API/app.py:53 | the table's rows in a range of ids, each exactly once and in increasing id order |
| `Query.IncreasingIsDistinct` | API/app.py:53 | rows with strictly increasing primary keys contain no row twice |
| `Query.OwnedBy` | API/app.py:87 | `filter_by(usuario_email=...)`: exactly the rows of that owner, each as often as in the input, none added; all rows when all are the owner's |
| `Query.InsertByStart` | API/app.py:87 | inserting into a list ordered by descending start keeps it ordered and adds exactly that row |
| `Query.SortByStartDesc` | API/app.py:87 | `order_by(desc(fechaInicio))`: a permutation of its input in non-increasing start order |
| `Query.Listing` | API/app.py:86-88 | the listing holds exactly the owner's rows, each as often as in the table and none invented, in non-increasing start order |
| `Query.SortedPermutationUnique` | API/app.py:87 | with distinct start times, the descending order of a set of rows is unique |
| `Query.ListingDeterminedByStart` | API/app.py:86-88 | for one owner with distinct start times, the listing is the strictly descending arrangement of their rows |
| `Query.ListingNewestFirst` | API/app.py:86-88 | three events with start times T1 < T2 < T3 are listed as T3, T2, T1 |
| `App.MergeFields` | API/app.py:123-136 | assigning the present keys one by one gives `Merge` of the parsed body, and fails exactly when a label is unknown |
| `App.Registry.Valid` | API/app.py:47-61 | rows are stored under their own primary key, no id is issued twice, every owner is a registered user (the foreign key), and e-mails, passwords and text fields fit their columns |
| `App.Registry.constructor` | API/app.py:47-61 | an empty user table, an empty event table, ids starting at 1 |
| `App.Registry.ListEvents` | API/app.py:84-88 | exactly the caller's events, none twice, newest start first; changes nothing |
| `App.Registry.CreateEvent` | API/app.py:90-105 | with all seven keys, valid labels, an id within the 32-bit column, text values its columns accept and an owner that, as its column stores the caller, is a registered e-mail, it adds the stored row (trailing spaces cut) under a never-issued id, owned by the caller as the column stores it whatever the body says, answers with that row and advances the counter by one; otherwise 500, with the table and the counter unchanged; other users' events are untouched |
| `App.Registry.GetEvent` | API/app.py:108-114 | 404 exactly when the id is unknown, 401 exactly when another user owns it, the row exactly when the caller owns it; changes nothing |
| `App.Registry.PutEvent` | API/app.py:116-138 | 404 or 401 with no change; for the owner, the row becomes its merge with the body as the columns store it, or 500 with no change when a label is unknown or a column refuses a value; every other row, the ids and the owner are untouched |
| `App.Registry.DeleteEvent` | API/app.py:140-148 | 404 or 401 with no change; for the owner, exactly that id is removed and 204 returned |
| `App.Registry.Register` | API/app.py:151-169 | a known e-mail gets a message, no token and no change; a new one is stored, with its password, as the columns store them, and gets a token bound to the e-mail as written; a missing key gives 500; a value a column refuses, or an e-mail whose stored form is already a key, gives 500 with "Ha ocurrido un error"; no change on any failure |
| `App.Registry.Login` | API/app.py:172-183 | 404 for an unknown e-mail, a message without token for a wrong password, a token bound to the e-mail for the right one; changes nothing |
| `App.CreateThenGet` | API/app.py:91-114 | a create succeeds exactly when `CreateEvent` says it does, and its row is owned by the caller as the owner column stores it; reading it back with the same identity returns the created event when the identity fits that column, and 401 when the column cut it |
| `App.RegisterCreateGet` | API/app.py:91-165 | with the token of a successful registration, a created event is read back when the e-mail fits its column, and refused with 401 when the column cut it |
| `App.PaddedEmailLockedOut` | API/app.py:91-165 | on an empty registry, a 100-character e-mail followed by a space registers, creates an event and is refused that event with 401 |
| `App.RegisterStoredKey` | API/app.py:151-165 | corrected registration: the token carries the e-mail as the user table stores it, and that e-mail is a key of the table, bound to the stored password |
| `App.RegisterStoredKeyCreateGet` | API/app.py:91-165 | with the corrected token, every well-formed create succeeds and the creator reads back exactly the event it created |
| `App.RegisterTwice` | API/app.py:152-167 | after a successful registration, the same registration issues no token and adds no row: it answers the duplicate message, or 500 when the e-mail was cut by its column |
| `App.RegisterThenLogin` | API/app.py:152-181 | after a successful registration, login with the same credentials issues a token bound to the e-mail when both values fit their columns; 404 when the e-mail was cut; the wrong-password message when the password was cut |

## Left out

- Environment loading, the Flask, Marshmallow and JWT manager set-up, and route registration (API/app.py:13-31, 188-193): configuration and I/O.
- Token signing and verification (the bearer tokens of RFC 7519 and RFC 6750): a token is modelled as a value carrying its identity. `@jwt_required` becomes the caller identity argument of each event handler. A request with a missing or forged token is rejected before any handler runs, so no handler models it.
- The SQLAlchemy session, the queries and the commits: replaced by the two maps and the id counter. Each handler runs alone and to completion; concurrency between requests is not modelled.
- App.Registry.CreateEvent: the counter advances only when an insert succeeds. A PostgreSQL sequence can also use up a value on an insert that then fails. Both never reuse an id, but the model does not reproduce such gaps. The end of the 32-bit id sequence is modelled: past 2147483647 every create answers 500.
- Timestamps are integers supplied by the request. The parsing of date strings and the `datetime.now` column defaults (API/app.py:58-59) are not modelled, because the create handler always supplies both dates.
- JSON `null` values in a request body, and JSON formatting beyond the enum labels: a present key always carries a value of the field's type.
- The `except` branches of registration and login (API/app.py:168-169, 182-183) are modelled only for the failures the model can name: an e-mail or password that exceeds its column by more than spaces, or an e-mail whose cut form is already a key. A failure of the store or of token issuance is not modelled.
- PostgreSQL refuses any string that contains the character U+0000, and the handler then answers 500. This happens at the commit of a create or an update, at the e-mail lookup of registration (API/app.py:153, outside the `try`) and at that of login (API/app.py:173). The model accepts such strings in every handler; for example, it registers such an e-mail.
- Passwords are stored and compared in plain text, as the code does; no hashing is modelled.
- `Usuario_schema` (API/app.py:65-70) is not used by any handler, so it is not modelled.

## Findings

| source | as written | input that shows it | evidently intended | confidence | as-written member | corrected member |
|---|---|---|---|---|---|---|
| API/app.py:92-165 | registration issues a token for the e-mail as the request wrote it, while the user table stores it cut by its `String(100)` column; a create stores that identity cut in the same way, and a read compares the stored owner with the uncut identity | an e-mail of 100 letters followed by one space: registration, then a create with the token, then a read of the created id | the token names the user as stored, so the creator reads back its own events | high, not executed | `App.PaddedEmailLockedOut` | `App.RegisterStoredKeyCreateGet` |

The handlers of `App.Registry` keep the behaviour as written. `App.RegisterStoredKey` is the corrected registration, built on `App.Registry.Register`, and `App.RegisterStoredKeyCreateGet` proves that its token reads back every event it creates.
