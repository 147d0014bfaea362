/**
 * The three resources of the service over the user table and the event
 * table. Each event handler takes the caller's identity, the one the bearer
 * token carries, as a plain string; registration and login take the request
 * body alone.
 */
module App {
  import opened Wrappers
  import opened Enums
  import opened Eventos
  import opened Query
  import opened Http

  const NoAccess := "No tiene acceso a este evento"
  const WrongPassword := "Contraseña incorrecta"
  const SessionStarted := "Sesion iniciada"
  const GenericError := "Ha ocurrido un error"

  function AlreadyRegistered(email: string): string {
    "El correo " + email + " ya está registrado"
  }

  function NowRegistered(email: string): string {
    "El correo " + email + " ha sido registrado"
  }

  /** The JSON object of a registration or login request; `None` when the key is absent. */
  datatype Credentials = Credentials(email: Option<string>, pw: Option<string>)

  /** Every event that `caller` does not own is still there, unchanged. */
  ghost predicate OthersUntouched(before: map<int, Evento>, after: map<int, Evento>, caller: string) {
    forall id :: id in before && before[id].usuarioEmail != caller ==> id in after && after[id] == before[id]
  }

  /**
   * The body of `PUT /eventos/<id>`: each key present in the body is
   * assigned to the row in turn. `None` when an enum label is not one of
   * the enum's, which the database refuses at commit.
   */
  method MergeFields(row: Evento, body: EventoBody) returns (r: Option<Evento>)
    ensures r.Some? <==> ParsePatch(body).Some?
    ensures r.Some? ==> r.value == Merge(row, ParsePatch(body).value)
  {
    var ev := row;
    if body.nombre.Some? {
      ev := ev.(nombre := body.nombre.value);
    }
    if body.categoria.Some? {
      var c := ParseCategoria(body.categoria.value);
      if c.None? {
        return None;
      }
      ev := ev.(categoria := c.value);
    }
    if body.lugar.Some? {
      ev := ev.(lugar := body.lugar.value);
    }
    if body.direccion.Some? {
      ev := ev.(direccion := body.direccion.value);
    }
    if body.fechaInicio.Some? {
      ev := ev.(fechaInicio := body.fechaInicio.value);
    }
    if body.fechaFin.Some? {
      ev := ev.(fechaFin := body.fechaFin.value);
    }
    if body.forma.Some? {
      var f := ParseForma(body.forma.value);
      if f.None? {
        return None;
      }
      ev := ev.(forma := f.value);
    }
    r := Some(ev);
  }

  class Registry {
    /** The user table: e-mail to password. */
    var usuarios: map<string, string>
    /** The event table: id to row. */
    var eventos: map<int, Evento>
    /** The id the next created event receives. */
    var nextId: int
    /** Every id ever handed out, including those of deleted events. */
    ghost var issued: set<int>

    ghost predicate Valid()
      reads this
    {
      && 1 <= nextId
      && (forall email :: email in usuarios ==> |email| <= MaxText && |usuarios[email]| <= MaxPw)
      && KeyedById(eventos)
      && eventos.Keys <= issued
      && (forall id :: id in issued ==> 1 <= id < nextId)
      && (forall id :: id in eventos ==> Fits(eventos[id]) && eventos[id].usuarioEmail in usuarios)
    }

    constructor ()
      ensures Valid()
      ensures usuarios == map[] && eventos == map[] && nextId == 1 && issued == {}
    {
      usuarios := map[];
      eventos := map[];
      nextId := 1;
      issued := {};
    }

    /** `GET /eventos`: the caller's events, latest start first; reads only. */
    method ListEvents(caller: string) returns (r: seq<Evento>)
      requires Valid()
      ensures forall e :: e in r <==> e.id in eventos && eventos[e.id] == e && e.usuarioEmail == caller
      ensures SortedByStartDesc(r) && Distinct(r)
    {
      var rows := TableRows(eventos, 1, nextId);
      IncreasingIsDistinct(rows);
      r := Listing(rows, caller);
      assert forall e :: multiset(r)[e] <= multiset(rows)[e];
    }

    /**
     * `POST /eventos`: a new row from the body's seven fields, owned by the
     * caller, under the next value of the id sequence. The owner reference
     * is checked against the owner as its column stores it, so a caller
     * that is longer than its column only by spaces owns the row under the
     * cut e-mail.
     */
    method CreateEvent(caller: string, body: EventoBody) returns (r: Reply<Evento>)
      requires Valid()
      modifies this
      ensures Valid()
      ensures usuarios == old(usuarios)
      ensures OthersUntouched(old(eventos), eventos, caller)
      ensures var p := ParsePatch(body);
        if p.Some? && Complete(p.value) && old(nextId) <= MaxId
           && StoreRow(Created(old(nextId), p.value, caller)).Some?
           && StoreRow(Created(old(nextId), p.value, caller)).value.usuarioEmail in old(usuarios)
        then
          && old(nextId) !in old(issued)
          && eventos == old(eventos)[old(nextId) := StoreRow(Created(old(nextId), p.value, caller)).value]
          && ColumnValue(caller, MaxText).Some?
          && eventos[old(nextId)].usuarioEmail == ColumnValue(caller, MaxText).value
          && nextId == old(nextId) + 1 && issued == old(issued) + {old(nextId)}
          && r == Ok(eventos[old(nextId)])
        else
          && r == ServerError(None) && eventos == old(eventos)
          && nextId == old(nextId) && issued == old(issued)
    {
      var p := ParsePatch(body);
      if p.None? || !Complete(p.value) || nextId > MaxId {
        // a missing key raises; an unknown label or an exhausted id
        // sequence is refused by the database
        r := ServerError(None);
        return;
      }
      var row := StoreRow(Created(nextId, p.value, caller));
      if row.None? || row.value.usuarioEmail !in usuarios {
        // a text value is wider than its column and not just by spaces, or
        // the stored owner is not a registered e-mail
        r := ServerError(None);
        return;
      }
      eventos := eventos[nextId := row.value];
      issued := issued + {nextId};
      nextId := nextId + 1;
      // the handler answers with the row as read back after the commit
      r := Ok(row.value);
    }

    /** `GET /eventos/<id>`: the row, to its owner only; reads only. */
    method GetEvent(caller: string, id: int) returns (r: Reply<Evento>)
      requires Valid()
      ensures id !in eventos <==> r == NotFound
      ensures id in eventos && eventos[id].usuarioEmail != caller <==> r == Unauthorized(NoAccess)
      ensures r.Ok? <==> id in eventos && eventos[id].usuarioEmail == caller
      ensures r.Ok? ==> id in eventos && r.body == eventos[id]
    {
      if id !in eventos {
        r := NotFound;
      } else if eventos[id].usuarioEmail != caller {
        r := Unauthorized(NoAccess);
      } else {
        r := Ok(eventos[id]);
      }
    }

    /** `PUT /eventos/<id>`: merge patch of the row, field by field, by its owner only. */
    method PutEvent(caller: string, id: int, body: EventoBody) returns (r: Reply<Evento>)
      requires Valid()
      modifies this
      ensures Valid()
      ensures usuarios == old(usuarios) && nextId == old(nextId) && issued == old(issued)
      ensures eventos.Keys == old(eventos).Keys
      ensures forall j :: j in old(eventos) && j != id ==> eventos[j] == old(eventos)[j]
      ensures OthersUntouched(old(eventos), eventos, caller)
      ensures id !in old(eventos) ==> r == NotFound && eventos == old(eventos)
      ensures id in old(eventos) && old(eventos)[id].usuarioEmail != caller ==>
        r == Unauthorized(NoAccess) && eventos == old(eventos)
      ensures id in old(eventos) && old(eventos)[id].usuarioEmail == caller ==>
        var p := ParsePatch(body);
        if p.Some? && StoreRow(Merge(old(eventos)[id], p.value)).Some? then
          eventos == old(eventos)[id := StoreRow(Merge(old(eventos)[id], p.value)).value]
          && r == Ok(eventos[id])
        else
          eventos == old(eventos) && r == ServerError(None)
    {
      if id !in eventos {
        r := NotFound;
        return;
      }
      if eventos[id].usuarioEmail != caller {
        r := Unauthorized(NoAccess);
        return;
      }
      var merged := MergeFields(eventos[id], body);
      if merged.None? {
        // the commit is refused: an unknown enum label
        r := ServerError(None);
        return;
      }
      var stored := StoreRow(merged.value);
      if stored.None? {
        // the commit is refused: a value wider than its column, and not just by spaces
        r := ServerError(None);
        return;
      }
      var ev := stored.value;
      eventos := eventos[id := ev];
      r := Ok(ev);
    }

    /** `DELETE /eventos/<id>`: removes the row, by its owner only. */
    method DeleteEvent(caller: string, id: int) returns (r: Reply<Evento>)
      requires Valid()
      modifies this
      ensures Valid()
      ensures usuarios == old(usuarios) && nextId == old(nextId) && issued == old(issued)
      ensures OthersUntouched(old(eventos), eventos, caller)
      ensures id !in old(eventos) ==> r == NotFound && eventos == old(eventos)
      ensures id in old(eventos) && old(eventos)[id].usuarioEmail != caller ==>
        r == Unauthorized(NoAccess) && eventos == old(eventos)
      ensures id in old(eventos) && old(eventos)[id].usuarioEmail == caller ==>
        r == NoContent && eventos == old(eventos) - {id}
    {
      if id !in eventos {
        r := NotFound;
        return;
      }
      if eventos[id].usuarioEmail != caller {
        r := Unauthorized(NoAccess);
        return;
      }
      eventos := eventos - {id};
      r := NoContent;
    }

    /** `POST /usuarios`: registers an e-mail once; a second registration is refused. */
    method Register(body: Credentials) returns (r: Reply<Session>)
      requires Valid()
      modifies this
      ensures Valid()
      ensures eventos == old(eventos) && nextId == old(nextId) && issued == old(issued)
      ensures body.email.None? ==> r == ServerError(None) && usuarios == old(usuarios)
      ensures body.email.Some? && body.email.value in old(usuarios) ==>
        r == Message(AlreadyRegistered(body.email.value)) && usuarios == old(usuarios)
      ensures body.email.Some? && body.email.value !in old(usuarios) ==>
        var email := body.email.value;
        if body.pw.None? then
          r == ServerError(None) && usuarios == old(usuarios)
        else
          var key := ColumnValue(email, MaxText);
          var pw := ColumnValue(body.pw.value, MaxPw);
          if key.None? || pw.None? || key.value in old(usuarios) then
            r == ServerError(Some(GenericError)) && usuarios == old(usuarios)
          else
            usuarios == old(usuarios)[key.value := pw.value]
            && r == Ok(Session(NowRegistered(email), Token(email)))
    {
      if body.email.None? {
        r := ServerError(None);
        return;
      }
      var email := body.email.value;
      if email in usuarios {
        r := Message(AlreadyRegistered(email));
        return;
      }
      if body.pw.None? {
        r := ServerError(None);
        return;
      }
      var key := ColumnValue(email, MaxText);
      var pw := ColumnValue(body.pw.value, MaxPw);
      if key.None? || pw.None? || key.value in usuarios {
        // the insert is refused (a value too wide, or the e-mail cut by its
        // column is already a key) and the handler's own catch answers
        r := ServerError(Some(GenericError));
        return;
      }
      usuarios := usuarios[key.value := pw.value];
      // message and token carry the e-mail as the request wrote it
      r := Ok(Session(NowRegistered(email), Token(email)));
    }

    /** `GET /usuarios`: checks a password in plain text and issues a token; reads only. */
    method Login(body: Credentials) returns (r: Reply<Session>)
      requires Valid()
      ensures body.email.None? ==> r == ServerError(None)
      ensures body.email.Some? && body.email.value !in usuarios ==> r == NotFound
      ensures body.email.Some? && body.email.value in usuarios ==>
        if body.pw.None? then r == ServerError(None)
        else if usuarios[body.email.value] != body.pw.value then r == Message(WrongPassword)
        else r == Ok(Session(SessionStarted, Token(body.email.value)))
    {
      if body.email.None? {
        r := ServerError(None);
        return;
      }
      var email := body.email.value;
      if email !in usuarios {
        r := NotFound;
        return;
      }
      if body.pw.None? {
        r := ServerError(None);
        return;
      }
      if usuarios[email] != body.pw.value {
        r := Message(WrongPassword);
      } else {
        r := Ok(Session(SessionStarted, Token(email)));
      }
    }
  }

  /**
   * An event read back right after its creation, by the same caller. The
   * row is owned by the caller as the owner column stores it: a caller that
   * fits the column reads back the event the create answered with, and a
   * caller cut by the column is refused its own event.
   */
  method CreateThenGet(app: Registry, caller: string, body: EventoBody)
    returns (created: Reply<Evento>, got: Reply<Evento>)
    requires app.Valid()
    modifies app
    ensures app.Valid()
    ensures var p := ParsePatch(body);
      created.Ok? <==>
        && p.Some? && Complete(p.value) && old(app.nextId) <= MaxId
        && StoreRow(Created(old(app.nextId), p.value, caller)).Some?
        && StoreRow(Created(old(app.nextId), p.value, caller)).value.usuarioEmail in old(app.usuarios)
    ensures created.Ok? ==>
      && ColumnValue(caller, MaxText).Some?
      && created.body.usuarioEmail == ColumnValue(caller, MaxText).value
      && (|caller| <= MaxText ==> got == created)
      && (|caller| > MaxText ==> got == Unauthorized(NoAccess))
  {
    created := app.CreateEvent(caller, body);
    got := NotFound;
    if created.Ok? {
      got := app.GetEvent(caller, created.body.id);
    }
  }

  /**
   * The token issued at registration, then a create and a read with it, as
   * the handlers are written. The token carries the e-mail as the request
   * wrote it, so an e-mail cut by its column can create events it is
   * refused to read.
   */
  method RegisterCreateGet(app: Registry, credentials: Credentials, body: EventoBody)
    returns (registered: Reply<Session>, created: Reply<Evento>, got: Reply<Evento>)
    requires app.Valid()
    modifies app
    ensures app.Valid()
    ensures registered.Ok? ==> credentials.email.Some?
    ensures registered.Ok? && created.Ok? ==>
      && (|credentials.email.value| <= MaxText ==> got == created)
      && (|credentials.email.value| > MaxText ==> got == Unauthorized(NoAccess))
  {
    created, got := NotFound, NotFound;
    registered := app.Register(credentials);
    if registered.Ok? {
      created, got := CreateThenGet(app, registered.body.accessToken.identity, body);
    }
  }

  /**
   * A concrete run of registration, create and read: a 100-character e-mail followed
   * by a space registers, creates an event, and is refused that event.
   */
  method PaddedEmailLockedOut() returns (created: Reply<Evento>, got: Reply<Evento>)
    ensures created.Ok? && got == Unauthorized(NoAccess)
  {
    var app := new Registry();
    var email := seq(MaxText, _ => 'a') + " ";
    assert email[..MaxText] == seq(MaxText, _ => 'a');
    var body := EventoBody(None, Some("Taller"), Some("CURSO"), Some("Sala 1"), Some("Calle 1"),
                           Some(1), Some(2), Some("VIRTUAL"), None);
    assert ParseCategoria("CURSO") == Some(CURSO);
    assert ParseForma("VIRTUAL") == Some(VIRTUAL);
    var registered := app.Register(Credentials(Some(email), Some("clave")));
    assert registered.Ok? && registered.body.accessToken.identity == email;
    assert app.usuarios == map[email[..MaxText] := "clave"];
    created, got := CreateThenGet(app, email, body);
  }

  /**
   * Registration as evidently intended: the token carries the e-mail as the
   * user table stores it, so it names a registered user.
   */
  method RegisterStoredKey(app: Registry, credentials: Credentials) returns (r: Reply<Session>)
    requires app.Valid()
    modifies app
    ensures app.Valid()
    ensures app.eventos == old(app.eventos) && app.nextId == old(app.nextId)
    ensures r.Ok? ==>
      && credentials.email.Some? && credentials.pw.Some?
      && ColumnValue(credentials.email.value, MaxText).Some?
      && ColumnValue(credentials.pw.value, MaxPw).Some?
      && r.body.accessToken.identity == ColumnValue(credentials.email.value, MaxText).value
      && app.usuarios == old(app.usuarios)[r.body.accessToken.identity :=
                                           ColumnValue(credentials.pw.value, MaxPw).value]
  {
    r := app.Register(credentials);
    if r.Ok? {
      r := Ok(Session(r.body.message, Token(ColumnValue(credentials.email.value, MaxText).value)));
    }
  }

  /**
   * With the corrected token, the creator always reads back its own event,
   * and a well-formed create with it is never refused for its owner.
   */
  method RegisterStoredKeyCreateGet(app: Registry, credentials: Credentials, body: EventoBody)
    returns (registered: Reply<Session>, created: Reply<Evento>, got: Reply<Evento>)
    requires app.Valid()
    modifies app
    ensures app.Valid()
    ensures registered.Ok? ==>
      var identity := registered.body.accessToken.identity;
      var p := ParsePatch(body);
      && (created.Ok? ==> got == created && created.body.usuarioEmail == identity)
      && ((&& p.Some? && Complete(p.value) && old(app.nextId) <= MaxId
           && StoreRow(Created(old(app.nextId), p.value, identity)).Some?) ==> created.Ok?)
  {
    created, got := NotFound, NotFound;
    registered := RegisterStoredKey(app, credentials);
    if registered.Ok? {
      created, got := CreateThenGet(app, registered.body.accessToken.identity, body);
    }
  }

  /**
   * Registering the same e-mail twice: the second call issues no token and
   * adds no row. It answers the duplicate message when the e-mail fits its
   * column; an e-mail cut by its column is not found by the second lookup,
   * and the second insert then collides with the first.
   */
  method RegisterTwice(app: Registry, body: Credentials)
    returns (first: Reply<Session>, second: Reply<Session>)
    requires app.Valid()
    modifies app
    ensures app.Valid()
    ensures first.Ok? ==>
      && body.email.Some? && body.pw.Some?
      && ColumnValue(body.email.value, MaxText).Some? && ColumnValue(body.pw.value, MaxPw).Some?
      && second == (if |body.email.value| <= MaxText then Message(AlreadyRegistered(body.email.value))
                    else ServerError(Some(GenericError)))
      && app.usuarios == old(app.usuarios)[ColumnValue(body.email.value, MaxText).value :=
                                           ColumnValue(body.pw.value, MaxPw).value]
  {
    first := app.Register(body);
    ghost var afterFirst := app.usuarios;
    second := app.Register(body);
    assert first.Ok? ==> app.usuarios == afterFirst;
  }

  /**
   * Logging in right after a successful registration with the same body
   * opens a session when e-mail and password fit their columns. An e-mail
   * cut by its column is not found; a password cut by its column no
   * longer matches.
   */
  method RegisterThenLogin(app: Registry, body: Credentials)
    returns (registered: Reply<Session>, login: Reply<Session>)
    requires app.Valid()
    modifies app
    ensures app.Valid()
    ensures registered.Ok? ==> body.email.Some? && body.pw.Some?
    ensures registered.Ok? ==>
      var email := body.email.value;
      var pw := body.pw.value;
      if |email| > MaxText then login == NotFound
      else if |pw| > MaxPw then login == Message(WrongPassword)
      else login == Ok(Session(SessionStarted, Token(email)))
  {
    registered := app.Register(body);
    login := app.Login(body);
  }
}
