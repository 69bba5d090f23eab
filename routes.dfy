/**
 * The handlers of routes/auth.js that touch the `usuarios` table: the OAuth
 * callback, which reconciles the identity provider's profile with a row and
 * then branches on that row's `estado`, and the three admin transitions behind
 * `verifyToken` and `requireAdmin`.
 */
module Routes {
  import opened Wrappers
  import opened Users
  import opened Tokens
  import opened Store
  import opened Http
  import opened Gate

  const ProviderErrorMessage := "Error de Microsoft OAuth"
  const NoCodeMessage := "Código de autorización no proporcionado"
  const ExchangeErrorMessage := "Error en autenticación"
  const NotFoundMessage := "Usuario no encontrado"
  const ApprovedMessage := "Usuario aprobado exitosamente"
  const RejectedMessage := "Usuario rechazado exitosamente"
  const InvalidRolMessage := "Rol inválido"
  const RolChangedMessage := "Rol actualizado exitosamente"

  // ---------------------------------------------------------------------------
  // GET /callback/microsoft

  /** The query of the redirect back from the provider (section 4.1.2 and 4.1.2.1 of RFC 6749). */
  datatype CallbackQuery = CallbackQuery(code: Option<string>, error: Option<string>, errorDescription: Option<string>)

  /** The fields of the Graph `/me` profile the callback reads. */
  datatype GraphProfile = GraphProfile(
    id: Option<string>,
    mail: Option<string>,
    userPrincipalName: Option<string>,
    givenName: Option<string>,
    surname: Option<string>,
    photo: Option<string>)

  /** The code exchange and profile fetch: either call may throw. */
  datatype Exchange = ExchangeFailed | Exchanged(profile: GraphProfile)

  /** Which store statements of the callback fail. */
  datatype CallbackFaults = CallbackFaults(lookup: bool, insert: bool, backfill: bool, touch: bool)

  /** `userInfo.mail || userInfo.userPrincipalName`. */
  function ProfileEmail(p: GraphProfile): Option<string> {
    JsOr(p.mail, p.userPrincipalName)
  }

  /** The lookup of the callback: a row with the profile's id or its email. */
  function ProfileMatch(p: GraphProfile): Where {
    IdOrEmail(p.id, ProfileEmail(p))
  }

  /** The pending row the callback inserts for a profile nobody matched. */
  function PendingRow(p: GraphProfile, rolDefault: Rol): UserRecord {
    NewRow(p.id, ProfileEmail(p), p.givenName, p.surname, p.photo, Pendiente, rolDefault, None, None)
  }

  /** Set `microsoft_id` on a matched row that has none; a failed UPDATE leaves the table as it was. */
  function Backfill(t: Table, u: UserRecord, p: GraphProfile, failed: bool): Table {
    if !Truthy(u.microsoftId) && !failed then UpdateById(t, u.id, SetMicrosoftId(p.id)).0 else t
  }

  /** The callback's answer and the table afterwards. */
  function CallbackOutcome(t: Table, rolDefault: Rol, q: CallbackQuery, ex: Exchange, f: CallbackFaults, now: Time): (Response, Table)
  {
    if Truthy(q.error) then (ErrorJson(400, ProviderErrorMessage, JsOr(q.errorDescription, q.error)), t)
    else if !Truthy(q.code) then (ErrorJson(400, NoCodeMessage, None), t)
    else match ex
      case ExchangeFailed => (ErrorJson(500, ExchangeErrorMessage, None), t)
      case Exchanged(p) =>
        if f.lookup then (ErrorJson(500, InternalErrorMessage, None), t)
        else match Lookup(t, ProfileMatch(p))
          case None =>
            if f.insert then (ErrorJson(500, InternalErrorMessage, None), t)
            else (Redirect(PendingApproval), InsertRow(t, PendingRow(p, rolDefault)).0)
          case Some(u) =>
            var t1 := Backfill(t, u, p, f.backfill);
            match u.estado
            case Pendiente => (Redirect(PendingApproval), t1)
            case Rechazado => (Redirect(AccessDenied), t1)
            case Aprobado =>
              (Redirect(AuthSuccess(Sign(u, now, RouteTokenLifetime))),
               if f.touch then t1 else UpdateById(t1, u.id, SetUltimoAcceso(now)).0)
            case OtherEstado(_) => (NoResponse, t1)
  }

  method Callback(store: UserStore, q: CallbackQuery, ex: Exchange, f: CallbackFaults, now: Time) returns (resp: Response)
    requires store.Valid()
    modifies store
    ensures store.Valid()
    ensures (resp, store.State()) == CallbackOutcome(old(store.State()), store.rolDefault, q, ex, f, now)
  {
    if Truthy(q.error) {
      return ErrorJson(400, ProviderErrorMessage, JsOr(q.errorDescription, q.error));
    }
    if !Truthy(q.code) {
      return ErrorJson(400, NoCodeMessage, None);
    }
    if ex.ExchangeFailed? {
      return ErrorJson(500, ExchangeErrorMessage, None);
    }
    var p := ex.profile;
    if f.lookup {
      return ErrorJson(500, InternalErrorMessage, None);
    }
    var found := store.Get(ProfileMatch(p));
    if found.None? {
      if f.insert {
        return ErrorJson(500, InternalErrorMessage, None);
      }
      var _ := store.Insert(PendingRow(p, store.rolDefault));
      return Redirect(PendingApproval);
    }
    var u := found.value;
    if !Truthy(u.microsoftId) && !f.backfill {
      var _ := store.Update(u.id, SetMicrosoftId(p.id));
    }
    match u.estado {
      case Pendiente =>
        resp := Redirect(PendingApproval);
      case Rechazado =>
        resp := Redirect(AccessDenied);
      case Aprobado =>
        var token := Sign(u, now, RouteTokenLifetime);
        if !f.touch {
          var _ := store.Update(u.id, SetUltimoAcceso(now));
        }
        resp := Redirect(AuthSuccess(token));
      case OtherEstado(_) =>
        resp := NoResponse;
    }
  }

  // ---------------------------------------------------------------------------
  // Callback properties

  /**
   * A provider error is answered first, whatever the code, the exchange and
   * the store would do: 400 with `error_description`, or `error` when the
   * description is absent or empty; the table is untouched.
   */
  lemma ProviderErrorFirst(t: Table, rolDefault: Rol, q: CallbackQuery, ex: Exchange, f: CallbackFaults, now: Time)
    requires Truthy(q.error)
    ensures var (r, t') := CallbackOutcome(t, rolDefault, q, ex, f, now);
      && t' == t && r.ErrorJson? && r.status == 400 && r.error == ProviderErrorMessage
      && r.details == (if Truthy(q.errorDescription) then q.errorDescription else q.error)
      && Truthy(r.details)
  {
  }

  /** Without a provider error, a missing or empty code is 400 and no row is read or written. */
  lemma MissingCodeRejected(t: Table, rolDefault: Rol, q: CallbackQuery, ex: Exchange, f: CallbackFaults, now: Time)
    requires !Truthy(q.error) && !Truthy(q.code)
    ensures CallbackOutcome(t, rolDefault, q, ex, f, now) == (ErrorJson(400, NoCodeMessage, None), t)
  {
  }

  /** The preconditions under which the callback reaches the store with profile `p`. */
  predicate ReachesStore(q: CallbackQuery, ex: Exchange, f: CallbackFaults) {
    !Truthy(q.error) && Truthy(q.code) && ex.Exchanged? && !f.lookup
  }

  /**
   * A profile that matches no row by id or email yields the pending redirect
   * and exactly one new row: pending, carrying the profile's id, email
   * (`mail`, else `userPrincipalName`), names and photo; no other row changes.
   */
  lemma {:induction false} UnmatchedProfileInsertsPending(t: Table, rolDefault: Rol, q: CallbackQuery, ex: Exchange, f: CallbackFaults, now: Time)
    requires WellFormed(t) && ReachesStore(q, ex, f) && !f.insert
    requires forall k :: k in t.rows ==> !Satisfies(t.rows[k], ProfileMatch(ex.profile))
    ensures var (r, t') := CallbackOutcome(t, rolDefault, q, ex, f, now); var p := ex.profile;
      && r == Redirect(PendingApproval)
      && WellFormed(t')
      && t'.rows.Keys == t.rows.Keys + {t.nextId} && |t'.rows| == |t.rows| + 1
      && (forall k :: k in t.rows ==> t'.rows[k] == t.rows[k])
      && var n := t'.rows[t.nextId];
         n.estado == Pendiente && n.microsoftId == p.id && n.email == ProfileEmail(p)
         && n.nombre == p.givenName && n.apellidos == p.surname && n.fotoUrl == p.photo
         && n.aprobadoPor.None? && n.fechaAprobacion.None? && n.ultimoAcceso.None?
  {
    LookupFindsFirst(t, ProfileMatch(ex.profile));
    InsertKeepsWellFormed(t, PendingRow(ex.profile, rolDefault));
    assert t.nextId !in t.rows;
  }

  /**
   * Repeating the callback with the same profile after it inserted a row
   * finds that row and changes nothing: no second row, the same pending
   * redirect. The profile must carry an id or an email, since SQL NULL
   * matches nothing.
   */
  lemma {:induction false} RepeatedCallbackInsertsNothing(t: Table, rolDefault: Rol, q: CallbackQuery, ex: Exchange, f: CallbackFaults, f2: CallbackFaults, now: Time, later: Time)
    requires WellFormed(t) && ReachesStore(q, ex, f) && ReachesStore(q, ex, f2)
    requires ex.profile.id.Some? || ProfileEmail(ex.profile).Some?
    requires Lookup(t, ProfileMatch(ex.profile)).None? && !f.insert
    ensures var t' := CallbackOutcome(t, rolDefault, q, ex, f, now).1;
      CallbackOutcome(t', rolDefault, q, ex, f2, later) == (Redirect(PendingApproval), t')
  {
    var p := ex.profile;
    var w := ProfileMatch(p);
    var t' := CallbackOutcome(t, rolDefault, q, ex, f, now).1;
    LookupFindsFirst(t, w);
    InsertKeepsWellFormed(t, PendingRow(p, rolDefault));
    var id := t.nextId;
    assert t'.rows[id].microsoftId == p.id && t'.rows[id].email == ProfileEmail(p);
    assert Satisfies(t'.rows[id], w);
    LookupFindsFirst(t', w);
    var u := Lookup(t', w).value;
    assert u.id == id by {
      assert forall k :: k in t'.rows && k != id ==> k in t.rows && t'.rows[k] == t.rows[k];
    }
    assert u.estado == Pendiente;
    if !Truthy(u.microsoftId) && !f2.backfill {
      var t2 := UpdateById(t', id, SetMicrosoftId(p.id)).0;
      assert t2.rows == t'.rows by {
        assert t2.rows[id] == t'.rows[id];
      }
    }
  }

  /**
   * A profile without id and without email matches nothing, so every
   * callback for it inserts one more pending row.
   */
  lemma AnonymousProfileAlwaysInserts(t: Table, rolDefault: Rol, q: CallbackQuery, ex: Exchange, f: CallbackFaults, now: Time)
    requires WellFormed(t) && ReachesStore(q, ex, f) && !f.insert
    requires ex.profile.id.None? && ProfileEmail(ex.profile).None?
    ensures var (r, t') := CallbackOutcome(t, rolDefault, q, ex, f, now);
      r == Redirect(PendingApproval) && |t'.rows| == |t.rows| + 1
  {
    LookupFindsFirst(t, ProfileMatch(ex.profile));
    InsertKeepsWellFormed(t, PendingRow(ex.profile, rolDefault));
  }

  /**
   * When a row matches, the answer is decided by that row's live `estado`,
   * and the table changes only in that row: its `microsoft_id` is set to the
   * profile's id when it had none (and the UPDATE succeeded), and its
   * `ultimo_acceso` is set when a token is issued (and that UPDATE
   * succeeded). A non-empty `microsoft_id` is never overwritten, no row is
   * added, and no other column changes.
   */
  lemma {:induction false} MatchedProfileOutcome(t: Table, rolDefault: Rol, q: CallbackQuery, ex: Exchange, f: CallbackFaults, now: Time)
    requires WellFormed(t) && ReachesStore(q, ex, f)
    requires Lookup(t, ProfileMatch(ex.profile)).Some?
    ensures var u := Lookup(t, ProfileMatch(ex.profile)).value; var (r, t') := CallbackOutcome(t, rolDefault, q, ex, f, now);
      && u.id in t.rows && t.rows[u.id] == u
      && (u.estado == Pendiente ==> r == Redirect(PendingApproval))
      && (u.estado == Rechazado ==> r == Redirect(AccessDenied))
      && (u.estado == Aprobado ==> r == Redirect(AuthSuccess(Sign(u, now, RouteTokenLifetime))))
      && (u.estado.OtherEstado? ==> r == NoResponse)
      && WellFormed(t') && t'.nextId == t.nextId && t'.rows.Keys == t.rows.Keys
      && (forall k :: k in t.rows && k != u.id ==> t'.rows[k] == t.rows[k])
      && t'.rows[u.id].microsoftId == (if !Truthy(u.microsoftId) && !f.backfill then ex.profile.id else u.microsoftId)
      && t'.rows[u.id].ultimoAcceso == (if u.estado == Aprobado && !f.touch then Some(now) else u.ultimoAcceso)
      && t'.rows[u.id] == u.(microsoftId := t'.rows[u.id].microsoftId, ultimoAcceso := t'.rows[u.id].ultimoAcceso)
  {
    var p := ex.profile;
    LookupFindsFirst(t, ProfileMatch(p));
    var u := Lookup(t, ProfileMatch(p)).value;
    var t1 := Backfill(t, u, p, f.backfill);
    UpdateKeepsWellFormed(t, u.id, SetMicrosoftId(p.id));
    assert WellFormed(t1) && t1.rows.Keys == t.rows.Keys && u.id in t1.rows;
    assert t1.rows[u.id] == u.(microsoftId := t1.rows[u.id].microsoftId);
    UpdateKeepsWellFormed(t1, u.id, SetUltimoAcceso(now));
  }

  /**
   * The single OR query gives `microsoft_id` no priority over email. Under
   * the rowid order `Lookup` takes, a row that matches the profile's email and
   * has a lower id than the row holding its `microsoft_id` is the one found,
   * so the callback backfills, answers and signs for that row.
   */
  lemma {:induction false} EmailMatchCanPrecede(t: Table, p: GraphProfile, i: int, j: int)
    requires WellFormed(t) && i in t.rows && j in t.rows && i < j
    requires SqlEq(t.rows[i].email, ProfileEmail(p))
    requires SqlEq(t.rows[j].microsoftId, p.id)
    ensures Lookup(t, ProfileMatch(p)).Some?
    ensures Lookup(t, ProfileMatch(p)).value.id <= i
    ensures Lookup(t, ProfileMatch(p)) != Some(t.rows[j])
  {
    LookupFindsFirst(t, ProfileMatch(p));
    assert Satisfies(t.rows[i], ProfileMatch(p));
  }

  /** A failed `microsoft_id` backfill does not change the answer. */
  lemma BackfillFailureIgnored(t: Table, rolDefault: Rol, q: CallbackQuery, ex: Exchange, f: CallbackFaults, now: Time)
    ensures CallbackOutcome(t, rolDefault, q, ex, f.(backfill := true), now).0
         == CallbackOutcome(t, rolDefault, q, ex, f.(backfill := false), now).0
  {
  }

  /**
   * A token is issued only for a row that is approved in the live table at
   * that moment; it carries that row's id, email, estado and role and
   * expires eight hours after issue.
   */
  lemma {:induction false} TokenOnlyForApproved(t: Table, rolDefault: Rol, q: CallbackQuery, ex: Exchange, f: CallbackFaults, now: Time)
    requires WellFormed(t)
    requires var r := CallbackOutcome(t, rolDefault, q, ex, f, now).0; r.Redirect? && r.location.AuthSuccess?
    ensures var c := CallbackOutcome(t, rolDefault, q, ex, f, now).0.location.token;
      && c.id in t.rows && t.rows[c.id].estado == Aprobado
      && c == Sign(t.rows[c.id], now, RouteTokenLifetime)
      && c.estado == Aprobado && c.exp == now + 8 * 60 * 60
  {
    LookupFindsFirst(t, ProfileMatch(ex.profile));
  }

  // ---------------------------------------------------------------------------
  // PUT /admin/users/:id/approve, /reject, /role

  /** The admin transitions; `rol` is the request body's field, which may be absent. */
  datatype AdminAction =
    | Approve(target: int)
    | Reject(target: int)
    | ChangeRole(target: int, rol: Option<string>)

  /** `['usuario', 'admin'].includes(rol)`, as the model's role. */
  function ParseRol(rol: Option<string>): (r: Option<Rol>)
    ensures r == Some(Usuario) <==> rol == Some("usuario")
    ensures r == Some(Admin) <==> rol == Some("admin")
    ensures r.None? <==> rol != Some("usuario") && rol != Some("admin")
  {
    if rol == Some("usuario") then Some(Usuario)
    else if rol == Some("admin") then Some(Admin)
    else None
  }

  /** An UPDATE's result: 500 when it fails, 404 when it changed nothing, else the success message. */
  function Answer(t: Table, id: int, u: Update, failed: bool, success: string): (Response, Table) {
    if failed then (ErrorJson(500, InternalErrorMessage, None), t)
    else
      var (t', changes) := UpdateById(t, id, u);
      if changes == 0 then (ErrorJson(404, NotFoundMessage, None), t')
      else (MessageJson(success), t')
  }

  /** The handler behind the middlewares, run for the admitted `actor` at time `now`. */
  function AdminHandler(t: Table, actor: UserRecord, a: AdminAction, failed: bool, now: Time): (Response, Table) {
    match a
    case Approve(id) => Answer(t, id, SetAprobado(now, actor.id), failed, ApprovedMessage)
    case Reject(id) => Answer(t, id, SetRechazado(actor.id), failed, RejectedMessage)
    case ChangeRole(id, rol) =>
      match ParseRol(rol)
      case None => (ErrorJson(400, InvalidRolMessage, None), t)
      case Some(r) => Answer(t, id, SetRol(r), failed, RolChangedMessage)
  }

  /** The whole route: `verifyToken`, then `requireAdmin`, then the handler. */
  function AdminRoute(t: Table, header: Option<string>, decode: string -> Option<Claims>, now: Time, gf: GateFaults, a: AdminAction, failed: bool): (Response, Table) {
    var (g, t1) := Authenticate(t, header, decode, now, gf);
    match g
    case Refused(r) => (r, t1)
    case Admitted(actor) =>
      match RequireAdmin(Some(actor))
      case Halt(r) => (r, t1)
      case Next => AdminHandler(t1, actor, a, failed, now)
  }

  method HandleAdmin(store: UserStore, actor: UserRecord, a: AdminAction, failed: bool, now: Time) returns (resp: Response)
    requires store.Valid()
    modifies store
    ensures store.Valid()
    ensures (resp, store.State()) == AdminHandler(old(store.State()), actor, a, failed, now)
  {
    var u: Update;
    var success: string;
    match a {
      case Approve(_) =>
        u, success := SetAprobado(now, actor.id), ApprovedMessage;
      case Reject(_) =>
        u, success := SetRechazado(actor.id), RejectedMessage;
      case ChangeRole(_, rol) =>
        var r := ParseRol(rol);
        if r.None? {
          return ErrorJson(400, InvalidRolMessage, None);
        }
        u, success := SetRol(r.value), RolChangedMessage;
    }
    if failed {
      return ErrorJson(500, InternalErrorMessage, None);
    }
    var changes := store.Update(a.target, u);
    resp := if changes == 0 then ErrorJson(404, NotFoundMessage, None) else MessageJson(success);
  }

  method AdminRequest(store: UserStore, header: Option<string>, decode: string -> Option<Claims>, now: Time, gf: GateFaults, a: AdminAction, failed: bool)
    returns (resp: Response)
    requires store.Valid()
    modifies store
    ensures store.Valid()
    ensures (resp, store.State()) == AdminRoute(old(store.State()), header, decode, now, gf, a, failed)
  {
    var g := VerifyToken(store, header, decode, now, gf);
    if g.Refused? {
      return g.response;
    }
    var step := RequireAdmin(Some(g.user));
    if step.Halt? {
      return step.response;
    }
    resp := HandleAdmin(store, g.user, a, failed, now);
  }

  // ---------------------------------------------------------------------------
  // Admin properties

  /**
   * Approving a known id, from any prior estado, sets estado aprobado, the
   * approval date and the approving admin, and nothing else anywhere.
   */
  lemma ApproveEffect(t: Table, actor: UserRecord, id: int, now: Time)
    requires id in t.rows
    ensures var (r, t') := AdminHandler(t, actor, Approve(id), false, now);
      && r == MessageJson(ApprovedMessage)
      && t'.rows.Keys == t.rows.Keys && t'.nextId == t.nextId
      && t'.rows[id] == t.rows[id].(estado := Aprobado, fechaAprobacion := Some(now), aprobadoPor := Some(actor.id))
      && forall k :: k in t.rows && k != id ==> t'.rows[k] == t.rows[k]
  {
  }

  /** Rejecting a known id sets estado rechazado and the acting admin, and keeps `fecha_aprobacion`. */
  lemma RejectEffect(t: Table, actor: UserRecord, id: int, now: Time)
    requires id in t.rows
    ensures var (r, t') := AdminHandler(t, actor, Reject(id), false, now);
      && r == MessageJson(RejectedMessage)
      && t'.rows.Keys == t.rows.Keys && t'.nextId == t.nextId
      && t'.rows[id] == t.rows[id].(estado := Rechazado, aprobadoPor := Some(actor.id))
      && t'.rows[id].fechaAprobacion == t.rows[id].fechaAprobacion
      && forall k :: k in t.rows && k != id ==> t'.rows[k] == t.rows[k]
  {
  }

  /** A role change with a valid role changes only the target's `rol`. */
  lemma ChangeRoleEffect(t: Table, actor: UserRecord, id: int, rol: Option<string>, now: Time)
    requires id in t.rows && ParseRol(rol).Some?
    ensures var (r, t') := AdminHandler(t, actor, ChangeRole(id, rol), false, now);
      && r == MessageJson(RolChangedMessage)
      && t'.rows.Keys == t.rows.Keys && t'.nextId == t.nextId
      && t'.rows[id] == t.rows[id].(rol := ParseRol(rol).value)
      && (rol == Some("admin") ==> t'.rows[id].rol == Admin)
      && (rol == Some("usuario") ==> t'.rows[id].rol == Usuario)
      && forall k :: k in t.rows && k != id ==> t'.rows[k] == t.rows[k]
  {
  }

  /** An unknown id is 404 and the table is unchanged, for every admin action (with a valid role). */
  lemma UnknownTargetNotFound(t: Table, actor: UserRecord, a: AdminAction, now: Time)
    requires a.target !in t.rows
    requires a.ChangeRole? ==> ParseRol(a.rol).Some?
    ensures AdminHandler(t, actor, a, false, now) == (ErrorJson(404, NotFoundMessage, None), t)
  {
  }

  /** A role outside {usuario, admin} is 400 before the store is touched, even when the store would fail. */
  lemma InvalidRolRejected(t: Table, actor: UserRecord, id: int, rol: Option<string>, failed: bool, now: Time)
    requires rol != Some("usuario") && rol != Some("admin")
    ensures AdminHandler(t, actor, ChangeRole(id, rol), failed, now) == (ErrorJson(400, InvalidRolMessage, None), t)
  {
  }

  /** A failing UPDATE is 500 and changes nothing. */
  lemma AdminStoreFailure(t: Table, actor: UserRecord, a: AdminAction, now: Time)
    requires a.ChangeRole? ==> ParseRol(a.rol).Some?
    ensures AdminHandler(t, actor, a, true, now) == (ErrorJson(500, InternalErrorMessage, None), t)
  {
  }

  /**
   * Every admin route is guarded: the handler runs, and the table changes
   * beyond the gate's `ultimo_acceso` touch, only when the caller's live row
   * is an approved admin; otherwise the answer is the gate's or the 403.
   */
  lemma {:induction false} AdminRouteGuarded(t: Table, header: Option<string>, decode: string -> Option<Claims>, now: Time, gf: GateFaults, a: AdminAction, failed: bool)
    requires WellFormed(t)
    ensures var (g, t1) := Authenticate(t, header, decode, now, gf);
      !(g.Admitted? && IsApprovedAdmin(g.user)) ==>
        && AdminRoute(t, header, decode, now, gf, a, failed).1 == t1
        && AdminRoute(t, header, decode, now, gf, a, failed).0 == (if g.Refused? then g.response else ErrorJson(403, AdminOnlyMessage, None))
    ensures var (g, t1) := Authenticate(t, header, decode, now, gf);
      g.Admitted? && IsApprovedAdmin(g.user) ==>
        && g.user.id in t.rows && t.rows[g.user.id] == g.user
        && AdminRoute(t, header, decode, now, gf, a, failed) == AdminHandler(t1, g.user, a, failed, now)
  {
    var (g, t1) := Authenticate(t, header, decode, now, gf);
    if g.Admitted? {
      AdmittedIsLiveApproved(t, header, decode, now, gf);
    }
  }
}
