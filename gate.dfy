/**
 * The access gate of middleware/auth.js: `verifyToken` extracts the bearer
 * token of section 2.1 of RFC 6750, verifies it, and then trusts only the
 * live store row, never the claims; `requireApproved` and `requireAdmin`
 * check that row.
 */
module Gate {
  import opened Wrappers
  import opened Users
  import opened Tokens
  import opened Store
  import opened Http
  import opened Text

  const NoTokenMessage := "Acceso denegado. Token no proporcionado."
  const InvalidTokenMessage := "Token no válido"
  const NotApprovedMessage := "Usuario no encontrado o no aprobado"
  const PendingMessage := "Acceso denegado. Su cuenta está pendiente de aprobación por un administrador."
  const AdminOnlyMessage := "Acceso denegado. Se requieren permisos de administrador."

  // ---------------------------------------------------------------------------
  // Token extraction

  /** `req.header('Authorization')?.replace('Bearer ', '')`. */
  function ExtractBearer(header: Option<string>): Option<string> {
    match header
    case None => None
    case Some(h) => Some(ReplaceFirst(h, "Bearer ", ""))
  }

  /** A header of the form `Bearer <token>` yields exactly `<token>`. */
  lemma BearerSchemeStripped(token: string)
    ensures ExtractBearer(Some("Bearer " + token)) == Some(token)
  {
    var pat := "Bearer ";
    var h := pat + token;
    assert |pat| == 7;
    assert h[0..|pat|] == pat;
    assert OccursAt(h, pat, 0);
    assert IndexOfFrom(h, pat, 0) == Some(0);
    assert h[..0] + "" + h[|pat|..] == token;
  }

  /** A header without the scheme is taken verbatim as the token. */
  lemma HeaderWithoutSchemeVerbatim(h: string)
    requires forall j: nat :: !OccursAt(h, "Bearer ", j)
    ensures ExtractBearer(Some(h)) == Some(h)
  {
  }

  // ---------------------------------------------------------------------------
  // verifyToken

  /** Store failures the gate can meet: the SELECT fails, or the `ultimo_acceso` UPDATE does. */
  datatype GateFaults = GateFaults(lookup: bool, touch: bool)

  datatype GateOutcome = Admitted(user: UserRecord) | Refused(response: Response)

  /**
   * `verifyToken`: the outcome and the table afterwards. On admission the
   * request carries the row as it was read, and `ultimo_acceso` of that row
   * alone is set in the store; a failed update is ignored.
   */
  function Authenticate(t: Table, header: Option<string>, decode: string -> Option<Claims>, now: Time, f: GateFaults): (GateOutcome, Table)
  {
    var token := ExtractBearer(header);
    if !Truthy(token) then (Refused(ErrorJson(401, NoTokenMessage, None)), t)
    else match VerifyAt(decode, token.value, now)
      case None => (Refused(ErrorJson(400, InvalidTokenMessage, None)), t)
      case Some(c) =>
        if f.lookup then (Refused(ErrorJson(500, InternalErrorMessage, None)), t)
        else if c.id in t.rows && t.rows[c.id].estado == Aprobado then
          (Admitted(t.rows[c.id]), if f.touch then t else UpdateById(t, c.id, SetUltimoAcceso(now)).0)
        else (Refused(ErrorJson(401, NotApprovedMessage, None)), t)
  }

  method VerifyToken(store: UserStore, header: Option<string>, decode: string -> Option<Claims>, now: Time, f: GateFaults)
    returns (g: GateOutcome)
    requires store.Valid()
    modifies store
    ensures store.Valid()
    ensures (g, store.State()) == Authenticate(old(store.State()), header, decode, now, f)
  {
    var token := ExtractBearer(header);
    if !Truthy(token) {
      return Refused(ErrorJson(401, NoTokenMessage, None));
    }
    var claims := VerifyAt(decode, token.value, now);
    if claims.None? {
      return Refused(ErrorJson(400, InvalidTokenMessage, None));
    }
    if f.lookup {
      return Refused(ErrorJson(500, InternalErrorMessage, None));
    }
    var id := claims.value.id;
    var row := store.GetById(id);
    if row.None? || row.value.estado != Aprobado {
      return Refused(ErrorJson(401, NotApprovedMessage, None));
    }
    if !f.touch {
      var _ := store.Update(id, SetUltimoAcceso(now));
    }
    g := Admitted(row.value);
  }

  // ---------------------------------------------------------------------------
  // requireApproved, requireAdmin

  /** `requireApproved`: `req.user && req.user.estado === 'aprobado'`, else 403. */
  function RequireApproved(user: Option<UserRecord>): (s: Step)
    ensures s.Halt? ==> StatusOf(s.response) == 403
  {
    if user.Some? && user.value.estado == Aprobado then Next
    else Halt(ErrorJson(403, PendingMessage, None))
  }

  /** `requireAdmin`: an approved admin, else 403. */
  function RequireAdmin(user: Option<UserRecord>): (s: Step)
    ensures s.Halt? ==> StatusOf(s.response) == 403
  {
    if user.Some? && IsApprovedAdmin(user.value) then Next
    else Halt(ErrorJson(403, AdminOnlyMessage, None))
  }

  // ---------------------------------------------------------------------------
  // Properties

  /** An absent or empty token is refused with 401 before the store is consulted, whatever the store would do. */
  lemma MissingTokenRefused(t: Table, header: Option<string>, decode: string -> Option<Claims>, now: Time, f: GateFaults)
    requires !Truthy(ExtractBearer(header))
    ensures Authenticate(t, header, decode, now, f) == (Refused(ErrorJson(401, NoTokenMessage, None)), t)
  {
  }

  /**
   * Every verification failure is the same 400: an expired token gets
   * exactly the answer an undecodable one gets, and the store is untouched.
   */
  lemma ExpiredSameAsMalformed(t: Table, header: Option<string>, decode: string -> Option<Claims>, now: Time, f: GateFaults)
    requires Truthy(ExtractBearer(header))
    requires var d := decode(ExtractBearer(header).value); d.Some? && !Unexpired(d.value, now)
    ensures Authenticate(t, header, decode, now, f) == Authenticate(t, header, _ => None, now, f)
    ensures Authenticate(t, header, decode, now, f) == (Refused(ErrorJson(400, InvalidTokenMessage, None)), t)
  {
  }

  /**
   * Only the subject of the claims matters: two tokens naming the same id,
   * whatever email, estado and role snapshot they carry, get the same
   * treatment, which the live row decides.
   */
  lemma ClaimsSnapshotIgnored(t: Table, header: Option<string>, d1: string -> Option<Claims>, d2: string -> Option<Claims>, now: Time, f: GateFaults)
    requires Truthy(ExtractBearer(header))
    requires var tok := ExtractBearer(header).value; d1(tok).Some? && d2(tok).Some?
    requires var tok := ExtractBearer(header).value;
      d1(tok).value.id == d2(tok).value.id && Unexpired(d1(tok).value, now) && Unexpired(d2(tok).value, now)
    ensures Authenticate(t, header, d1, now, f) == Authenticate(t, header, d2, now, f)
  {
  }

  /**
   * An admitted request carries the live row of the token's subject, which
   * is approved; the store then differs only in that row's `ultimo_acceso`,
   * which is set to now unless the UPDATE fails.
   */
  lemma {:induction false} AdmittedIsLiveApproved(t: Table, header: Option<string>, decode: string -> Option<Claims>, now: Time, f: GateFaults)
    requires WellFormed(t)
    requires Authenticate(t, header, decode, now, f).0.Admitted?
    ensures var tok := ExtractBearer(header).value; var u := Authenticate(t, header, decode, now, f).0.user;
      && Truthy(ExtractBearer(header)) && VerifyAt(decode, tok, now).Some?
      && u.id in t.rows && u == t.rows[VerifyAt(decode, tok, now).value.id]
      && u.estado == Aprobado
      && RequireApproved(Some(u)) == Next
    ensures var u := Authenticate(t, header, decode, now, f).0.user;
      Authenticate(t, header, decode, now, f).1 ==
        if f.touch then t else t.(rows := t.rows[u.id := u.(ultimoAcceso := Some(now))])
  {
    var tok := ExtractBearer(header).value;
    var c := VerifyAt(decode, tok, now).value;
    var u := t.rows[c.id];
    assert Authenticate(t, header, decode, now, f).0.user == u;
    if !f.touch {
      var t' := UpdateById(t, c.id, SetUltimoAcceso(now)).0;
      assert Authenticate(t, header, decode, now, f).1 == t';
      assert t'.rows == t.rows[u.id := u.(ultimoAcceso := Some(now))];
    }
  }

  /**
   * A token whose snapshot says approved is refused once the live row is not
   * approved (or is gone): the gate never trusts the claims' estado.
   */
  lemma StaleApprovalRefused(t: Table, header: Option<string>, decode: string -> Option<Claims>, now: Time, f: GateFaults)
    requires Truthy(ExtractBearer(header)) && VerifyAt(decode, ExtractBearer(header).value, now).Some?
    requires var id := VerifyAt(decode, ExtractBearer(header).value, now).value.id; id !in t.rows || t.rows[id].estado != Aprobado
    ensures Authenticate(t, header, decode, now, f) ==
      (Refused(ErrorJson(if f.lookup then 500 else 401, if f.lookup then InternalErrorMessage else NotApprovedMessage, None)), t)
  {
  }

  /** A failing SELECT turns any valid token into a 500, whatever the row says, and writes nothing. */
  lemma LookupFailureIsServerError(t: Table, header: Option<string>, decode: string -> Option<Claims>, now: Time, f: GateFaults)
    requires Truthy(ExtractBearer(header)) && VerifyAt(decode, ExtractBearer(header).value, now).Some?
    requires f.lookup
    ensures Authenticate(t, header, decode, now, f) == (Refused(ErrorJson(500, InternalErrorMessage, None)), t)
  {
  }

  /** `requireAdmin` is the stricter check: whatever it lets through, `requireApproved` does too. */
  lemma RequireAdminImpliesApproved(user: Option<UserRecord>)
    ensures RequireAdmin(user) == Next ==> RequireApproved(user) == Next
    ensures RequireAdmin(user) == Next <==> user.Some? && user.value.rol == Admin && RequireApproved(user) == Next
  {
  }
}
