/**
 * The passport-based variant of auth.js: its startup check on the signing
 * secret, the strategy callback that reconciles a profile by `oid` alone,
 * the session (de)serialisation, the one-hour token, and the two guards.
 */
module LegacyAuth {
  import opened Wrappers
  import opened Users
  import opened Tokens
  import opened Store
  import opened Http
  import opened Gate

  const MissingSecretMessage := "JWT_SECRET no está definido en las variables de entorno."
  const DeniedText := "Acceso denegado"

  /**
   * Loading the module: it throws when `JWT_SECRET` is unset or empty, so
   * nothing else in it is ever defined; otherwise the secret is kept.
   */
  function Init(jwtSecret: Option<string>): (r: Result<string>)
    ensures r.Success? <==> Truthy(jwtSecret)
    ensures r.Success? ==> r.value == jwtSecret.value && r.value != ""
    ensures r.Failure? ==> r.reason == MissingSecretMessage
  {
    if Truthy(jwtSecret) then Success(jwtSecret.value) else Failure(MissingSecretMessage)
  }

  /** The profile fields the strategy reads; `id` is the profile's own `id` property, if it has one. */
  datatype PassportProfile = PassportProfile(oid: Option<string>, jsonEmail: Option<string>, displayName: Option<string>, id: Option<int>)

  /**
   * What the strategy hands to passport: the stored row, or, for a new user,
   * the object `{ id: this.lastID, ...profile }`, whose `id` is the profile's
   * own when it has one, since the spread comes last.
   */
  datatype SessionUser = StoredUser(row: UserRecord) | ProfileUser(id: int, profile: PassportProfile)

  /** `done(err)` or `done(null, user)`. */
  datatype Done = DoneError | DoneUser(user: SessionUser)

  datatype StrategyFaults = StrategyFaults(lookup: bool, insert: bool)

  /** The row the strategy inserts for an unknown `oid`. */
  function LegacyPendingRow(p: PassportProfile, rolDefault: Rol): UserRecord {
    NewRow(p.oid, p.jsonEmail, p.displayName, None, None, Pendiente, rolDefault, None, None)
  }

  /** The strategy's verify callback: its result and the table afterwards. */
  function Strategy(t: Table, rolDefault: Rol, p: PassportProfile, f: StrategyFaults): (Done, Table) {
    if f.lookup then (DoneError, t)
    else match Lookup(t, ByMicrosoftId(p.oid))
      case Some(u) => (DoneUser(StoredUser(u)), t)
      case None =>
        if f.insert then (DoneError, t)
        else
          var (t', lastId) := InsertRow(t, LegacyPendingRow(p, rolDefault));
          (DoneUser(ProfileUser(if p.id.Some? then p.id.value else lastId, p)), t')
  }

  method VerifyProfile(store: UserStore, p: PassportProfile, f: StrategyFaults) returns (d: Done)
    requires store.Valid()
    modifies store
    ensures store.Valid()
    ensures (d, store.State()) == Strategy(old(store.State()), store.rolDefault, p, f)
  {
    if f.lookup {
      return DoneError;
    }
    var found := store.Get(ByMicrosoftId(p.oid));
    if found.Some? {
      return DoneUser(StoredUser(found.value));
    }
    if f.insert {
      return DoneError;
    }
    var lastId := store.Insert(LegacyPendingRow(p, store.rolDefault));
    d := DoneUser(ProfileUser(if p.id.Some? then p.id.value else lastId, p));
  }

  /** `serializeUser`: the session keeps `user.id`. */
  function SerializeUser(u: SessionUser): int {
    match u
    case StoredUser(row) => row.id
    case ProfileUser(id, _) => id
  }

  /** `deserializeUser`'s result: a store error, or the row with that id, if any. */
  datatype Loaded = LoadFailed | LoadedUser(user: Option<UserRecord>)

  /** `deserializeUser`: `SELECT * FROM usuarios WHERE id = ?`. */
  function DeserializeUser(t: Table, id: int, failed: bool): (r: Loaded)
    ensures !failed && id in t.rows ==> r == LoadedUser(Some(t.rows[id]))
    ensures !failed && id !in t.rows ==> r == LoadedUser(None)
    ensures failed <==> r.LoadFailed?
  {
    if failed then LoadFailed
    else if id in t.rows then LoadedUser(Some(t.rows[id])) else LoadedUser(None)
  }

  /** `generateToken`: the claims `{ id, email, estado, rol }`, valid for one hour. */
  function GenerateToken(u: UserRecord, now: Time): (c: Claims)
    ensures c == Sign(u, now, LegacyTokenLifetime)
    ensures c.exp == now + 60 * 60
  {
    Sign(u, now, LegacyTokenLifetime)
  }

  /** `ensureAdmin`: only `rol === 'admin'`, else a plain-text 403. */
  function EnsureAdmin(user: Option<UserRecord>): (s: Step)
    ensures s.Halt? ==> s.response == Forbidden(DeniedText)
  {
    if user.Some? && user.value.rol == Admin then Next else Halt(Forbidden(DeniedText))
  }

  /** `ensureAuthenticated`: `req.isAuthenticated()` is the framework's answer, an input here. */
  function EnsureAuthenticated(isAuthenticated: bool): (s: Step)
    ensures s == Next <==> isAuthenticated
    ensures !isAuthenticated ==> s == Halt(Redirect(LoginPage))
  {
    if isAuthenticated then Next else Halt(Redirect(LoginPage))
  }

  // ---------------------------------------------------------------------------
  // Properties

  /**
   * The strategy matches by `microsoft_id` alone: a profile whose `oid`
   * matches no row gets a new pending row even when another row carries its
   * email, where the route callback would have matched that row.
   */
  lemma {:induction false} NoEmailFallback(t: Table, rolDefault: Rol, p: PassportProfile, f: StrategyFaults)
    requires WellFormed(t) && !f.lookup && !f.insert
    requires forall k :: k in t.rows ==> !SqlEq(t.rows[k].microsoftId, p.oid)
    ensures var (d, t') := Strategy(t, rolDefault, p, f);
      && d.DoneUser? && d.user.ProfileUser?
      && WellFormed(t') && |t'.rows| == |t.rows| + 1
      && (forall k :: k in t.rows ==> t'.rows[k] == t.rows[k])
      && var n := t'.rows[t.nextId];
         n.estado == Pendiente && n.microsoftId == p.oid && n.email == p.jsonEmail && n.nombre == p.displayName
  {
    LookupFindsFirst(t, ByMicrosoftId(p.oid));
    InsertKeepsWellFormed(t, LegacyPendingRow(p, rolDefault));
    assert t.nextId !in t.rows;
  }

  /** A known `oid` yields the stored row as is, and nothing is written. */
  lemma {:induction false} KnownProfileUnchanged(t: Table, rolDefault: Rol, p: PassportProfile, f: StrategyFaults)
    requires WellFormed(t) && !f.lookup
    requires exists k :: k in t.rows && SqlEq(t.rows[k].microsoftId, p.oid)
    ensures var (d, t') := Strategy(t, rolDefault, p, f);
      && t' == t && d.DoneUser? && d.user.StoredUser?
      && var u := d.user.row; u.id in t.rows && t.rows[u.id] == u && u.microsoftId == p.oid
  {
    LookupFindsFirst(t, ByMicrosoftId(p.oid));
  }

  /**
   * Passport's session round trip: a stored user, and a new user whose
   * profile has no `id` of its own, are loaded back as their rows.
   */
  lemma {:induction false} SessionRoundTrip(t: Table, rolDefault: Rol, p: PassportProfile, f: StrategyFaults)
    requires WellFormed(t) && p.id.None?
    requires Strategy(t, rolDefault, p, f).0.DoneUser?
    ensures var (d, t') := Strategy(t, rolDefault, p, f);
      && SerializeUser(d.user) in t'.rows
      && DeserializeUser(t', SerializeUser(d.user), false) == LoadedUser(Some(t'.rows[SerializeUser(d.user)]))
      && (d.user.StoredUser? ==> t'.rows[SerializeUser(d.user)] == d.user.row)
      && (d.user.ProfileUser? ==> SerializeUser(d.user) == t.nextId && t'.rows[t.nextId].microsoftId == p.oid)
  {
    LookupFindsFirst(t, ByMicrosoftId(p.oid));
  }

  /** A profile with an `id` of its own hands that id to the session instead of the new row's. */
  lemma ProfileIdShadowsNewId(t: Table, rolDefault: Rol, p: PassportProfile, f: StrategyFaults)
    requires p.id.Some?
    requires Strategy(t, rolDefault, p, f).0.DoneUser?
    requires Strategy(t, rolDefault, p, f).0.user.ProfileUser?
    ensures SerializeUser(Strategy(t, rolDefault, p, f).0.user) == p.id.value
  {
  }

  /** The legacy token carries the same claims as the route's and expires seven hours sooner. */
  lemma LegacyTokenShorter(u: UserRecord, now: Time)
    ensures GenerateToken(u, now).(exp := 0) == Sign(u, now, RouteTokenLifetime).(exp := 0)
    ensures Sign(u, now, RouteTokenLifetime).exp - GenerateToken(u, now).exp == 7 * 60 * 60
  {
  }

  /** A legacy token verifies exactly during the hour after issue. */
  lemma LegacyTokenLifetimeHolds(decode: string -> Option<Claims>, token: string, u: UserRecord, issued: Time, now: Time)
    requires decode(token) == Some(GenerateToken(u, issued))
    ensures VerifyAt(decode, token, now).Some? <==> now < issued + 60 * 60
  {
    SignedTokenLifetime(decode, token, u, issued, LegacyTokenLifetime, now);
  }

  /**
   * `ensureAdmin` is weaker than `requireAdmin`: it lets through exactly the
   * admins `requireAdmin` lets through, plus admins whose estado is not
   * aprobado.
   */
  lemma EnsureAdminIgnoresEstado(user: Option<UserRecord>)
    ensures RequireAdmin(user) == Next ==> EnsureAdmin(user) == Next
    ensures EnsureAdmin(user) == Next && RequireAdmin(user) != Next
        <==> user.Some? && user.value.rol == Admin && user.value.estado != Aprobado
  {
  }
}
