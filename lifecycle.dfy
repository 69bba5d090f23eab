/**
 * The approval state machine as a whole: every operation of the core that
 * writes `usuarios`, and what holds across any sequence of them.
 */
module Lifecycle {
  import opened Wrappers
  import opened Users
  import opened Tokens
  import opened Store
  import opened Http
  import opened Gate
  import opened Routes
  import opened LegacyAuth
  import opened CreateAdmin

  /** Every request or run that may write the table. */
  datatype Operation =
    | CallbackRequest(q: CallbackQuery, ex: Exchange, cf: CallbackFaults, now: Time)
    | GatedRequest(header: Option<string>, decode: string -> Option<Claims>, now: Time, gf: GateFaults)
    | AdminCall(header: Option<string>, decode: string -> Option<Claims>, now: Time, gf: GateFaults, a: AdminAction, failed: bool)
    | PassportLogin(p: PassportProfile, sf: StrategyFaults)
    | CreateAdminRun(now: Time, f: CreateFaults)

  /** The table after one operation. */
  function Perform(t: Table, rolDefault: Rol, op: Operation): Table {
    match op
    case CallbackRequest(q, ex, cf, now) => CallbackOutcome(t, rolDefault, q, ex, cf, now).1
    case GatedRequest(header, decode, now, gf) => Authenticate(t, header, decode, now, gf).1
    case AdminCall(header, decode, now, gf, a, failed) => AdminRoute(t, header, decode, now, gf, a, failed).1
    case PassportLogin(p, sf) => Strategy(t, rolDefault, p, sf).1
    case CreateAdminRun(now, f) => CreateInitialAdmin(t, now, f).1
  }

  /**
   * `t'` is a possible successor of `t`: still well formed, no row removed,
   * and no row that had left `pendiente` back in it.
   */
  ghost predicate Successor(t: Table, t': Table) {
    && WellFormed(t')
    && t.rows.Keys <= t'.rows.Keys
    && forall k :: k in t.rows && t.rows[k].estado != Pendiente ==> t'.rows[k].estado != Pendiente
  }

  lemma SuccessorTransitive(t1: Table, t2: Table, t3: Table)
    requires Successor(t1, t2) && Successor(t2, t3)
    ensures Successor(t1, t3)
  {
  }

  /** No UPDATE the core issues sets `pendiente`. */
  lemma UpdateIsSuccessor(t: Table, id: int, u: Update)
    requires WellFormed(t)
    ensures Successor(t, UpdateById(t, id, u).0)
  {
    UpdateKeepsWellFormed(t, id, u);
  }

  lemma InsertIsSuccessor(t: Table, row: UserRecord)
    requires WellFormed(t)
    ensures Successor(t, InsertRow(t, row).0)
  {
    InsertKeepsWellFormed(t, row);
    assert t.nextId !in t.rows;
  }

  /** The table a callback leaves behind for a matched row `u`. */
  function MatchedTable(t: Table, u: UserRecord, p: GraphProfile, f: CallbackFaults, now: Time): Table {
    var t1 := Backfill(t, u, p, f.backfill);
    if u.estado == Aprobado && !f.touch then UpdateById(t1, u.id, SetUltimoAcceso(now)).0 else t1
  }

  lemma MatchedIsSuccessor(t: Table, u: UserRecord, p: GraphProfile, f: CallbackFaults, now: Time)
    requires WellFormed(t)
    ensures Successor(t, MatchedTable(t, u, p, f, now))
  {
    UpdateIsSuccessor(t, u.id, SetMicrosoftId(p.id));
    var t1 := Backfill(t, u, p, f.backfill);
    UpdateIsSuccessor(t1, u.id, SetUltimoAcceso(now));
    SuccessorTransitive(t, t1, UpdateById(t1, u.id, SetUltimoAcceso(now)).0);
  }

  lemma {:induction false} CallbackIsSuccessor(t: Table, rolDefault: Rol, q: CallbackQuery, ex: Exchange, f: CallbackFaults, now: Time)
    requires WellFormed(t)
    ensures Successor(t, CallbackOutcome(t, rolDefault, q, ex, f, now).1)
  {
    if ReachesStore(q, ex, f) {
      var p := ex.profile;
      match Lookup(t, ProfileMatch(p)) {
        case None =>
          InsertIsSuccessor(t, PendingRow(p, rolDefault));
        case Some(u) =>
          MatchedIsSuccessor(t, u, p, f, now);
          assert CallbackOutcome(t, rolDefault, q, ex, f, now).1 == MatchedTable(t, u, p, f, now);
      }
    }
  }

  lemma {:induction false} AdminRouteIsSuccessor(t: Table, header: Option<string>, decode: string -> Option<Claims>, now: Time, gf: GateFaults, a: AdminAction, failed: bool)
    requires WellFormed(t)
    ensures Successor(t, AdminRoute(t, header, decode, now, gf, a, failed).1)
  {
    var (g, t1) := Authenticate(t, header, decode, now, gf);
    UpdateIsSuccessor(t, if g.Admitted? then g.user.id else 0, SetUltimoAcceso(now));
    if g.Admitted? {
      AdmittedIsLiveApproved(t, header, decode, now, gf);
      var update := match a
        case Approve(_) => SetAprobado(now, g.user.id)
        case Reject(_) => SetRechazado(g.user.id)
        case ChangeRole(_, rol) => SetRol(if ParseRol(rol).Some? then ParseRol(rol).value else Usuario);
      UpdateIsSuccessor(t1, a.target, update);
      SuccessorTransitive(t, t1, UpdateById(t1, a.target, update).0);
    }
  }

  /**
   * Every operation keeps the table well formed, removes no row, and never
   * puts a row that left `pendiente` back into it: `pendiente` is only ever
   * the state a row is created in.
   */
  lemma {:induction false} NoOperationRestoresPending(t: Table, rolDefault: Rol, op: Operation)
    requires WellFormed(t)
    ensures Successor(t, Perform(t, rolDefault, op))
  {
    match op {
      case CallbackRequest(q, ex, cf, now) =>
        CallbackIsSuccessor(t, rolDefault, q, ex, cf, now);
      case GatedRequest(header, decode, now, gf) =>
        var (g, _) := Authenticate(t, header, decode, now, gf);
        UpdateIsSuccessor(t, if g.Admitted? then g.user.id else 0, SetUltimoAcceso(now));
        if g.Admitted? {
          AdmittedIsLiveApproved(t, header, decode, now, gf);
        }
      case AdminCall(header, decode, now, gf, a, failed) =>
        AdminRouteIsSuccessor(t, header, decode, now, gf, a, failed);
      case PassportLogin(p, sf) =>
        InsertIsSuccessor(t, LegacyPendingRow(p, rolDefault));
      case CreateAdminRun(now, f) =>
        InsertIsSuccessor(t, AdminRow(now));
    }
  }

  /** The table after a sequence of operations. */
  function PerformAll(t: Table, rolDefault: Rol, ops: seq<Operation>): Table
    decreases |ops|
  {
    if ops == [] then t else PerformAll(Perform(t, rolDefault, ops[0]), rolDefault, ops[1..])
  }

  /** What holds for one operation holds for any sequence of them. */
  lemma {:induction false} HistoryRestoresNoPending(t: Table, rolDefault: Rol, ops: seq<Operation>)
    requires WellFormed(t)
    decreases |ops|
    ensures Successor(t, PerformAll(t, rolDefault, ops))
  {
    if ops != [] {
      var t1 := Perform(t, rolDefault, ops[0]);
      NoOperationRestoresPending(t, rolDefault, ops[0]);
      HistoryRestoresNoPending(t1, rolDefault, ops[1..]);
      SuccessorTransitive(t, t1, PerformAll(t1, rolDefault, ops[1..]));
    }
  }

  // ---------------------------------------------------------------------------
  // Revocation

  /**
   * Once an admin has rejected a user, the gate refuses every later request
   * bearing a token for that user, however recent the token and whatever
   * its claims say, and writes nothing.
   */
  lemma RevocationTakesEffect(t: Table, admin: UserRecord, id: int, now: Time,
                              header: Option<string>, decode: string -> Option<Claims>, later: Time, gf: GateFaults)
    requires id in t.rows
    requires Truthy(ExtractBearer(header)) && VerifyAt(decode, ExtractBearer(header).value, later).Some?
    requires VerifyAt(decode, ExtractBearer(header).value, later).value.id == id
    ensures var t' := AdminHandler(t, admin, Reject(id), false, now).1;
      && Authenticate(t', header, decode, later, gf).0.Refused?
      && Authenticate(t', header, decode, later, gf).1 == t'
  {
  }

  /**
   * Once an admin has set a user's role to `usuario`, a later admitted
   * request by that user no longer passes `requireAdmin`.
   */
  lemma DowngradeTakesEffect(t: Table, admin: UserRecord, id: int, now: Time,
                             header: Option<string>, decode: string -> Option<Claims>, later: Time, gf: GateFaults)
    requires WellFormed(t) && id in t.rows
    requires Truthy(ExtractBearer(header)) && VerifyAt(decode, ExtractBearer(header).value, later).Some?
    requires VerifyAt(decode, ExtractBearer(header).value, later).value.id == id
    ensures var t' := AdminHandler(t, admin, ChangeRole(id, Some("usuario")), false, now).1;
      var g := Authenticate(t', header, decode, later, gf).0;
      g.Admitted? ==> RequireAdmin(Some(g.user)).Halt?
  {
    var t' := AdminHandler(t, admin, ChangeRole(id, Some("usuario")), false, now).1;
    assert t'.rows[id].rol == Usuario;
  }

  // ---------------------------------------------------------------------------
  // Approval

  /** Two tables whose rows agree on which satisfy `w` have the same first match. */
  lemma {:induction false} FirstMatchAgrees(r1: map<int, UserRecord>, r2: map<int, UserRecord>, w: Where, lo: int, hi: int)
    requires r1.Keys == r2.Keys
    requires forall k :: k in r1 ==> (Satisfies(r1[k], w) <==> Satisfies(r2[k], w))
    decreases hi - lo
    ensures FirstMatch(r1, w, lo, hi) == FirstMatch(r2, w, lo, hi)
  {
    if lo < hi {
      FirstMatchAgrees(r1, r2, w, lo + 1, hi);
    }
  }

  /**
   * After an admin approves the row a profile's login finds, that profile's
   * next login is issued an eight-hour token for the approved row.
   */
  lemma {:induction false} ApprovalAdmitsNextLogin(t: Table, rolDefault: Rol, admin: UserRecord, id: int, now: Time,
                                                  q: CallbackQuery, ex: Exchange, f: CallbackFaults, later: Time)
    requires WellFormed(t) && ReachesStore(q, ex, f)
    requires id in t.rows && Lookup(t, ProfileMatch(ex.profile)) == Some(t.rows[id])
    ensures var t' := AdminHandler(t, admin, Approve(id), false, now).1;
      && t'.rows[id].estado == Aprobado
      && CallbackOutcome(t', rolDefault, q, ex, f, later).0 == Redirect(AuthSuccess(Sign(t'.rows[id], later, RouteTokenLifetime)))
  {
    var w := ProfileMatch(ex.profile);
    var t' := AdminHandler(t, admin, Approve(id), false, now).1;
    FirstMatchAgrees(t.rows, t'.rows, w, 1, t.nextId);
    LookupFindsFirst(t, w);
    assert Lookup(t', w) == Some(t'.rows[id]);
  }
}
