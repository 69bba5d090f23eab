/**
 * scripts/create-admin.js: bootstrap the first administrator, an INSERT
 * guarded by "no approved admin exists yet", and the script's command
 * dispatch.
 */
module CreateAdmin {
  import opened Wrappers
  import opened Users
  import opened Store
  import opened Http
  import opened Gate

  const AdminMicrosoftId := "7ef32de5-906b-4cc3-9292-fb130a69fdec"
  const AdminEmail := "jdatosanalitica@ucacue.edu.ec"
  const AdminNombre := "Jefatura"
  const AdminApellidos := "Datos y Analitica"

  /** The fixed administrator row, both dates being CURRENT_TIMESTAMP at `now`. */
  function AdminRow(now: Time): UserRecord {
    NewRow(Some(AdminMicrosoftId), Some(AdminEmail), Some(AdminNombre), Some(AdminApellidos), None,
           Aprobado, Admin, Some(now), Some(now))
  }

  datatype CreateResult = AdminCreated(id: int) | AdminExists | LookupFailed | InsertFailed

  datatype CreateFaults = CreateFaults(lookup: bool, insert: bool)

  /** `createInitialAdmin`: its result and the table afterwards. */
  function CreateInitialAdmin(t: Table, now: Time, f: CreateFaults): (CreateResult, Table) {
    if f.lookup then (LookupFailed, t)
    else if Lookup(t, ApprovedAdmin).Some? then (AdminExists, t)
    else if f.insert then (InsertFailed, t)
    else
      var (t', id) := InsertRow(t, AdminRow(now));
      (AdminCreated(id), t')
  }

  method CreateInitial(store: UserStore, now: Time, f: CreateFaults) returns (r: CreateResult)
    requires store.Valid()
    modifies store
    ensures store.Valid()
    ensures (r, store.State()) == CreateInitialAdmin(old(store.State()), now, f)
  {
    if f.lookup {
      return LookupFailed;
    }
    var admin := store.ExistsApprovedAdmin();
    if admin {
      return AdminExists;
    }
    if f.insert {
      return InsertFailed;
    }
    var id := store.Insert(AdminRow(now));
    r := AdminCreated(id);
  }

  /** Some row is an approved admin. */
  ghost predicate HasApprovedAdmin(t: Table) {
    exists k :: k in t.rows && IsApprovedAdmin(t.rows[k])
  }

  // ---------------------------------------------------------------------------
  // Properties

  /** With an approved admin in the table, or a failed lookup, nothing is inserted. */
  lemma {:induction false} GuardBlocksInsert(t: Table, now: Time, f: CreateFaults)
    requires WellFormed(t)
    requires f.lookup || HasApprovedAdmin(t)
    ensures CreateInitialAdmin(t, now, f).1 == t
    ensures CreateInitialAdmin(t, now, f).0 == (if f.lookup then LookupFailed else AdminExists)
  {
    LookupFindsFirst(t, ApprovedAdmin);
  }

  /**
   * Without an approved admin, a run whose statements succeed inserts exactly
   * one row, the fixed approved admin with both dates set, and the gate's
   * `requireAdmin` accepts it.
   */
  lemma {:induction false} CreatesTheAdmin(t: Table, now: Time, f: CreateFaults)
    requires WellFormed(t) && !f.lookup && !f.insert && !HasApprovedAdmin(t)
    ensures var (r, t') := CreateInitialAdmin(t, now, f);
      && r == AdminCreated(t.nextId)
      && WellFormed(t') && |t'.rows| == |t.rows| + 1
      && (forall k :: k in t.rows ==> t'.rows[k] == t.rows[k])
      && t'.rows[t.nextId] == AdminRow(now).(id := t.nextId)
      && t'.rows[t.nextId].estado == Aprobado && t'.rows[t.nextId].rol == Admin
      && t'.rows[t.nextId].microsoftId == Some(AdminMicrosoftId) && t'.rows[t.nextId].email == Some(AdminEmail)
      && t'.rows[t.nextId].fechaRegistro == Some(now) && t'.rows[t.nextId].fechaAprobacion == Some(now)
      && RequireAdmin(Some(t'.rows[t.nextId])) == Next
      && HasApprovedAdmin(t')
  {
    LookupFindsFirst(t, ApprovedAdmin);
    InsertKeepsWellFormed(t, AdminRow(now));
    assert t.nextId !in t.rows;
    var t' := CreateInitialAdmin(t, now, f).1;
    assert IsApprovedAdmin(t'.rows[t.nextId]);
  }

  /** Running `create` twice, whatever fails and whenever, inserts at most one row. */
  lemma {:induction false} CreateTwiceAtMostOne(t: Table, now1: Time, now2: Time, f1: CreateFaults, f2: CreateFaults)
    requires WellFormed(t)
    ensures var t1 := CreateInitialAdmin(t, now1, f1).1; var t2 := CreateInitialAdmin(t1, now2, f2).1;
      WellFormed(t2) && |t2.rows| <= |t.rows| + 1 && (HasApprovedAdmin(t) ==> t2 == t)
  {
    var t1 := CreateInitialAdmin(t, now1, f1).1;
    LookupFindsFirst(t, ApprovedAdmin);
    InsertKeepsWellFormed(t, AdminRow(now1));
    if t1 == t {
      LookupFindsFirst(t, ApprovedAdmin);
      InsertKeepsWellFormed(t, AdminRow(now2));
    } else {
      CreatesTheAdmin(t, now1, f1);
      GuardBlocksInsert(t1, now2, f2);
    }
  }

  // ---------------------------------------------------------------------------
  // Command dispatch: `process.argv[2]`

  datatype Command = Create | List | Usage

  function Dispatch(arg: Option<string>): (c: Command)
    ensures c == Create <==> arg == Some("create")
    ensures c == List <==> arg == Some("list")
    ensures c == Usage <==> arg != Some("create") && arg != Some("list")
  {
    if arg == Some("create") then Create
    else if arg == Some("list") then List
    else Usage
  }

  /** How the script ends: an explicit `process.exit(code)`, or by returning with nothing left to do. */
  datatype ScriptEnd = ExitWith(code: int) | Returns

  /** The whole script; `listFailed` says whether `listUsers`'s query fails. */
  function RunScript(t: Table, arg: Option<string>, now: Time, f: CreateFaults, listFailed: bool): (ScriptEnd, Table) {
    match Dispatch(arg)
    case Create =>
      var (r, t') := CreateInitialAdmin(t, now, f);
      (if r.AdminCreated? then ExitWith(0) else Returns, t')
    case List => (if listFailed then Returns else ExitWith(0), t)
    case Usage => (ExitWith(1), t)
  }

  /**
   * The script exits with code 1 exactly for an argument other than
   * `create` and `list`, and only `create` writes to the table.
   */
  lemma DispatchOutcome(t: Table, arg: Option<string>, now: Time, f: CreateFaults, listFailed: bool)
    ensures RunScript(t, arg, now, f, listFailed).0 == ExitWith(1) <==> arg != Some("create") && arg != Some("list")
    ensures arg != Some("create") ==> RunScript(t, arg, now, f, listFailed).1 == t
    ensures arg == Some("create") ==> RunScript(t, arg, now, f, listFailed).1 == CreateInitialAdmin(t, now, f).1
  {
  }
}
