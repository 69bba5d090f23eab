/**
 * The `usuarios` table: rows keyed by rowid, the SQL statements the core
 * issues against it, and the store object whose state those statements
 * change. A query without ORDER BY is taken to return the first matching row
 * in rowid order, as a table scan does.
 */
module Store {
  import opened Wrappers
  import opened Users

  /** The table's rows by id, and the id the next INSERT receives. */
  datatype Table = Table(rows: map<int, UserRecord>, nextId: int)

  /** Ids are positive, below the next id to hand out, and each row carries its own id. */
  ghost predicate WellFormed(t: Table) {
    && t.nextId >= 1
    && forall k :: k in t.rows ==> 1 <= k < t.nextId && t.rows[k].id == k
  }

  /** SQL `col = ?`: NULL on either side never matches. */
  predicate SqlEq(col: Option<string>, param: Option<string>) {
    col.Some? && param.Some? && col.value == param.value
  }

  /** The WHERE clauses of the core's row lookups. */
  datatype Where =
    | IdOrEmail(microsoftId: Option<string>, email: Option<string>) // microsoft_id = ? OR email = ?
    | ByMicrosoftId(microsoftId: Option<string>)                    // microsoft_id = ?
    | ApprovedAdmin                                                 // rol = "admin" AND estado = "aprobado"

  predicate Satisfies(r: UserRecord, w: Where) {
    match w
    case IdOrEmail(m, e) => SqlEq(r.microsoftId, m) || SqlEq(r.email, e)
    case ByMicrosoftId(m) => SqlEq(r.microsoftId, m)
    case ApprovedAdmin => IsApprovedAdmin(r)
  }

  /** The smallest id in [lo, hi) whose row satisfies `w`. */
  function FirstMatch(rows: map<int, UserRecord>, w: Where, lo: int, hi: int): (r: Option<int>)
    decreases hi - lo
    ensures r.Some? ==> lo <= r.value < hi && r.value in rows && Satisfies(rows[r.value], w)
    ensures r.Some? ==> forall j :: lo <= j < r.value && j in rows ==> !Satisfies(rows[j], w)
    ensures r.None? <==> forall j :: lo <= j < hi && j in rows ==> !Satisfies(rows[j], w)
  {
    if lo >= hi then None
    else if lo in rows && Satisfies(rows[lo], w) then Some(lo)
    else FirstMatch(rows, w, lo + 1, hi)
  }

  /** `db.get('SELECT * FROM usuarios WHERE <w>')`. */
  function Lookup(t: Table, w: Where): (r: Option<UserRecord>)
  {
    match FirstMatch(t.rows, w, 1, t.nextId)
    case None => None
    case Some(k) => Some(t.rows[k])
  }

  /** In a well-formed table, a lookup finds a row exactly when some row satisfies the clause. */
  lemma LookupFindsFirst(t: Table, w: Where)
    requires WellFormed(t)
    ensures Lookup(t, w).None? <==> forall k :: k in t.rows ==> !Satisfies(t.rows[k], w)
    ensures Lookup(t, w).Some? ==> var u := Lookup(t, w).value;
      && u.id in t.rows && t.rows[u.id] == u && Satisfies(u, w)
      && forall k :: k in t.rows && k < u.id ==> !Satisfies(t.rows[k], w)
  {
  }

  /** The single-column and multi-column UPDATEs the core issues, `SET` part only. */
  datatype Update =
    | SetMicrosoftId(microsoftId: Option<string>)  // SET microsoft_id = ?
    | SetUltimoAcceso(at: Time)                    // SET ultimo_acceso = CURRENT_TIMESTAMP
    | SetAprobado(at: Time, approver: int)             // SET estado = "aprobado", fecha_aprobacion = CURRENT_TIMESTAMP, aprobado_por = ?
    | SetRechazado(approver: int)                      // SET estado = "rechazado", aprobado_por = ?
    | SetRol(rol: Rol)                             // SET rol = ?

  /** The row after one SET: exactly the named columns change. */
  function Apply(r: UserRecord, u: Update): (r': UserRecord)
    ensures r'.id == r.id
  {
    match u
    case SetMicrosoftId(m) => r.(microsoftId := m)
    case SetUltimoAcceso(at) => r.(ultimoAcceso := Some(at))
    case SetAprobado(at, approver) => r.(estado := Aprobado, fechaAprobacion := Some(at), aprobadoPor := Some(approver))
    case SetRechazado(approver) => r.(estado := Rechazado, aprobadoPor := Some(approver))
    case SetRol(rol) => r.(rol := rol)
  }

  /** `UPDATE usuarios SET <u> WHERE id = ?`, with the statement's `changes` count. */
  function UpdateById(t: Table, id: int, u: Update): (r: (Table, nat))
    ensures r.1 == if id in t.rows then 1 else 0
    ensures r.0.nextId == t.nextId && r.0.rows.Keys == t.rows.Keys
    ensures forall k :: k in t.rows && k != id ==> r.0.rows[k] == t.rows[k]
    ensures id in t.rows ==> r.0.rows[id] == Apply(t.rows[id], u)
  {
    if id in t.rows then (Table(t.rows[id := Apply(t.rows[id], u)], t.nextId), 1)
    else (t, 0)
  }

  /** An INSERT: the row gets the next id; no other row changes. */
  function InsertRow(t: Table, row: UserRecord): (r: (Table, int))
    ensures r.1 == t.nextId
    ensures r.0 == Table(t.rows[t.nextId := row.(id := t.nextId)], t.nextId + 1)
  {
    (Table(t.rows[t.nextId := row.(id := t.nextId)], t.nextId + 1), t.nextId)
  }

  /** An UPDATE keeps a table well formed. */
  lemma UpdateKeepsWellFormed(t: Table, id: int, u: Update)
    requires WellFormed(t)
    ensures WellFormed(UpdateById(t, id, u).0)
  {
  }

  /** An INSERT keeps a table well formed and adds exactly one row. */
  lemma InsertKeepsWellFormed(t: Table, row: UserRecord)
    requires WellFormed(t)
    ensures WellFormed(InsertRow(t, row).0)
    ensures |InsertRow(t, row).0.rows| == |t.rows| + 1
  {
    assert t.nextId !in t.rows;
  }

  /** The columns an INSERT fills from its VALUES list; the others get None, and `rol` the column default. */
  function NewRow(microsoftId: Option<string>, email: Option<string>, nombre: Option<string>,
                  apellidos: Option<string>, fotoUrl: Option<string>, estado: Estado, rol: Rol,
                  fechaRegistro: Option<Time>, fechaAprobacion: Option<Time>): (r: UserRecord)
    ensures r.aprobadoPor.None? && r.ultimoAcceso.None?
  {
    UserRecord(0, microsoftId, email, nombre, apellidos, fotoUrl, estado, rol, fechaRegistro, fechaAprobacion, None, None)
  }

  /**
   * The database connection: the table it holds, and the default of the
   * `rol` column, which lives in a schema this model does not include.
   */
  class UserStore {
    var rows: map<int, UserRecord>
    var nextId: int
    const rolDefault: Rol

    function State(): Table
      reads this
    {
      Table(rows, nextId)
    }

    ghost predicate Valid()
      reads this
    {
      WellFormed(State())
    }

    constructor (initial: Table, rolDefault: Rol)
      requires WellFormed(initial)
      ensures Valid() && State() == initial && this.rolDefault == rolDefault
    {
      rows := initial.rows;
      nextId := initial.nextId;
      this.rolDefault := rolDefault;
    }

    /** `db.get` with a WHERE clause. */
    method Get(w: Where) returns (r: Option<UserRecord>)
      requires Valid()
      ensures r == Lookup(State(), w)
      ensures r.Some? ==> r.value.id in rows && rows[r.value.id] == r.value && Satisfies(r.value, w)
      ensures r.None? ==> forall k :: k in rows ==> !Satisfies(rows[k], w)
    {
      LookupFindsFirst(State(), w);
      var k := FirstMatch(rows, w, 1, nextId);
      r := if k.Some? then Some(rows[k.value]) else None;
    }

    /** `db.get('SELECT * FROM usuarios WHERE id = ?')`. */
    method GetById(id: int) returns (r: Option<UserRecord>)
      requires Valid()
      ensures r.Some? <==> id in rows
      ensures r.Some? ==> r.value == rows[id] && r.value.id == id
    {
      r := if id in rows then Some(rows[id]) else None;
    }

    /** `db.run('INSERT INTO usuarios ...')`, yielding `this.lastID`. */
    method Insert(row: UserRecord) returns (id: int)
      requires Valid()
      modifies this
      ensures Valid()
      ensures (State(), id) == InsertRow(old(State()), row)
    {
      InsertKeepsWellFormed(State(), row);
      id := nextId;
      rows := rows[id := row.(id := id)];
      nextId := nextId + 1;
    }

    /** `db.run('UPDATE usuarios SET ... WHERE id = ?')`, yielding `this.changes`. */
    method Update(id: int, u: Update) returns (changes: nat)
      requires Valid()
      modifies this
      ensures Valid()
      ensures (State(), changes) == UpdateById(old(State()), id, u)
    {
      UpdateKeepsWellFormed(State(), id, u);
      if id in rows {
        rows := rows[id := Apply(rows[id], u)];
        changes := 1;
      } else {
        changes := 0;
      }
    }

    /** `db.get('SELECT id FROM usuarios WHERE rol = "admin" AND estado = "aprobado"')`, as a yes/no. */
    method ExistsApprovedAdmin() returns (found: bool)
      requires Valid()
      ensures found <==> exists k :: k in rows && IsApprovedAdmin(rows[k])
      ensures found <==> Lookup(State(), ApprovedAdmin).Some?
    {
      LookupFindsFirst(State(), ApprovedAdmin);
      var r := Get(ApprovedAdmin);
      found := r.Some?;
    }
  }
}
