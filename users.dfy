/**
 * The `usuarios` record, as the handlers read and write it, and the bits of
 * JavaScript semantics (truthiness, `||`, template interpolation) they rely on.
 */
module Users {
  import opened Wrappers

  /** An instant on an abstract clock, in seconds: SQLite's CURRENT_TIMESTAMP and the JWT clock. */
  type Time = int

  /**
   * The `estado` column. The table's schema is not part of this model, so the
   * column may hold any text; `OtherEstado` stands for every value the code
   * does not compare against, and its text is none of the three it does.
   */
  datatype Estado = Pendiente | Aprobado | Rechazado | OtherEstado(raw: UnknownEstado)

  /** Text of an `estado` that is not one of the three the code knows. */
  type UnknownEstado = s: string | s != "pendiente" && s != "aprobado" && s != "rechazado" witness ""

  /** The `rol` column; `OtherRol` stands for any value other than the two the code knows. */
  datatype Rol = Usuario | Admin | OtherRol(raw: UnknownRol)

  /** Text of a `rol` that is neither "usuario" nor "admin". */
  type UnknownRol = s: string | s != "usuario" && s != "admin" witness ""

  /** The text the column holds for an `estado`. */
  function EstadoText(e: Estado): (s: string)
    ensures s == "aprobado" <==> e == Aprobado
    ensures s == "pendiente" <==> e == Pendiente
    ensures s == "rechazado" <==> e == Rechazado
  {
    match e
    case Pendiente => "pendiente"
    case Aprobado => "aprobado"
    case Rechazado => "rechazado"
    case OtherEstado(raw) => raw
  }

  /** The text the column holds for a `rol`. */
  function RolText(r: Rol): (s: string)
    ensures s == "admin" <==> r == Admin
    ensures s == "usuario" <==> r == Usuario
  {
    match r
    case Usuario => "usuario"
    case Admin => "admin"
    case OtherRol(raw) => raw
  }

  /** One row of `usuarios`. None is SQL NULL, or a column an INSERT did not write. */
  datatype UserRecord = UserRecord(
    id: int,
    microsoftId: Option<string>,
    email: Option<string>,
    nombre: Option<string>,
    apellidos: Option<string>,
    fotoUrl: Option<string>,
    estado: Estado,
    rol: Rol,
    fechaRegistro: Option<Time>,
    fechaAprobacion: Option<Time>,
    aprobadoPor: Option<int>,
    ultimoAcceso: Option<Time>)

  /** JavaScript truthiness of a string that may be undefined or null. */
  predicate Truthy(v: Option<string>) {
    v.Some? && v.value != ""
  }

  /** JavaScript `a || b` on possibly-absent strings. */
  function JsOr(a: Option<string>, b: Option<string>): (r: Option<string>)
    ensures Truthy(a) ==> r == a
    ensures !Truthy(a) ==> r == b
    ensures Truthy(r) <==> Truthy(a) || Truthy(b)
  {
    if Truthy(a) then a else b
  }

  /** What a template literal `${v}` yields: an undefined value prints as "undefined". */
  function Interpolate(v: Option<string>): (s: string)
    ensures v.Some? ==> s == v.value
    ensures v.None? ==> s == "undefined"
  {
    if v.Some? then v.value else "undefined"
  }

  /** `user.rol === 'admin' && user.estado === 'aprobado'`. */
  predicate IsApprovedAdmin(u: UserRecord) {
    u.rol == Admin && u.estado == Aprobado
  }
}
