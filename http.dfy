/** The responses the handlers and middleware send, with redirect targets as opaque tags. */
module Http {
  import opened Wrappers
  import opened Users
  import opened Tokens

  /** Where a redirect points; the frontend URLs are tags, the login URL is kept as text. */
  datatype Location =
    | PendingApproval           // http://localhost:3000/pending-approval
    | AccessDenied              // http://localhost:3000/access-denied
    | AuthSuccess(token: Claims) // http://localhost:3000/auth-success?token=<signed claims>
    | LoginPage                 // /login
    | Authorize(url: string)    // the identity provider's authorization endpoint

  datatype Response =
    | ErrorJson(status: int, error: string, details: Option<string>)  // res.status(s).json({ error, details })
    | MessageJson(message: string)                                   // res.json({ message }), status 200
    | UserJson(user: UserRecord)                                     // res.json(<fields of the user>), status 200
    | Forbidden(text: string)                                        // res.status(403).send(text)
    | Redirect(location: Location)
    | NoResponse                                                     // the handler returns without answering

  /** The body of every 500 the store's failures produce. */
  const InternalErrorMessage := "Error interno del servidor"

  /** What a middleware does: call `next()`, or answer and stop the chain. */
  datatype Step = Next | Halt(response: Response)

  /** The HTTP status a response carries. */
  function StatusOf(r: Response): (s: int)
    ensures r.ErrorJson? ==> s == r.status
    ensures r.MessageJson? || r.UserJson? ==> s == 200
    ensures r.Redirect? ==> s == 302
  {
    match r
    case ErrorJson(s, _, _) => s
    case MessageJson(_) => 200
    case UserJson(_) => 200
    case Forbidden(_) => 403
    case Redirect(_) => 302
    case NoResponse => 0
  }
}
