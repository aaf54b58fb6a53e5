/** The values a request's context carries, made explicit. The source keeps
    the caller's identity in the context under two different keys: the
    authentication package stores an `auth.User` (internal/auth/user.go) and
    the HTTP package stores its own `http.User` (internal/http/context.go).
    Each key is read back only by its own package's `UserFromContext`. */
module RequestContext {

  import opened Optional
  import AuthStore

  /** `http.User` of internal/http/context.go. */
  datatype HttpUser = HttpUser(id: int, name: string)

  /** A request context: whether it is already done, and the user stored
      under each package's key. */
  datatype Context = Context(cancelled: bool, authUser: Option<AuthStore.User>, httpUser: Option<HttpUser>)

  /** A fresh, live context with no user. */
  function Background(): Context {
    Context(false, None, None)
  }
}
