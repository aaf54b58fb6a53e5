/** Registration and login (internal/auth/handler.go) without HTTP: the order
    of the input checks, the status and message of each failure, and the
    store call on success. JSON decoding is reduced to "the body decoded or
    not"; bcrypt comparison and JWT signing are functions the caller
    supplies. */
module AuthHandler {

  import opened Optional
  import GoText
  import opened AuthStore
  import opened HttpStatus

  /** The decoded body of a register or login request. */
  datatype Credentials = Credentials(email: string, password: string)

  datatype Body = Message(text: string) | Auth(token: string, user: User)

  datatype Reply = Reply(status: int, body: Body)

  /** Shortest password Register accepts, in bytes. */
  const MinPasswordBytes: nat := 6

  /** Register's input checks, in the source's order: both fields present,
      then the password length. */
  function CheckRegisterInput(c: Credentials): (msg: Option<string>)
    ensures msg.None? <==> c.email != "" && c.password != "" && GoText.Utf8Len(c.password) >= MinPasswordBytes
    ensures c.email == "" || c.password == "" ==> msg == Some("email and password required")
    ensures c.email != "" && c.password != "" && GoText.Utf8Len(c.password) < MinPasswordBytes
            ==> msg == Some("password must be at least 6 characters")
  {
    if c.email == "" || c.password == "" then Some("email and password required")
    else if GoText.Utf8Len(c.password) < MinPasswordBytes then Some("password must be at least 6 characters")
    else None
  }

  /** `Register`: the reply and the registry afterwards. `generate` stands for
      signing a 24-hour token for a user id and email. */
  function RegisterFlow(r: Registry, req: Option<Credentials>, hash: string -> HashOutcome,
                        generate: (int, string) -> Option<string>): (Reply, Registry)
  {
    if req.None? then (Reply(StatusBadRequest, Message("invalid JSON")), r)
    else
      match CheckRegisterInput(req.value)
      case Some(m) => (Reply(StatusBadRequest, Message(m)), r)
      case None =>
        var (res, r') := Insert(r, req.value.email, req.value.password, hash);
        match res
        case Refused(m) => (Reply(StatusBadRequest, Message(m)), r')
        case Found(u) =>
          match generate(u.id, u.email)
          case None => (Reply(StatusInternalServerError, Message("failed to generate token")), r')
          case Some(t) => (Reply(StatusCreated, Auth(t, u)), r')
  }

  /** `Login`: the reply. `matches(hashed, password)` stands for bcrypt's
      comparison succeeding. */
  function LoginFlow(r: Registry, req: Option<Credentials>, matches: (string, string) -> bool,
                     generate: (int, string) -> Option<string>): Reply
  {
    if req.None? then Reply(StatusBadRequest, Message("invalid JSON"))
    else
      match ByEmail(r, req.value.email)
      case Refused(_) => Reply(StatusUnauthorized, Message("invalid credentials"))
      case Found(u) =>
        if !matches(u.password, req.value.password) then Reply(StatusUnauthorized, Message("invalid credentials"))
        else
          match generate(u.id, u.email)
          case None => Reply(StatusInternalServerError, Message("failed to generate token"))
          case Some(t) => Reply(StatusOK, Auth(t, u))
  }

  class Handler {
    const userStore: MemoryUserStore

    constructor (userStore: MemoryUserStore)
      ensures this.userStore == userStore
    {
      this.userStore := userStore;
    }

    method Register(req: Option<Credentials>, hash: string -> HashOutcome,
                    generate: (int, string) -> Option<string>) returns (reply: Reply)
      modifies userStore
      ensures (reply, userStore.State()) == RegisterFlow(old(userStore.State()), req, hash, generate)
    {
      if req.None? {
        return Reply(StatusBadRequest, Message("invalid JSON"));
      }
      var c := req.value;
      if c.email == "" || c.password == "" {
        return Reply(StatusBadRequest, Message("email and password required"));
      }
      if GoText.Utf8Len(c.password) < MinPasswordBytes {
        return Reply(StatusBadRequest, Message("password must be at least 6 characters"));
      }
      var res := userStore.Create(c.email, c.password, hash);
      if res.Refused? {
        return Reply(StatusBadRequest, Message(res.message));
      }
      var token := generate(res.user.id, res.user.email);
      if token.None? {
        return Reply(StatusInternalServerError, Message("failed to generate token"));
      }
      reply := Reply(StatusCreated, Auth(token.value, res.user));
    }

    method Login(req: Option<Credentials>, matches: (string, string) -> bool,
                 generate: (int, string) -> Option<string>) returns (reply: Reply)
      ensures reply == LoginFlow(userStore.State(), req, matches, generate)
    {
      if req.None? {
        return Reply(StatusBadRequest, Message("invalid JSON"));
      }
      var res := userStore.GetByEmail(req.value.email);
      if res.Refused? {
        return Reply(StatusUnauthorized, Message("invalid credentials"));
      }
      if !matches(res.user.password, req.value.password) {
        return Reply(StatusUnauthorized, Message("invalid credentials"));
      }
      var token := generate(res.user.id, res.user.email);
      if token.None? {
        return Reply(StatusInternalServerError, Message("failed to generate token"));
      }
      reply := Reply(StatusOK, Auth(token.value, res.user));
    }
  }

  // ---------------------------------------------------------------------------
  // Properties of registration and login.

  /** Bad input is answered with 400 before the store is called, so the
      registry is unchanged; an empty field is reported even when the
      password is also short, and otherwise the short password is. */
  lemma RegisterRejectsBadInput(r: Registry, c: Credentials, hash: string -> HashOutcome,
                                generate: (int, string) -> Option<string>)
    requires c.email == "" || c.password == "" || GoText.Utf8Len(c.password) < MinPasswordBytes
    ensures var (reply, r') := RegisterFlow(r, Some(c), hash, generate);
      && reply.status == StatusBadRequest
      && r' == r
      && (c.email == "" || c.password == "" ==> reply.body == Message("email and password required"))
      && (c.email != "" && c.password != "" ==> reply.body == Message("password must be at least 6 characters"))
  {
  }

  /** A duplicate email is answered with 400 and changes nothing. */
  lemma RegisterDuplicateEmail(r: Registry, c: Credentials, hash: string -> HashOutcome,
                               generate: (int, string) -> Option<string>)
    requires CheckRegisterInput(c).None? && c.email in r.emails
    ensures RegisterFlow(r, Some(c), hash, generate) == (Reply(StatusBadRequest, Message("email already registered")), r)
  {
  }

  /** A successful registration answers 201 with a token and the created user,
      whose stored password is the hash of the one given, and keeps the
      registry consistent. A token failure answers 500 but the user stays
      registered. */
  lemma RegisterSuccess(r: Registry, c: Credentials, hash: string -> HashOutcome,
                        generate: (int, string) -> Option<string>)
    requires Consistent(r) && CheckRegisterInput(c).None? && c.email !in r.emails && hash(c.password).Hashed?
    ensures var (reply, r') := RegisterFlow(r, Some(c), hash, generate);
      var u := User(r.nextID, c.email, hash(c.password).digest);
      && Consistent(r')
      && ByEmail(r', c.email) == Found(u)
      && (generate(u.id, u.email).Some? ==> reply == Reply(StatusCreated, Auth(generate(u.id, u.email).value, u)))
      && (generate(u.id, u.email).None? ==> reply.status == StatusInternalServerError)
  {
    InsertPreservesConsistent(r, c.email, c.password, hash);
  }

  /** Login fails with the same 401 reply whether the email is unknown or the
      password is wrong, so the reply does not reveal which. */
  lemma LoginFailuresLookAlike(r: Registry, c: Credentials, matches: (string, string) -> bool,
                               generate: (int, string) -> Option<string>)
    ensures var reply := LoginFlow(r, Some(c), matches, generate);
      && (ByEmail(r, c.email).Refused? ==> reply == Reply(StatusUnauthorized, Message("invalid credentials")))
      && (ByEmail(r, c.email).Found? && !matches(ByEmail(r, c.email).user.password, c.password) ==>
            reply == Reply(StatusUnauthorized, Message("invalid credentials")))
      && (reply.status == StatusUnauthorized ==> reply.body == Message("invalid credentials"))
  {
  }

  /** In a consistent registry, login succeeds exactly for a registered email
      whose password matches (and a token is issued), and returns that user. */
  lemma LoginSuccessIff(r: Registry, c: Credentials, matches: (string, string) -> bool,
                        generate: (int, string) -> Option<string>)
    requires Consistent(r)
    ensures var reply := LoginFlow(r, Some(c), matches, generate);
      reply.status == StatusOK <==>
        exists id :: id in r.users && r.users[id].email == c.email
          && matches(r.users[id].password, c.password) && generate(id, c.email).Some?
    ensures var reply := LoginFlow(r, Some(c), matches, generate);
      reply.status == StatusOK ==> reply.body.Auth? && reply.body.user.email == c.email && reply.body.user in r.users.Values
  {
    var reply := LoginFlow(r, Some(c), matches, generate);
    if c.email in r.emails {
      var id := r.emails[c.email];
      assert id in r.users && r.users[id].email == c.email;
      forall id' | id' in r.users && r.users[id'].email == c.email ensures id' == id {
        EmailIndexIff(r, c.email, id');
      }
    }
  }

  /** Register then login: once registered, logging in with the same password
      succeeds (given that bcrypt accepts a password against its own hash)
      and returns the same user. */
  lemma RegisterThenLogin(r: Registry, c: Credentials, hash: string -> HashOutcome,
                          matches: (string, string) -> bool, generate: (int, string) -> Option<string>)
    requires Consistent(r) && CheckRegisterInput(c).None? && c.email !in r.emails && hash(c.password).Hashed?
    requires matches(hash(c.password).digest, c.password)
    requires generate(r.nextID, c.email).Some?
    ensures var (reply1, r') := RegisterFlow(r, Some(c), hash, generate);
      var reply2 := LoginFlow(r', Some(c), matches, generate);
      && reply1.status == StatusCreated
      && reply2.status == StatusOK
      && reply2.body.user == reply1.body.user
  {
  }
}
