/** Registration and login. Password hashing, token signing and the e-mail syntax check are
    library calls and enter as parameters: the hash the registration stores, a verification
    predicate, a signing function and an e-mail predicate. */
module Auth {
  import opened Wrappers
  import opened Seqs
  import opened Domain
  import opened Storage

  /** A request body field: absent, or the text sent. */
  datatype RegisterRequest = RegisterRequest(name: Option<string>, email: Option<string>, password: Option<string>, role: Option<string>)
  datatype LoginRequest = LoginRequest(email: Option<string>, password: Option<string>)

  /** The account as the routes return it: every stored field but the password hash. */
  datatype PublicUser = PublicUser(id: nat, name: string, email: string, role: Role, createdAt: nat)
  datatype Session = Session(token: string, user: PublicUser)

  function Public(u: User): (p: PublicUser)
    ensures p.id == u.id && p.name == u.name && p.email == u.email && p.role == u.role && p.createdAt == u.createdAt
  {
    PublicUser(u.id, u.name, u.email, u.role, u.createdAt)
  }

  /** Two accounts look the same from outside exactly when they differ at most in the password
      hash: the hash never shows, and every other field does. */
  lemma PublicHidesOnlyHash(u: User, v: User)
    ensures Public(u) == Public(v) <==> u.(passwordHash := v.passwordHash) == v
  {
  }

  const RoleEnumMessage := "Invalid enum value. Expected 'FARMER' | 'DISTRIBUTOR' | 'RETAILER' | 'CONSUMER', received '"

  /** The first failing field of the registration schema, in field order: a name of at least two
      characters, an e-mail address, a password of at least eight, one of the four roles. */
  function RegisterSchemaError(req: RegisterRequest, isEmail: string -> bool): (e: Option<string>)
    ensures e.None? <==>
      && req.name.Some? && |req.name.value| >= 2
      && req.email.Some? && isEmail(req.email.value)
      && req.password.Some? && |req.password.value| >= 8
      && req.role.Some? && ParseRole(req.role.value).Some?
  {
    if req.name.None? then Some("Required")
    else if |req.name.value| < 2 then Some("Name must be at least 2 characters")
    else if req.email.None? then Some("Required")
    else if !isEmail(req.email.value) then Some("Invalid email address")
    else if req.password.None? then Some("Required")
    else if |req.password.value| < 8 then Some("Password must be at least 8 characters")
    else if req.role.None? then Some("Required")
    else if ParseRole(req.role.value).None? then Some(RoleEnumMessage + req.role.value + "'")
    else None
  }

  /** The position of the account registered under `email`. */
  function UserIndex(users: seq<User>, email: string): (r: Option<nat>)
    ensures r.Some? ==> r.value < |users| && users[r.value].email == email
    ensures r.None? <==> forall i :: 0 <= i < |users| ==> users[i].email != email
  {
    LastIndexWhere(users, (u: User) => u.email == email)
  }

  /** Registration: the schema first, then the e-mail must be new; the account is stored with
      the hash and the caller gets a token and the account without its hash. */
  function Register(s: Store, req: RegisterRequest, isEmail: string -> bool, hashed: string,
                    sign: nat -> string, elapsed: nat): (r: Reply<Session>)
    ensures RegisterSchemaError(req, isEmail).Some? ==>
      r == Reply(Failure(Validation(RegisterSchemaError(req, isEmail).value)), s)
    ensures (RegisterSchemaError(req, isEmail).None? && UserIndex(s.users, req.email.value).Some?) ==>
      r == Reply(Failure(Validation("User with this email already exists")), s)
    ensures r.result.Success? <==>
      RegisterSchemaError(req, isEmail).None? && UserIndex(s.users, req.email.value).None?
    ensures r.result.Success? ==>
      var u := r.result.value.user;
      && u.name == req.name.value && u.email == req.email.value && RoleName(u.role) == req.role.value
      && r.result.value.token == sign(u.id)
      && r.store.users == s.users + [User(u.id, u.name, u.email, hashed, u.role, u.createdAt)]
      && r.store.batches == s.batches && r.store.events == s.events && r.store.txs == s.txs
  {
    match RegisterSchemaError(req, isEmail)
    case Some(m) => Reply(Failure(Validation(m)), s)
    case None =>
      var email := req.email.value;
      if UserIndex(s.users, email).Some? then Reply(Failure(Validation("User with this email already exists")), s)
      else
        var now := s.clock + elapsed;
        var u := User(s.nextId, req.name.value, email, hashed, ParseRole(req.role.value).value, now);
        Reply(Success(Session(sign(u.id), Public(u))), s.(users := s.users + [u], nextId := s.nextId + 1, clock := now))
  }

  /** The first failing field of the login schema: an e-mail address, then a non-empty password. */
  function LoginSchemaError(req: LoginRequest, isEmail: string -> bool): (e: Option<string>)
    ensures e.None? <==> req.email.Some? && isEmail(req.email.value) && req.password.Some? && req.password.value != ""
  {
    if req.email.None? then Some("Required")
    else if !isEmail(req.email.value) then Some("Invalid email address")
    else if req.password.None? then Some("Required")
    else if req.password.value == "" then Some("Password is required")
    else None
  }

  const BadCredentials := "Invalid email or password"

  /** Login: the schema, then the account, then the password; an unknown address and a wrong
      password fail alike. Nothing is stored. */
  function Login(s: Store, req: LoginRequest, isEmail: string -> bool, verify: (string, string) -> bool,
                 sign: nat -> string): (r: Result<Session, Error>)
    ensures LoginSchemaError(req, isEmail).Some? ==> r == Failure(Validation(LoginSchemaError(req, isEmail).value))
    ensures r.Success? <==>
      && LoginSchemaError(req, isEmail).None? && UserIndex(s.users, req.email.value).Some?
      && verify(req.password.value, s.users[UserIndex(s.users, req.email.value).value].passwordHash)
    ensures (LoginSchemaError(req, isEmail).None? && r.Failure?) ==> r == Failure(Unauthorized(BadCredentials))
    ensures r.Success? ==>
      var u := s.users[UserIndex(s.users, req.email.value).value];
      r.value == Session(sign(u.id), Public(u))
  {
    match LoginSchemaError(req, isEmail)
    case Some(m) => Failure(Validation(m))
    case None =>
      match UserIndex(s.users, req.email.value)
      case None => Failure(Unauthorized(BadCredentials))
      case Some(i) =>
        var u := s.users[i];
        if !verify(req.password.value, u.passwordHash) then Failure(Unauthorized(BadCredentials))
        else Success(Session(sign(u.id), Public(u)))
  }

  // ---------------------------------------------------------------------------------------------
  // Properties

  /** An invalid registration is refused the same way whatever the store holds, and changes nothing. */
  lemma InvalidRegistrationIgnoresStore(s1: Store, s2: Store, req: RegisterRequest, isEmail: string -> bool,
                                        hashed: string, sign: nat -> string, e1: nat, e2: nat)
    requires RegisterSchemaError(req, isEmail).Some?
    ensures Register(s1, req, isEmail, hashed, sign, e1).result == Register(s2, req, isEmail, hashed, sign, e2).result
    ensures Register(s1, req, isEmail, hashed, sign, e1).store == s1
  {
  }

  /** An invalid login is refused the same way whatever the store holds. */
  lemma InvalidLoginIgnoresStore(s1: Store, s2: Store, req: LoginRequest, isEmail: string -> bool,
                                 verify: (string, string) -> bool, sign: nat -> string)
    requires LoginSchemaError(req, isEmail).Some?
    ensures Login(s1, req, isEmail, verify, sign) == Login(s2, req, isEmail, verify, sign)
  {
  }

  /** An unknown address and a wrong password for a known one give the same answer. */
  lemma LoginFailuresAlike(s: Store, unknown: LoginRequest, wrong: LoginRequest, isEmail: string -> bool,
                           verify: (string, string) -> bool, sign: nat -> string)
    requires LoginSchemaError(unknown, isEmail).None? && LoginSchemaError(wrong, isEmail).None?
    requires UserIndex(s.users, unknown.email.value).None?
    requires UserIndex(s.users, wrong.email.value).Some?
    requires !verify(wrong.password.value, s.users[UserIndex(s.users, wrong.email.value).value].passwordHash)
    ensures Login(s, unknown, isEmail, verify, sign) == Login(s, wrong, isEmail, verify, sign)
  {
  }

  /** Registering an address twice fails the second time. */
  lemma SecondRegistrationRefused(s: Store, req: RegisterRequest, isEmail: string -> bool, h1: string, h2: string,
                                  sign: nat -> string, e1: nat, e2: nat)
    requires Register(s, req, isEmail, h1, sign, e1).result.Success?
    ensures var t := Register(s, req, isEmail, h1, sign, e1).store;
      Register(t, req, isEmail, h2, sign, e2).result == Failure(Validation("User with this email already exists"))
  {
    var t := Register(s, req, isEmail, h1, sign, e1).store;
    assert t.users[|s.users|].email == req.email.value;
  }

  /** After registering, logging in with the same address and password succeeds as the new account,
      provided the verification accepts the password against the hash that was stored. */
  lemma RegisterThenLogin(s: Store, req: RegisterRequest, isEmail: string -> bool, hashed: string,
                          verify: (string, string) -> bool, sign: nat -> string, elapsed: nat)
    requires Valid(s)
    requires Register(s, req, isEmail, hashed, sign, elapsed).result.Success?
    requires verify(req.password.value, hashed)
    ensures var r := Register(s, req, isEmail, hashed, sign, elapsed);
      Login(r.store, LoginRequest(req.email, req.password), isEmail, verify, sign) == Success(r.result.value)
  {
    var r := Register(s, req, isEmail, hashed, sign, elapsed);
    var t := r.store;
    assert t.users[|s.users|].email == req.email.value;
    assert UserIndex(t.users, req.email.value) == Some(|s.users|);
  }

  /** Registration keeps the invariant; in particular addresses stay distinct. */
  lemma RegisterPreservesValid(s: Store, req: RegisterRequest, isEmail: string -> bool, hashed: string,
                               sign: nat -> string, elapsed: nat)
    requires Valid(s)
    ensures Valid(Register(s, req, isEmail, hashed, sign, elapsed).store)
  {
    var r := Register(s, req, isEmail, hashed, sign, elapsed);
    if r.result.Success? {
      var t := r.store;
      assert EmailsDistinct(t.users);
      assert KeysBelowCounter(t);
      assert Chronological(t);
      assert forall i :: 0 <= i < |t.batches| ==> BornCreated(t.events, t.batches[i]) by {
        assert t.batches == s.batches && t.events == s.events;
      }
    }
  }
}
