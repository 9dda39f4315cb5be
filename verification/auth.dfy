/** src/lib/auth.ts: the credentials check and the `jwt` / `session`
    callbacks of the authentication options. */
module Auth {
  import opened Wrappers
  import opened Types
  import opened Database

  datatype Credentials = Credentials(email: string, password: string)

  /** What `authorize` hands to the authentication library: no hash, no role. */
  datatype AuthUser = AuthUser(id: string, name: string, email: string)

  /** The signed token; `role` is listed only to show that nothing writes it. */
  datatype Token = Token(id: Option<string>, name: Option<string>, email: Option<string>, role: Option<Role>)

  datatype SessionUser = SessionUser(id: Option<string>, name: Option<string>, email: Option<string>, role: Option<Role>)

  datatype Session = Session(user: Option<SessionUser>, expires: string)

  /** `rows[0]` of `SELECT * FROM usuarios WHERE email = $1`, taking table order. */
  function FindByEmail(us: seq<Usuario>, email: string): (r: Option<Usuario>)
    ensures r.None? <==> !EmailTaken(us, email)
    ensures r.Some? ==> r.value in us && r.value.email == email
    ensures r.Some? && UniqueEmails(us) ==> forall u :: u in us && u.email == email ==> u == r.value
  {
    if us == [] then None
    else if us[0].email == email then Some(us[0])
    else
      var r := FindByEmail(us[1..], email);
      assert forall u :: u in us[1..] ==> u in us;
      assert UniqueEmails(us) ==> UniqueEmails(us[1..]);
      r
  }

  /** `authorize(credentials)`.  `queryFails` stands for an exception from the
      query; it is caught and turned into `null`. */
  function Authorize(creds: Option<Credentials>, us: seq<Usuario>, hash: Hasher, queryFails: bool): (r: Option<AuthUser>)
    ensures creds.None? || creds.value.email == "" || creds.value.password == "" || queryFails ==> r.None?
    ensures r.Some? ==> exists u :: u in us && u.email == creds.value.email
                              && Verify(hash, creds.value.password, u.hashedPassword)
                              && r.value == AuthUser(u.id, u.nome, u.email)
    ensures creds.Some? && creds.value.email != "" && creds.value.password != "" && !queryFails && UniqueEmails(us)
            && (exists u :: u in us && u.email == creds.value.email && Verify(hash, creds.value.password, u.hashedPassword))
            ==> r.Some?
  {
    if creds.None? || creds.value.email == "" || creds.value.password == "" then None
    else if queryFails then None
    else
      match FindByEmail(us, creds.value.email)
      case Some(u) =>
        if Verify(hash, creds.value.password, u.hashedPassword) then Some(AuthUser(u.id, u.nome, u.email)) else None
      case None => None
  }

  /** The `jwt` callback: copy the user's id into the token at sign-in. */
  function JwtCallback(token: Token, user: Option<AuthUser>): (r: Token)
    ensures user.Some? ==> r.id == Some(user.value.id)
    ensures user.None? ==> r == token
    ensures r.name == token.name && r.email == token.email && r.role == token.role
  {
    if user.Some? then token.(id := Some(user.value.id)) else token
  }

  /** The `session` callback: copy the token's id into `session.user`, if there is one. */
  function SessionCallback(session: Session, token: Token): (r: Session)
    ensures session.user.Some? ==> r.user.Some? && r.user.value == session.user.value.(id := token.id)
    ensures session.user.None? ==> r == session
    ensures r.expires == session.expires
  {
    if session.user.Some? then session.(user := Some(session.user.value.(id := token.id))) else session
  }

  /** No role is carried by the session. */
  predicate RoleFree(s: Session) {
    s.user.Some? ==> s.user.value.role.None?
  }

  /** Neither callback writes a role: a session the library builds without a
      role, passed through the callbacks with any token, still has none. */
  lemma CallbacksNeverSetRole(s: Session, t: Token, u: Option<AuthUser>)
    requires RoleFree(s) && t.role.None?
    ensures JwtCallback(t, u).role.None?
    ensures RoleFree(SessionCallback(s, JwtCallback(t, u)))
  {
  }

  /** `authorize` with its connection handling: connect, query, release in `finally`. */
  method AuthorizeHandler(db: Db, creds: Option<Credentials>, hash: Hasher, queryFails: bool) returns (r: Option<AuthUser>)
    requires db.Valid()
    modifies db`connects, db`releases
    ensures db.Valid()
    ensures r == Authorize(creds, db.usuarios, hash, queryFails)
    ensures creds.None? || creds.value.email == "" || creds.value.password == "" ==> db.connects == old(db.connects)
  {
    if creds.None? || creds.value.email == "" || creds.value.password == "" {
      return None;
    }
    db.Connect();
    r := Authorize(creds, db.usuarios, hash, queryFails);
    db.Release();
  }
}
