/** The authentication service: registration and login. Both answer with a
    signed token for the payload `{ email, sub: id }` and the user without its
    password. Hashing, the hash comparison and signing are parameters; the
    signer keeps the log of the payloads it has signed. */
module AuthService {
  import opened Common
  import opened Entities
  import opened UsersService

  const EmailExists := Conflict("Email already exists")
  const InvalidCredentials := Unauthorized("Invalid credentials")

  /** A user without its password (`const { password: _, ...result } = user`). */
  datatype PublicUser = PublicUser(id: string, email: string, name: string, createdAt: int)

  function WithoutPassword(u: User): (p: PublicUser)
    ensures p.id == u.id && p.email == u.email && p.name == u.name && p.createdAt == u.createdAt
  {
    PublicUser(u.id, u.email, u.name, u.createdAt)
  }

  /** Whatever the password hash, the answer is the same: it never carries it. */
  lemma PasswordNeverReturned(u: User, other: string)
    ensures WithoutPassword(u.(password := other)) == WithoutPassword(u)
  {
  }

  /** The claims a token is signed with. */
  datatype Payload = Payload(email: string, sub: string)

  function PayloadFor(u: User): (p: Payload)
    ensures p.email == u.email && p.sub == u.id
  {
    Payload(u.email, u.id)
  }

  datatype AuthResponse = AuthResponse(accessToken: string, user: PublicUser)

  /** The token signer: `sign` stands for signing with the configured secret
      and lifetime, and `issued` lists every payload signed so far. */
  class JwtSigner {
    const sign: Payload -> string
    var issued: seq<Payload>

    constructor (sign: Payload -> string)
      ensures this.sign == sign && issued == []
    {
      this.sign := sign;
      issued := [];
    }

    method Sign(p: Payload) returns (token: string)
      modifies this
      ensures token == sign(p)
      ensures issued == old(issued) + [p]
    {
      token := sign(p);
      issued := issued + [p];
    }
  }

  /** The two checks of `login`: an unknown e-mail and a wrong password fail
      alike, so the answer does not tell which of the two it was. */
  function CheckCredentials(users: UserStore, compare: (string, string) -> bool, email: string, password: string)
    : (r: Result<User>)
    reads users
    requires users.Valid()
    ensures r.Success? <==> users.FindByEmail(email).Some? && compare(password, users.FindByEmail(email).value.password)
    ensures r.Failure? ==> r.error == InvalidCredentials
    ensures r.Success? ==> r.value.id in users.users && users.users[r.value.id] == r.value && r.value.email == email
  {
    var found := users.FindByEmail(email);
    if found.None? then Failure(InvalidCredentials)
    else if !compare(password, found.value.password) then Failure(InvalidCredentials)
    else Success(found.value)
  }

  /** The password that registered a user logs it in, whenever the comparison
      accepts a password against its own hash. */
  lemma RegisteredPasswordLogsIn(users: UserStore, hash: string -> string, compare: (string, string) -> bool,
                                 u: User, password: string)
    requires users.Valid()
    requires u.id in users.users && users.users[u.id] == u && u.password == hash(password)
    requires forall s :: compare(s, hash(s))
    ensures CheckCredentials(users, compare, u.email, password) == Success(u)
  {
    var found := users.FindByEmail(u.email);
    assert found.Some?;
    assert found.value.id == u.id;
  }

  /** `register`: Conflict when the e-mail is taken, with nothing stored and no
      token signed; otherwise the new user is stored with the hash of the
      password and one token is signed for it. */
  method Register(users: UserStore, jwt: JwtSigner, hash: string -> string,
                  email: string, password: string, name: string, now: int)
    returns (r: Result<AuthResponse>)
    requires users.Valid()
    modifies users, jwt
    ensures users.Valid()
    ensures old(users.FindByEmail(email)).Some? ==>
              && r == Failure(EmailExists)
              && unchanged(users)
              && jwt.issued == old(jwt.issued)
    ensures old(users.FindByEmail(email)).None? ==>
              && r.Success?
              && var id := r.value.user.id;
              && id !in old(users.users)
              && users.users == old(users.users)[id := User(id, email, hash(password), name, now)]
              && r.value.user == PublicUser(id, email, name, now)
              && r.value.accessToken == jwt.sign(Payload(email, id))
              && jwt.issued == old(jwt.issued) + [Payload(email, id)]
  {
    var existing := users.FindByEmail(email);
    if existing.Some? {
      return Failure(EmailExists);
    }
    var created := users.Create(email, password, name, hash, now);
    var user := created.value;
    var token := jwt.Sign(PayloadFor(user));
    r := Success(AuthResponse(token, WithoutPassword(user)));
  }

  /** `login`: Unauthorized for an unknown e-mail or a wrong password, with
      no token signed; otherwise one token is signed for the stored user. */
  method Login(users: UserStore, jwt: JwtSigner, compare: (string, string) -> bool, email: string, password: string)
    returns (r: Result<AuthResponse>)
    requires users.Valid()
    modifies jwt
    ensures r.Failure? <==> CheckCredentials(users, compare, email, password).Failure?
    ensures r.Failure? ==> r.error == InvalidCredentials && jwt.issued == old(jwt.issued)
    ensures r.Success? ==>
              var u := CheckCredentials(users, compare, email, password).value;
              && r.value == AuthResponse(jwt.sign(PayloadFor(u)), WithoutPassword(u))
              && jwt.issued == old(jwt.issued) + [PayloadFor(u)]
  {
    var checked := CheckCredentials(users, compare, email, password);
    if checked.Failure? {
      return Failure(InvalidCredentials);
    }
    var user := checked.value;
    var token := jwt.Sign(PayloadFor(user));
    r := Success(AuthResponse(token, WithoutPassword(user)));
  }
}
