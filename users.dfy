/**
 * User accounts: creation and registration store only a one-way hash of
 * the password, an update keeps the old hash when no password is given,
 * login issues a one-minute token, and token verification reports the
 * decoded identity. The hashing library, the comparison of a password
 * with a hash and the token signer are parameters.
 */
module Users {
  import opened Wrappers

  datatype User = User(
    id: string, name: string, email: string, passwordHash: string, phone: string,
    isAdmin: bool, street: string, apartment: string, zip: string, city: string,
    country: string)

  /** The fields of a create, register or update request; `password` may be left out. */
  datatype UserBody = UserBody(
    name: string, email: string, password: Option<string>, phone: string,
    isAdmin: bool, street: string, apartment: string, zip: string, city: string,
    country: string)

  /** A user as the list and detail routes send it: every field but the hash. */
  datatype PublicUser = PublicUser(
    id: string, name: string, email: string, phone: string, isAdmin: bool,
    street: string, apartment: string, zip: string, city: string, country: string)

  /** The claims of an issued token: identity, role, issue time and expiry, in seconds. */
  datatype Claims = Claims(userId: string, isAdmin: bool, iat: nat, exp: nat)

  /** Tokens are issued for one minute. */
  const TokenLifetime: nat := 60

  function PublicView(u: User): (v: PublicUser)
    ensures v.id == u.id && v.name == u.name && v.email == u.email && v.phone == u.phone
    ensures v.isAdmin == u.isAdmin && v.street == u.street && v.apartment == u.apartment
    ensures v.zip == u.zip && v.city == u.city && v.country == u.country
  {
    PublicUser(u.id, u.name, u.email, u.phone, u.isAdmin, u.street, u.apartment, u.zip,
               u.city, u.country)
  }

  /** What the list and detail routes send does not depend on the stored hash. */
  lemma PublicViewHidesHash(u: User, h: string)
    ensures PublicView(u) == PublicView(u.(passwordHash := h))
  {
  }

  /** The record saved for a request whose password hashes to `passwordHash`. */
  function Record(id: string, body: UserBody, passwordHash: string): (u: User)
    ensures u.id == id && u.passwordHash == passwordHash
    ensures u.name == body.name && u.email == body.email && u.phone == body.phone && u.isAdmin == body.isAdmin
    ensures u.street == body.street && u.apartment == body.apartment && u.zip == body.zip
    ensures u.city == body.city && u.country == body.country
  {
    User(id, body.name, body.email, passwordHash, body.phone, body.isAdmin, body.street,
         body.apartment, body.zip, body.city, body.country)
  }

  /** A password is supplied when it is present and not empty. */
  predicate Supplied(password: Option<string>) {
    password.Some? && password.value != ""
  }

  /**
   * The hash an update stores: a fresh hash of a supplied password, else the
   * hash already stored; `None` when there is neither, where reading the
   * missing record throws.
   */
  function UpdatedHash(password: Option<string>, existing: Option<User>, hash: string -> string): (h: Option<string>)
    ensures Supplied(password) ==> h == Some(hash(password.value))
    ensures !Supplied(password) && existing.Some? ==> h == Some(existing.value.passwordHash)
    ensures h.None? <==> !Supplied(password) && existing.None?
  {
    if Supplied(password) then Some(hash(password.value))
    else if existing.Some? then Some(existing.value.passwordHash)
    else None
  }

  predicate HasId(users: seq<User>, id: string) {
    exists i :: 0 <= i < |users| && users[i].id == id
  }

  /** Position of the first record satisfying `matches`. */
  function FirstWhere(users: seq<User>, matches: User -> bool): (r: Option<nat>)
    ensures r.Some? ==> r.value < |users| && matches(users[r.value])
    ensures r.Some? ==> forall j :: 0 <= j < r.value ==> !matches(users[j])
    ensures r.None? ==> forall j :: 0 <= j < |users| ==> !matches(users[j])
  {
    if |users| == 0 then None
    else if matches(users[0]) then Some(0)
    else match FirstWhere(users[1..], matches)
      case None => None
      case Some(j) => Some(j + 1)
  }

  function FindById(users: seq<User>, id: string): (r: Option<nat>)
    ensures r.Some? ==> r.value < |users| && users[r.value].id == id
    ensures r.None? <==> !HasId(users, id)
  {
    FirstWhere(users, (u: User) => u.id == id)
  }

  /** The first user with that email, as a single-document lookup returns it. */
  function FindByEmail(users: seq<User>, email: string): (r: Option<nat>)
    ensures r.Some? ==> r.value < |users| && users[r.value].email == email
    ensures r.Some? ==> forall j :: 0 <= j < r.value ==> users[j].email != email
    ensures r.None? ==> forall j :: 0 <= j < |users| ==> users[j].email != email
  {
    FirstWhere(users, (u: User) => u.email == email)
  }

  /** The claims signed for a login at `nowMs` milliseconds. */
  function IssueClaims(u: User, nowMs: nat): (c: Claims)
    ensures c.userId == u.id && c.isAdmin == u.isAdmin
    ensures c.iat * 1000 <= nowMs < (c.iat + 1) * 1000
    ensures c.exp == c.iat + TokenLifetime
  {
    Claims(u.id, u.isAdmin, nowMs / 1000, nowMs / 1000 + TokenLifetime)
  }

  /**
   * The outcome of a login. `CompareThrows` is a known email with no string
   * password in the body: the comparison throws inside the async handler and
   * no answer is sent.
   */
  datatype LoginReply = UserNotFound | WrongPassword | CompareThrows | LoggedIn(email: string, token: string)

  /**
   * POST /login. `password` is `None` when the body holds no string password;
   * `compare` is the library's check of a password against a stored hash,
   * `sign` the token signer.
   */
  function Login(users: seq<User>, email: string, password: Option<string>,
                 compare: (string, string) -> bool, sign: Claims -> string, nowMs: nat): (r: LoginReply)
    ensures r == UserNotFound <==> forall j :: 0 <= j < |users| ==> users[j].email != email
    ensures r == CompareThrows <==> FindByEmail(users, email).Some? && password.None?
    ensures r == WrongPassword <==>
      FindByEmail(users, email).Some? && password.Some? &&
      !compare(password.value, users[FindByEmail(users, email).value].passwordHash)
    ensures r.LoggedIn? ==>
      var u := users[FindByEmail(users, email).value];
      password.Some? && compare(password.value, u.passwordHash) &&
      r.email == u.email && r.token == sign(IssueClaims(u, nowMs))
  {
    match FindByEmail(users, email)
    case None => UserNotFound
    case Some(i) =>
      if password.None? then CompareThrows
      else if compare(password.value, users[i].passwordHash) then
        LoggedIn(users[i].email, sign(IssueClaims(users[i], nowMs)))
      else WrongPassword
  }

  /** The status code of a login answer; `None` when nothing is sent. */
  function LoginStatus(r: LoginReply): (status: Option<nat>)
    ensures status == Some(200) <==> r.LoggedIn?
    ensures status.None? <==> r == CompareThrows
    ensures status == Some(200) || status == Some(400) || status.None?
  {
    match r
    case LoggedIn(_, _) => Some(200)
    case CompareThrows => None
    case _ => Some(400)
  }

  /** A wrong password never yields a token, and the token of a login names the matched user. */
  lemma LoginTokenBelongsToUser(users: seq<User>, email: string, password: Option<string>,
                                compare: (string, string) -> bool, sign: Claims -> string, nowMs: nat)
    requires Login(users, email, password, compare, sign, nowMs).LoggedIn?
    ensures exists i :: (0 <= i < |users| && users[i].email == email &&
                         password.Some? && compare(password.value, users[i].passwordHash) &&
                         Login(users, email, password, compare, sign, nowMs).token ==
                         sign(Claims(users[i].id, users[i].isAdmin, nowMs / 1000, nowMs / 1000 + 60)))
  {
    var i := FindByEmail(users, email).value;
    assert users[i].email == email;
  }

  datatype VerifyReply = TokenMissing | TokenInvalid | TokenValid(userId: string, isAdmin: bool)

  /** POST /verify-token; `verify` is the signature check, `None` when it throws. */
  function VerifyToken(token: Option<string>, verify: string -> Option<Claims>): (r: VerifyReply)
    ensures r == TokenMissing <==> token.None? || token.value == ""
    ensures r == TokenInvalid <==> token.Some? && token.value != "" && verify(token.value).None?
    ensures r.TokenValid? ==>
      token.Some? && verify(token.value).Some?
      && r.userId == verify(token.value).value.userId && r.isAdmin == verify(token.value).value.isAdmin
  {
    if token.None? || token.value == "" then TokenMissing
    else match verify(token.value)
      case None => TokenInvalid
      case Some(c) => TokenValid(c.userId, c.isAdmin)
  }

  function VerifyStatus(r: VerifyReply): (status: nat)
    ensures status == 200 <==> r.TokenValid?
    ensures status == 200 || status == 400
  {
    if r.TokenValid? then 200 else 400
  }

  /** GET /:id: the record without its hash, or 500 when there is none. */
  function GetById(users: seq<User>, id: string): (r: (Reply, Option<PublicUser>))
    ensures !HasId(users, id) ==> r == (Sent(500, "The user with the given ID was not found."), None)
    ensures HasId(users, id) ==>
      r.0 == Sent(200, "") && r.1 == Some(PublicView(users[FindById(users, id).value])) && r.1.value.id == id
  {
    match FindById(users, id)
    case None => (Sent(500, "The user with the given ID was not found."), None)
    case Some(i) => (Sent(200, ""), Some(PublicView(users[i])))
  }

  /** GET /: every record without its hash, in collection order. */
  function ListUsers(users: seq<User>): (r: seq<PublicUser>)
    ensures |r| == |users|
    ensures forall i :: 0 <= i < |users| ==> r[i] == PublicView(users[i])
  {
    seq(|users|, i requires 0 <= i < |users| => PublicView(users[i]))
  }

  class UserStore {
    var users: seq<User>

    /** User ids are unique. */
    ghost predicate Valid()
      reads this
    {
      forall i, j :: 0 <= i < j < |users| ==> users[i].id != users[j].id
    }

    constructor ()
      ensures Valid() && users == []
    {
      users := [];
    }

    /**
     * POST / and POST /register (the same handler body): the record is saved
     * with the hash of the password; hashing a missing password throws.
     */
    method Create(id: string, body: UserBody, hash: string -> string) returns (reply: Reply)
      requires Valid() && !HasId(users, id)
      modifies this
      ensures Valid()
      ensures body.password.None? ==> reply == NoReply && users == old(users)
      ensures body.password.Some? ==>
        reply == Sent(200, "") && users == old(users) + [Record(id, body, hash(body.password.value))]
    {
      if body.password.None? {
        return NoReply;
      }
      users := users + [Record(id, body, hash(body.password.value))];
      reply := Sent(200, "");
    }

    /**
     * PUT /:id: every field is replaced; the hash is a fresh one when a
     * password is supplied and the stored one otherwise.
     */
    method Update(id: string, body: UserBody, hash: string -> string) returns (reply: Reply)
      requires Valid()
      modifies this
      ensures Valid()
      ensures !HasId(old(users), id) && !Supplied(body.password) ==> reply == NoReply && users == old(users)
      ensures !HasId(old(users), id) && Supplied(body.password) ==>
        reply == Sent(400, "the user cannot be created!") && users == old(users)
      ensures HasId(old(users), id) ==>
        var i := FindById(old(users), id).value;
        && reply == Sent(200, "")
        && users == old(users)[i := Record(id, body, UpdatedHash(body.password, Some(old(users)[i]), hash).value)]
        && (!Supplied(body.password) ==> users[i].passwordHash == old(users)[i].passwordHash)
    {
      var found := FindById(users, id);
      var existing := if found.Some? then Some(users[found.value]) else None;
      var newHash := UpdatedHash(body.password, existing, hash);
      if newHash.None? {
        return NoReply;
      }
      if found.None? {
        return Sent(400, "the user cannot be created!");
      }
      var i := found.value;
      users := users[i := Record(id, body, newHash.value)];
      reply := Sent(200, "");
    }

    /** DELETE /:id: 200 and the record removed when it existed, 404 otherwise. */
    method Delete(id: string) returns (reply: Reply)
      requires Valid()
      modifies this
      ensures Valid()
      ensures !HasId(old(users), id) ==> reply == Sent(404, "user not found!") && users == old(users)
      ensures HasId(old(users), id) ==>
        var i := FindById(old(users), id).value;
        reply == Sent(200, "the user is deleted!") && users == old(users)[..i] + old(users)[i + 1..]
        && !HasId(users, id)
    {
      match FindById(users, id)
      case None =>
        reply := Sent(404, "user not found!");
      case Some(i) =>
        ghost var before := users;
        users := users[..i] + users[i + 1..];
        assert forall j :: 0 <= j < |users| ==> users[j] == (if j < i then before[j] else before[j + 1]);
        reply := Sent(200, "the user is deleted!");
    }
  }
}
