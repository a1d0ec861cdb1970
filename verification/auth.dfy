/**
 * The account handlers: `register`, `login`, the account controller's own
 * `forgotPassword`, and `updateProfile`. Password hashing (`hash`), hash
 * comparison (`matches`), token signing (`sign`), the random reset token
 * and the clock are parameters.
 */
module Auth {
  import opened Js
  import opened Schema
  import opened PasswordResets

  const MissingFields: string := "Missing required fields"
  const SellerDetailsRequired: string := "Business name & phone required"
  const EmailTaken: string := "Email already exists"
  const CredentialsRequired: string := "Email and password required"
  const UserNotFound: string := "User not found"
  const SocialAccount: string := "This account uses social login. Please sign in with Google or Facebook."
  const IncorrectPassword: string := "Incorrect password"
  const LoginSuccessful: string := "Login successful"
  const NeutralLinkSent: string := "If email exists, link sent"
  const Unauthorized: string := "Unauthorized"

  /** The payload `createToken` signs. */
  function Claims(u: User): (c: TokenUser)
    ensures c.id == u.id && c.role == u.role && c.sellerId == u.sellerId
  {
    TokenUser(u.id, u.role, u.sellerId)
  }

  // -----------------------------------------------------------------------
  // register

  /** The body fields `register` reads. */
  datatype Registration = Registration(
    name: Option<string>,
    email: Option<string>,
    password: Option<string>,
    businessName: Option<string>,
    phone: Option<string>,
    role: Option<string>)

  /** The answer to a successful registration: the signed token and the new user. */
  datatype Session = Session(token: string, user: User)

  /** `(role || "SELLER").toUpperCase()`. */
  function RoleOf(role: Option<string>): (r: string)
    ensures !Truthy(role) ==> r == "SELLER"
    ensures Truthy(role) ==> r == ToUpper(role.value)
  {
    ToUpper(OrElse(role, "SELLER"))
  }

  /** The answer of `register` and the tables afterwards. */
  datatype Registered = Registered(reply: Reply<Session>, tables: Tables)

  /** `register`: validates the body, then creates the seller (for role SELLER) and the user. */
  function Register(t: Tables, b: Registration, hash: string -> string, sign: TokenUser -> string): (r: Registered)
    // required fields, in this order
    ensures !Truthy(b.name) || !Truthy(b.email) || !Truthy(b.password) ==>
      r == Registered(Fail(400, MissingFields), t)
    ensures Truthy(b.name) && Truthy(b.email) && Truthy(b.password) && RoleOf(b.role) == "SELLER" &&
            (!Truthy(b.businessName) || !Truthy(b.phone)) ==>
      r == Registered(Fail(400, SellerDetailsRequired), t)
    // a taken address, compared lower-cased, is refused and nothing is written
    ensures Truthy(b.name) && Truthy(b.email) && Truthy(b.password) &&
            (RoleOf(b.role) != "SELLER" || (Truthy(b.businessName) && Truthy(b.phone))) &&
            UserByEmail(t.users, ToLower(b.email.value)).Some? ==>
      r == Registered(Fail(409, EmailTaken), t)
    // a body that passes every check with a free address is registered
    ensures Truthy(b.name) && Truthy(b.email) && Truthy(b.password) &&
            (RoleOf(b.role) != "SELLER" || (Truthy(b.businessName) && Truthy(b.phone))) &&
            UserByEmail(t.users, ToLower(b.email.value)).None? ==>
      r.reply.Ok?
    // on success: one user under the next id with the lower-cased email, the hashed password and the upper-cased role;
    // a seller is created exactly for role SELLER and is the one the user is linked to
    ensures r.reply.Ok? ==>
      && Truthy(b.name) && Truthy(b.email) && Truthy(b.password)
      && UserByEmail(t.users, ToLower(b.email.value)).None?
      && var u := r.reply.body.user;
         && r.reply.code == 201
         && u == User(t.nextUserId, b.name, ToLower(b.email.value), Some(hash(b.password.value)), RoleOf(b.role),
                      u.sellerId, None)
         && r.reply.body.token == sign(Claims(u))
         && r.tables.users == t.users[t.nextUserId := u]
         && r.tables.nextUserId == t.nextUserId + 1
         && (RoleOf(b.role) == "SELLER" ==>
               && u.sellerId == Some(t.nextSellerId)
               && r.tables.sellers == t.sellers[t.nextSellerId := Seller(t.nextSellerId, b.businessName.value, b.phone.value)]
               && r.tables.nextSellerId == t.nextSellerId + 1)
         && (RoleOf(b.role) != "SELLER" ==>
               u.sellerId == None && r.tables.sellers == t.sellers && r.tables.nextSellerId == t.nextSellerId)
         && r.tables == t.(users := r.tables.users, nextUserId := r.tables.nextUserId,
                           sellers := r.tables.sellers, nextSellerId := r.tables.nextSellerId)
  {
    if !Truthy(b.name) || !Truthy(b.email) || !Truthy(b.password) then Registered(Fail(400, MissingFields), t)
    else
      var role := RoleOf(b.role);
      if role == "SELLER" && (!Truthy(b.businessName) || !Truthy(b.phone)) then
        Registered(Fail(400, SellerDetailsRequired), t)
      else if UserByEmail(t.users, ToLower(b.email.value)).Some? then Registered(Fail(409, EmailTaken), t)
      else
        var hashed := hash(b.password.value);
        var t1 := if role == "SELLER" then
                    t.(sellers := t.sellers[t.nextSellerId := Seller(t.nextSellerId, b.businessName.value, b.phone.value)],
                       nextSellerId := t.nextSellerId + 1)
                  else t;
        var sellerId: Option<nat> := if role == "SELLER" then Some(t.nextSellerId) else None;
        var u := User(t.nextUserId, b.name, ToLower(b.email.value), Some(hashed), role, sellerId, None);
        Registered(Ok(201, Session(sign(Claims(u)), u)),
                   t1.(users := t1.users[t.nextUserId := u], nextUserId := t.nextUserId + 1))
  }

  /** Registration keeps the database consistent: emails stay unique and the new user's seller exists. */
  lemma RegisterKeepsConsistent(t: Tables, b: Registration, hash: string -> string, sign: TokenUser -> string)
    requires Consistent(t)
    ensures Consistent(Register(t, b, hash, sign).tables)
  {
    var r := Register(t, b, hash, sign);
    if r.reply.Ok? {
      var u := r.reply.body.user;
      var sellers := r.tables.sellers;
      assert forall k :: k in t.users ==> t.users[k].email != u.email;
      assert SellerLinks(t.users, sellers);
      AddUserKeeps(t.users, sellers, t.nextUserId, u);
      assert ResetLinks(t.resets, r.tables.users);
    }
  }

  /** Addresses are compared lower-cased: registering "Ann@X.com" when "ann@x.com" exists is refused. */
  lemma RegisterIgnoresCase(t: Tables, b: Registration, hash: string -> string, sign: TokenUser -> string, k: nat)
    requires Consistent(t)
    requires Truthy(b.name) && Truthy(b.email) && Truthy(b.password)
    requires RoleOf(b.role) != "SELLER" || (Truthy(b.businessName) && Truthy(b.phone))
    requires k in t.users && t.users[k].email == ToLower(b.email.value)
    ensures Register(t, b, hash, sign) == Registered(Fail(409, EmailTaken), t)
  {
  }

  // -----------------------------------------------------------------------
  // login

  /** The user summary `login` returns. */
  datatype Profile = Profile(id: nat, email: string, role: string, sellerId: Option<nat>)

  datatype LoginBody = LoginBody(message: string, user: Profile, token: string)

  /** `login`: the failure cases are checked in order: missing field, unknown email, social account, wrong password. */
  function Login(users: map<nat, User>, email: Option<string>, password: Option<string>,
                 matches: (string, string) -> bool, sign: TokenUser -> string): (r: Reply<LoginBody>)
    ensures !Truthy(email) || !Truthy(password) ==> r == Fail(400, CredentialsRequired)
    ensures Truthy(email) && Truthy(password) && UserByEmail(users, ToLower(email.value)).None? ==>
      r == Fail(404, UserNotFound)
    ensures Truthy(email) && Truthy(password) && UserByEmail(users, ToLower(email.value)).Some? ==>
      var u := users[UserByEmail(users, ToLower(email.value)).value];
      && (!Truthy(u.password) ==> r == Fail(400, SocialAccount))
      && (Truthy(u.password) && !matches(password.value, u.password.value) ==> r == Fail(400, IncorrectPassword))
      && (Truthy(u.password) && matches(password.value, u.password.value) ==>
            r == Ok(200, LoginBody(LoginSuccessful, Profile(u.id, u.email, u.role, u.sellerId), sign(Claims(u)))))
  {
    if !Truthy(email) || !Truthy(password) then Fail(400, CredentialsRequired)
    else
      match UserByEmail(users, ToLower(email.value))
      case None => Fail(404, UserNotFound)
      case Some(k) =>
        var u := users[k];
        if !Truthy(u.password) then Fail(400, SocialAccount)
        else if !matches(password.value, u.password.value) then Fail(400, IncorrectPassword)
        else Ok(200, LoginBody(LoginSuccessful, Profile(u.id, u.email, u.role, u.sellerId), sign(Claims(u))))
  }

  /**
   * Register then log in: with a hash that is never empty and a comparison
   * that accepts a password against its own hash, the new account can log in with the same password and an
   * email written in any case, and the login token carries the same claims
   * as the registration token.
   */
  lemma RegisterThenLogin(t: Tables, b: Registration, email: string, hash: string -> string,
                          matches: (string, string) -> bool, sign: TokenUser -> string)
    requires Consistent(t)
    requires Register(t, b, hash, sign).reply.Ok?
    requires ToLower(email) == ToLower(b.email.value) && email != ""
    requires forall p :: hash(p) != "" && matches(p, hash(p))
    ensures var reg := Register(t, b, hash, sign);
            var u := reg.reply.body.user;
            Login(reg.tables.users, Some(email), b.password, matches, sign)
              == Ok(200, LoginBody(LoginSuccessful, Profile(u.id, u.email, u.role, u.sellerId), reg.reply.body.token))
  {
    var reg := Register(t, b, hash, sign);
    RegisterKeepsConsistent(t, b, hash, sign);
    var u := reg.reply.body.user;
    assert u.email == ToLower(email);
    UserByEmailFinds(reg.tables.users, ToLower(email), t.nextUserId);
    assert matches(b.password.value, u.password.value);
  }

  // -----------------------------------------------------------------------
  // forgotPassword (account controller)

  /**
   * The account controller's `forgotPassword`: always the same answer, and a
   * 30-minute record for any existing account, including one without a
   * password.
   */
  function RequestReset(users: map<nat, User>, t: Tokens, email: Option<string>, token: string, now: int): (r: Issued)
    ensures !Truthy(email) || UserByEmail(users, ToLower(email.value)).None? ==>
      r == Issued(Ok(200, NeutralLinkSent), t)
    ensures Truthy(email) && UserByEmail(users, ToLower(email.value)).Some? ==>
      var id := UserByEmail(users, ToLower(email.value)).value;
      && (TokenInUse(t.resets, token) ==> r == Issued(Threw, t))
      && (!TokenInUse(t.resets, token) ==>
            r == Issued(Ok(200, NeutralLinkSent),
                        Tokens(t.resets[t.nextResetId := PasswordReset(t.nextResetId, token, id, now + ResetWindow)],
                               t.nextResetId + 1)))
  {
    if !Truthy(email) then Issued(Ok(200, NeutralLinkSent), t)
    else
      match UserByEmail(users, ToLower(email.value))
      case None => Issued(Ok(200, NeutralLinkSent), t)
      case Some(id) =>
        match AddReset(t, id, token, now)
        case None => Issued(Threw, t)
        case Some(t') => Issued(Ok(200, NeutralLinkSent), t')
  }

  /** The answer never reveals whether the address exists. */
  lemma RequestResetIsNeutral(users: map<nat, User>, t: Tokens, email: Option<string>, token: string, now: int)
    requires !TokenInUse(t.resets, token)
    ensures RequestReset(users, t, email, token, now).reply == Ok(200, NeutralLinkSent)
  {
  }

  /**
   * The two `forgotPassword` handlers differ on password-less (social)
   * accounts: the account controller issues a token, the reset controller
   * does not.
   */
  lemma SocialAccountsDiffer(users: map<nat, User>, t: Tokens, email: string, token: string, now: int)
    requires email != ""
    requires UserByEmail(users, ToLower(email)).Some?
    requires users[UserByEmail(users, ToLower(email)).value].password == None
    requires !TokenInUse(t.resets, token)
    ensures RequestReset(users, t, Some(email), token, now).tokens != t
    ensures Issue(users, t, Some(email), token, now).tokens == t
  {
    var r := RequestReset(users, t, Some(email), token, now);
    assert t.nextResetId in r.tokens.resets && r.tokens.resets[t.nextResetId].token == token;
  }

  // -----------------------------------------------------------------------
  // updateProfile

  /** The row `updateProfile` writes: the name if one is given, the hash of the password if one is given. */
  function ProfileUpdate(u: User, name: Option<string>, password: Option<string>, hash: string -> string): (r: User)
    ensures r.name == (if Truthy(name) then name else u.name)
    ensures r.password == (if Truthy(password) then Some(hash(password.value)) else u.password)
    ensures r.(name := u.name, password := u.password) == u
  {
    var u1 := if Truthy(name) then u.(name := name) else u;
    if Truthy(password) then u1.(password := Some(hash(password.value))) else u1
  }

  // -----------------------------------------------------------------------
  // The handlers, on the database.

  /** `register` on the database: the checks, then the writes. */
  method RegisterUser(db: Database, b: Registration, hash: string -> string, sign: TokenUser -> string)
    returns (reply: Reply<Session>)
    requires db.Valid()
    modifies db`users, db`nextUserId, db`sellers, db`nextSellerId
    ensures db.Valid()
    ensures Registered(reply, db.Snapshot()) == Register(old(db.Snapshot()), b, hash, sign)
  {
    if !Truthy(b.name) || !Truthy(b.email) || !Truthy(b.password) {
      return Fail(400, MissingFields);
    }
    var role := RoleOf(b.role);
    if role == "SELLER" && (!Truthy(b.businessName) || !Truthy(b.phone)) {
      return Fail(400, SellerDetailsRequired);
    }
    var existing := UserByEmail(db.users, ToLower(b.email.value));
    if existing.Some? {
      return Fail(409, EmailTaken);
    }
    reply := CreateAccount(db, b, hash, sign);
  }

  /** The writes of `register`, once the body has passed its checks: the seller (for role SELLER), then the user. */
  method CreateAccount(db: Database, b: Registration, hash: string -> string, sign: TokenUser -> string)
    returns (reply: Reply<Session>)
    requires db.Valid()
    requires Truthy(b.name) && Truthy(b.email) && Truthy(b.password)
    requires RoleOf(b.role) != "SELLER" || (Truthy(b.businessName) && Truthy(b.phone))
    requires UserByEmail(db.users, ToLower(b.email.value)).None?
    modifies db`users, db`nextUserId, db`sellers, db`nextSellerId
    ensures db.Valid()
    ensures Registered(reply, db.Snapshot()) == Register(old(db.Snapshot()), b, hash, sign)
  {
    ghost var before := db.Snapshot();
    var role := RoleOf(b.role);
    var hashed := hash(b.password.value);
    var sellers, nextSellerId, sellerId: Option<nat> := db.sellers, db.nextSellerId, None;
    if role == "SELLER" {
      sellers, nextSellerId := sellers[nextSellerId := Seller(nextSellerId, b.businessName.value, b.phone.value)], nextSellerId + 1;
      sellerId := Some(db.nextSellerId);
    }
    var user := User(db.nextUserId, b.name, ToLower(b.email.value), Some(hashed), role, sellerId, None);
    ghost var after := before.(users := before.users[before.nextUserId := user], nextUserId := before.nextUserId + 1,
                               sellers := sellers, nextSellerId := nextSellerId);
    reply := Ok(201, Session(sign(Claims(user)), user));
    assert Register(before, b, hash, sign) == Registered(reply, after);
    RegisterKeepsConsistent(before, b, hash, sign);
    db.users, db.nextUserId, db.sellers, db.nextSellerId := db.users[db.nextUserId := user], db.nextUserId + 1, sellers, nextSellerId;
    assert db.Snapshot() == after;
  }

  method ForgotPassword(db: Database, email: Option<string>, token: string, now: int) returns (reply: Reply<string>)
    requires db.Valid()
    modifies db`resets, db`nextResetId
    ensures db.Valid()
    ensures Issued(reply, Tokens(db.resets, db.nextResetId))
         == RequestReset(old(db.users), Tokens(old(db.resets), old(db.nextResetId)), email, token, now)
  {
    if !Truthy(email) {
      return Ok(200, NeutralLinkSent);
    }
    var found := UserByEmail(db.users, ToLower(email.value));
    if found.None? {
      return Ok(200, NeutralLinkSent);
    }
    var added := AddReset(Tokens(db.resets, db.nextResetId), found.value, token, now);
    if added.None? {
      return Threw;
    }
    ghost var before := db.Snapshot();
    IssueKeepsConsistent(before, PasswordReset(db.nextResetId, token, found.value, now + ResetWindow));
    db.resets, db.nextResetId := added.value.resets, added.value.nextResetId;
    assert db.Snapshot() == before.(resets := db.resets, nextResetId := db.nextResetId);
    reply := Ok(200, NeutralLinkSent);
  }

  /** `updateProfile`: 401 without a user id; otherwise the given fields of the caller's row are rewritten. */
  method UpdateProfile(db: Database, caller: Option<TokenUser>, name: Option<string>, password: Option<string>,
                       hash: string -> string) returns (reply: Reply<User>)
    requires db.Valid()
    modifies db`users
    ensures db.Valid()
    ensures caller.None? || caller.value.id == 0 ==> reply == Fail(401, Unauthorized) && db.users == old(db.users)
    ensures caller.Some? && caller.value.id != 0 && !(0 <= caller.value.id && caller.value.id in old(db.users)) ==>
      reply == Threw && db.users == old(db.users)
    ensures caller.Some? && 0 < caller.value.id && caller.value.id in old(db.users) ==>
      var u := ProfileUpdate(old(db.users)[caller.value.id], name, password, hash);
      reply == Ok(200, u) && db.users == old(db.users)[caller.value.id := u]
  {
    if caller.None? || caller.value.id == 0 {
      return Fail(401, Unauthorized);
    }
    var id := caller.value.id;
    if !(0 <= id && id in db.users) {
      return Threw;
    }
    var u := db.users[id];
    if Truthy(name) {
      u := u.(name := name);
    }
    if Truthy(password) {
      u := u.(password := Some(hash(password.value)));
    }
    ghost var before := db.Snapshot();
    UpdateUserKeeps(db.users, db.sellers, db.nextUserId, id, u);
    db.users := db.users[id := u];
    assert db.Snapshot() == before.(users := db.users);
    reply := Ok(200, u);
  }
}
