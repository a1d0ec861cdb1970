/**
 * The password-reset token lifecycle: `forgotPassword` issues a token that
 * expires 30 minutes later, `resetPassword` checks it, stores the new
 * password hash and deletes the token. The clock (`now`, milliseconds since
 * the epoch), the random token and the password hash are parameters.
 */
module PasswordResets {
  import opened Js
  import opened Schema

  /** 30 minutes, in milliseconds. */
  const ResetWindow: int := 1000 * 60 * 30

  const MinPasswordLength: nat := 6

  const LinkSent: string := "Password reset link sent"
  const EmailRequired: string := "Email is required"
  const ShortPassword: string := "Password must be at least 6 characters"
  const InvalidToken: string := "Invalid or expired token"
  const ResetDone: string := "Password reset successful"
  const MaybeSent: string := "If the email exists, a reset link has been sent."
  const SocialLogin: string := "This account uses social login. Please sign in with Google or Facebook."

  /** The reset-token table and its id sequence. */
  datatype Tokens = Tokens(resets: map<nat, PasswordReset>, nextResetId: nat)

  predicate TokenInUse(resets: map<nat, PasswordReset>, token: string) {
    exists k :: k in resets && resets[k].token == token
  }

  /**
   * `passwordReset.create({ userId, token, expiresAt: now + 30 min })`;
   * `None` when the unique `token` column already holds the token.
   */
  function AddReset(t: Tokens, userId: nat, token: string, now: int): (r: Option<Tokens>)
    ensures r.None? <==> TokenInUse(t.resets, token)
    ensures r.Some? ==> r.value.resets == t.resets[t.nextResetId := PasswordReset(t.nextResetId, token, userId, now + ResetWindow)]
    ensures r.Some? ==> r.value.nextResetId == t.nextResetId + 1
  {
    match ResetByToken(t.resets, token)
    case Some(_) => None
    case None =>
      Some(Tokens(t.resets[t.nextResetId := PasswordReset(t.nextResetId, token, userId, now + ResetWindow)], t.nextResetId + 1))
  }

  /** The id of the record holding `token`, if there is one. */
  function ResetByToken(resets: map<nat, PasswordReset>, token: string): (r: Option<nat>)
    ensures r.Some? ==> r.value in resets && resets[r.value].token == token
    ensures r.None? <==> !TokenInUse(resets, token)
  {
    Find(resets, (p: PasswordReset) => p.token == token)
  }

  /** The id of the user with email `email`, if there is one. */
  function UserByEmail(users: map<nat, User>, email: string): (r: Option<nat>)
    ensures r.Some? ==> r.value in users && users[r.value].email == email
    ensures r.None? ==> forall k :: k in users ==> users[k].email != email
  {
    Find(users, (u: User) => u.email == email)
  }

  /** With unique emails, the lookup finds the one account holding the address. */
  lemma UserByEmailFinds(users: map<nat, User>, email: string, k: nat)
    requires UniqueEmails(users)
    requires k in users && users[k].email == email
    ensures UserByEmail(users, email) == Some(k)
  {
  }

  // -----------------------------------------------------------------------
  // forgotPassword

  /** The answer of `forgotPassword` and the token table afterwards. */
  datatype Issued = Issued(reply: Reply<string>, tokens: Tokens)

  /** The account `forgotPassword` looks up: the one whose email is the lower-cased input. */
  function Account(users: map<nat, User>, email: Option<string>): (r: Option<nat>)
    requires Truthy(email)
    ensures r.Some? ==> r.value in users && users[r.value].email == ToLower(email.value)
    ensures r.None? ==> forall k :: k in users ==> users[k].email != ToLower(email.value)
  {
    UserByEmail(users, ToLower(email.value))
  }

  /** A reset can be issued: the address belongs to an account that has a password. */
  predicate Eligible(users: map<nat, User>, email: Option<string>) {
    Truthy(email) && Account(users, email).Some? && Truthy(users[Account(users, email).value].password)
  }

  /** `forgotPassword` with body field `email`, the fresh random `token` and the clock `now`. */
  function Issue(users: map<nat, User>, t: Tokens, email: Option<string>, token: string, now: int): (r: Issued)
    // no email: 400 and no record
    ensures !Truthy(email) ==> r == Issued(Fail(400, EmailRequired), t)
    // an unknown address (compared lower-cased) gets a neutral answer and no record
    ensures Truthy(email) && Account(users, email).None? ==>
      r == Issued(Ok(200, MaybeSent), t)
    // so does an account without a password
    ensures Truthy(email) && Account(users, email).Some? && !Eligible(users, email) ==>
      r == Issued(Ok(200, SocialLogin), t)
    // otherwise one record for that account, expiring 30 minutes from now, unless the token is taken
    ensures Eligible(users, email) && TokenInUse(t.resets, token) ==> r == Issued(Threw, t)
    ensures Eligible(users, email) && !TokenInUse(t.resets, token) ==>
      var record := PasswordReset(t.nextResetId, token, Account(users, email).value, now + ResetWindow);
      r == Issued(Ok(200, LinkSent), Tokens(t.resets[t.nextResetId := record], t.nextResetId + 1))
  {
    if !Truthy(email) then Issued(Fail(400, EmailRequired), t)
    else
      match Account(users, email)
      case None => Issued(Ok(200, MaybeSent), t)
      case Some(id) =>
        if !Truthy(users[id].password) then
          Issued(Ok(200, SocialLogin), t)
        else
          match AddReset(t, id, token, now)
          case None => Issued(Threw, t)
          case Some(t') => Issued(Ok(200, LinkSent), t')
  }

  // -----------------------------------------------------------------------
  // resetPassword

  /** The answer of `resetPassword` with the user and token tables afterwards. */
  datatype Consumed = Consumed(reply: Reply<string>, users: map<nat, User>, resets: map<nat, PasswordReset>)

  /** The password rule: present and at least 6 characters. */
  predicate AcceptablePassword(password: Option<string>) {
    Truthy(password) && |password.value| >= MinPasswordLength
  }

  /** A record is usable while its expiry is not before `now`: expiry equal to now is accepted. */
  predicate Usable(record: PasswordReset, now: int) {
    !(record.expiresAt < now)
  }

  /** `resetPassword` for route token `token`, body field `password`, clock `now` and hash function `hash`. */
  function Consume(users: map<nat, User>, resets: map<nat, PasswordReset>, token: string, password: Option<string>,
                   now: int, hash: string -> string): (r: Consumed)
    ensures !AcceptablePassword(password) ==>
      r == Consumed(Fail(400, ShortPassword), users, resets)
    ensures AcceptablePassword(password) &&
            (var k := ResetByToken(resets, token); k.None? || !Usable(resets[k.value], now)) ==>
      r == Consumed(Fail(400, InvalidToken), users, resets)
    // an acceptable password with a usable token succeeds exactly when the token's user still exists;
    // otherwise `user.update` throws and nothing is written
    ensures AcceptablePassword(password) && ResetByToken(resets, token).Some? &&
            Usable(resets[ResetByToken(resets, token).value], now) ==>
      && (r.reply.Ok? <==> resets[ResetByToken(resets, token).value].userId in users)
      && (!r.reply.Ok? ==> r == Consumed(Threw, users, resets))
    // success: the token's record is removed and only its user's password changes, to the hash of the new one
    ensures r.reply.Ok? ==>
      && r.reply == Ok(200, ResetDone)
      && AcceptablePassword(password)
      && exists k :: k in resets && resets[k].token == token && Usable(resets[k], now)
                     && resets[k].userId in users
                     && r.resets == resets - {k}
                     && r.users == users[resets[k].userId := users[resets[k].userId].(password := Some(hash(password.value)))]
  {
    if !AcceptablePassword(password) then Consumed(Fail(400, ShortPassword), users, resets)
    else
      match ResetByToken(resets, token)
      case None => Consumed(Fail(400, InvalidToken), users, resets)
      case Some(k) =>
        var record := resets[k];
        if !Usable(record, now) then Consumed(Fail(400, InvalidToken), users, resets)
        else if record.userId !in users then Consumed(Threw, users, resets)
        else
          var user := users[record.userId];
          Consumed(Ok(200, ResetDone),
                   users[record.userId := user.(password := Some(hash(password.value)))],
                   resets - {k})
  }

  /** Tokens are single-use: after a successful reset the same token is refused. */
  lemma {:induction false} SingleUse(users: map<nat, User>, resets: map<nat, PasswordReset>, token: string,
                                     password: Option<string>, password2: Option<string>,
                                     now: int, now2: int, hash: string -> string)
    requires UniqueTokens(resets)
    requires AcceptablePassword(password2)
    requires Consume(users, resets, token, password, now, hash).reply.Ok?
    ensures var once := Consume(users, resets, token, password, now, hash);
            Consume(once.users, once.resets, token, password2, now2, hash).reply == Fail(400, InvalidToken)
  {
    var once := Consume(users, resets, token, password, now, hash);
    var k :| k in resets && resets[k].token == token && once.resets == resets - {k};
    assert forall j :: j in once.resets ==> once.resets[j].token != token;
  }

  /**
   * Issue then reset: a token issued at `issuedAt` resets the password of
   * the account it was issued for at any time up to and including 30
   * minutes later, and is refused after that.
   */
  lemma {:induction false} IssueThenReset(users: map<nat, User>, t: Tokens, email: string, token: string,
                                          issuedAt: int, now: int, password: string, hash: string -> string)
    requires UniqueTokens(t.resets)
    requires Issue(users, t, Some(email), token, issuedAt).reply == Ok(200, LinkSent)
    requires AcceptablePassword(Some(password))
    ensures var issued := Issue(users, t, Some(email), token, issuedAt);
            var id := UserByEmail(users, ToLower(email)).value;
            var r := Consume(users, issued.tokens.resets, token, Some(password), now, hash);
            && (now <= issuedAt + ResetWindow ==>
                  r.reply.Ok? && r.users == users[id := users[id].(password := Some(hash(password)))])
            && (now > issuedAt + ResetWindow ==> r.reply == Fail(400, InvalidToken))
  {
    var issued := Issue(users, t, Some(email), token, issuedAt);
    var id := UserByEmail(users, ToLower(email)).value;
    var n := t.nextResetId;
    var resets := issued.tokens.resets;
    assert resets == t.resets[n := PasswordReset(n, token, id, issuedAt + ResetWindow)];
    assert !TokenInUse(t.resets, token);
    FindUnique(resets, (p: PasswordReset) => p.token == token, n);
  }

  // -----------------------------------------------------------------------
  // The handlers, on the database.

  lemma IssueKeepsConsistent(t: Tables, r: PasswordReset)
    requires Consistent(t)
    requires r.id == t.nextResetId && r.userId in t.users && !TokenInUse(t.resets, r.token)
    ensures Consistent(t.(resets := t.resets[t.nextResetId := r], nextResetId := t.nextResetId + 1))
  {
    AddResetKeeps(t.resets, t.users, t.nextResetId, r);
  }

  lemma ConsumeKeepsConsistent(t: Tables, k: nat, u: User)
    requires Consistent(t)
    requires k in t.resets
    requires var id := t.resets[k].userId;
             u.id == id && u.email == t.users[id].email && u.sellerId == t.users[id].sellerId
    ensures var id := t.resets[k].userId;
            Consistent(t.(users := t.users[id := u], resets := t.resets - {k}))
  {
    var id := t.resets[k].userId;
    UpdateUserKeeps(t.users, t.sellers, t.nextUserId, id, u);
    RemoveResetKeeps(t.resets, t.users, t.users[id := u], t.nextResetId, k);
  }


  method ForgotPassword(db: Database, email: Option<string>, token: string, now: int) returns (reply: Reply<string>)
    requires db.Valid()
    modifies db`resets, db`nextResetId
    ensures db.Valid()
    ensures Issued(reply, Tokens(db.resets, db.nextResetId)) == Issue(old(db.users), Tokens(old(db.resets), old(db.nextResetId)), email, token, now)
  {
    if !Truthy(email) {
      return Fail(400, EmailRequired);
    }
    var found := UserByEmail(db.users, ToLower(email.value));
    if found.None? {
      return Ok(200, MaybeSent);
    }
    var user := db.users[found.value];
    if !Truthy(user.password) {
      return Ok(200, SocialLogin);
    }
    var added := AddReset(Tokens(db.resets, db.nextResetId), user.id, token, now);
    if added.None? {
      return Threw;
    }
    ghost var before := db.Snapshot();
    IssueKeepsConsistent(before, PasswordReset(db.nextResetId, token, user.id, now + ResetWindow));
    db.resets, db.nextResetId := added.value.resets, added.value.nextResetId;
    assert db.Snapshot() == before.(resets := db.resets, nextResetId := db.nextResetId);
    reply := Ok(200, LinkSent);
  }

  method ResetPassword(db: Database, token: string, password: Option<string>, now: int, hash: string -> string)
    returns (reply: Reply<string>)
    requires db.Valid()
    modifies db`users, db`resets
    ensures db.Valid()
    ensures Consumed(reply, db.users, db.resets) == Consume(old(db.users), old(db.resets), token, password, now, hash)
  {
    if !AcceptablePassword(password) {
      return Fail(400, ShortPassword);
    }
    var found := ResetByToken(db.resets, token);
    if found.None? {
      return Fail(400, InvalidToken);
    }
    var record := db.resets[found.value];
    if !Usable(record, now) {
      return Fail(400, InvalidToken);
    }
    var user := db.users[record.userId];
    var user' := user.(password := Some(hash(password.value)));
    ghost var before := db.Snapshot();
    ConsumeKeepsConsistent(before, found.value, user');
    db.users, db.resets := db.users[record.userId := user'], db.resets - {found.value};
    assert db.Snapshot() == before.(users := db.users, resets := db.resets);
    reply := Ok(200, ResetDone);
  }
}
