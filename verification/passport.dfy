/**
 * The Google sign-in callback: find the user by the profile's first email
 * address, or create a password-less SELLER account for it.
 */
module Passport {
  import opened Js
  import opened Schema

  /** What the callback hands to `done`: an error, or the signed-in user. */
  datatype Done = DoneError(message: string) | DoneUser(user: User)

  /** `profile.emails?.[0]?.value`: the first listed address, if any. */
  function FirstEmail(emails: seq<string>): (r: Option<string>)
    ensures r.Some? <==> emails != []
    ensures r.Some? ==> r.value == emails[0]
  {
    if emails == [] then None else Some(emails[0])
  }

  /** The account created for a first-time Google user. */
  function GoogleUser(id: nat, email: string, displayName: string): (u: User)
    ensures u.id == id && u.email == email && u.name == Some(displayName)
    ensures u.password == None && u.role == "SELLER" && u.sellerId == None
    ensures u.authProvider == Some("GOOGLE")
  {
    User(id, Some(displayName), email, None, "SELLER", None, Some("GOOGLE"))
  }

  /** The callback's answer together with the user table and its id sequence afterwards. */
  datatype SignIn = SignIn(done: Done, users: map<nat, User>, nextUserId: nat)

  predicate HasEmail(users: map<nat, User>, email: string) {
    exists k :: k in users && users[k].email == email
  }

  /** The effect of one Google sign-in on the user table. */
  function SignInWith(users: map<nat, User>, nextUserId: nat, emails: seq<string>, displayName: string): (r: SignIn)
    // no usable email: an error, and nothing is written
    ensures !Truthy(FirstEmail(emails)) ==>
      r == SignIn(DoneError("Google account has no email"), users, nextUserId)
    // the address is used exactly as given; an existing account is returned and nothing is written
    ensures Truthy(FirstEmail(emails)) && HasEmail(users, emails[0]) ==>
      && r.users == users && r.nextUserId == nextUserId
      && r.done.DoneUser? && r.done.user.email == emails[0]
      && exists k :: k in users && users[k] == r.done.user
    // otherwise exactly one account, the returned one, is added under the next id
    ensures Truthy(FirstEmail(emails)) && !HasEmail(users, emails[0]) ==>
      && r.users == users[nextUserId := GoogleUser(nextUserId, emails[0], displayName)]
      && r.nextUserId == nextUserId + 1
      && r.done == DoneUser(GoogleUser(nextUserId, emails[0], displayName))
  {
    var email := FirstEmail(emails);
    if !Truthy(email) then SignIn(DoneError("Google account has no email"), users, nextUserId)
    else
      match Find(users, (u: User) => u.email == email.value)
      case Some(k) => SignIn(DoneUser(users[k]), users, nextUserId)
      case None =>
        var user := GoogleUser(nextUserId, email.value, displayName);
        SignIn(DoneUser(user), users[nextUserId := user], nextUserId + 1)
  }

  /** Find-or-create is idempotent: a second sign-in with the same profile writes nothing and returns the same answer. */
  lemma SignInIdempotent(users: map<nat, User>, nextUserId: nat, emails: seq<string>, displayName: string)
    requires UniqueEmails(users)
    requires forall k :: k in users ==> k < nextUserId
    ensures var once := SignInWith(users, nextUserId, emails, displayName);
            var twice := SignInWith(once.users, once.nextUserId, emails, displayName);
            twice == once
  {
    var once := SignInWith(users, nextUserId, emails, displayName);
    if Truthy(FirstEmail(emails)) {
      var e := emails[0];
      var p := (u: User) => u.email == e;
      if HasEmail(users, e) {
        var k :| k in users && users[k].email == e;
        FindUnique(users, p, k);
      } else {
        var k := nextUserId;
        assert once.users[k].email == e;
        assert forall j :: j in once.users && once.users[j].email == e ==> j == k;
        FindUnique(once.users, p, k);
      }
    }
  }

  /** The strategy's verify callback, with the profile's email list and display name. */
  method FindOrCreate(db: Database, emails: seq<string>, displayName: string) returns (done: Done)
    requires db.Valid()
    modifies db`users, db`nextUserId
    ensures db.Valid()
    ensures SignIn(done, db.users, db.nextUserId) == SignInWith(old(db.users), old(db.nextUserId), emails, displayName)
  {
    var email := FirstEmail(emails);
    if !Truthy(email) {
      return DoneError("Google account has no email");
    }
    var found := Find(db.users, (u: User) => u.email == email.value);
    var user: User;
    if found.Some? {
      user := db.users[found.value];
    } else {
      user := GoogleUser(db.nextUserId, email.value, displayName);
      ghost var before := db.Snapshot();
      AddUserKeeps(db.users, db.sellers, db.nextUserId, user);
      db.users, db.nextUserId := db.users[db.nextUserId := user], db.nextUserId + 1;
      assert db.Snapshot() == before.(users := db.users, nextUserId := db.nextUserId);
    }
    done := DoneUser(user);
  }
}
