/** The server's authentication handlers: sign-up, password login and Google
    login over the user collection, here a table keyed by email address.
    Password hashing and comparison, token signing and Google token
    verification are passed in as functions. */
module Auth {
  import opened Util

  /** A stored user. `password` is the hash, absent for Google-only accounts. */
  datatype User = User(id: nat, username: string, email: string, password: Option<string>,
                       googleId: Option<string>, picture: Option<string>)

  /** The user as a response shows it. */
  datatype PublicUser = PublicUser(id: nat, username: string, email: string, picture: Option<string>)

  datatype ErrorCode = UserExists | UserNotFound | NoPassword

  /** A response: an error status with its message and optional code, or a
      success status with a signed token and the user. */
  datatype Response =
    | Failure(status: int, error: string, code: Option<ErrorCode>)
    | Success(status: int, token: string, user: PublicUser)

  /** What a verified Google token says: the address, the name, the Google
      account id (`sub`) and the picture. */
  datatype GooglePayload = GooglePayload(email: Option<string>, name: Option<string>, sub: string, picture: Option<string>)

  /** `verifyIdToken`: it throws, or yields a ticket whose payload may be missing. */
  datatype Verification = VerifyThrew | Verified(payload: Option<GooglePayload>)

  function Public(u: User): PublicUser {
    PublicUser(u.id, u.username, u.email, u.picture)
  }

  /** `email.split('@')[0]`: everything before the first `@`. */
  function LocalPart(email: string): (r: string)
    ensures '@' !in r
    ensures r <= email
    ensures r == email || email[|r|] == '@'
  {
    if email == [] || email[0] == '@' then [] else [email[0]] + LocalPart(email[1..])
  }

  /** Every stored user sits under its own address, and ids are distinct and
      below the next id to hand out. */
  ghost predicate TableValid(users: map<string, User>, nextId: nat) {
    && (forall e :: e in users ==> users[e].email == e && users[e].id < nextId)
    && (forall e1, e2 :: e1 in users && e2 in users && e1 != e2 ==> users[e1].id != users[e2].id)
  }

  /** Adding a user under its own address with the next id keeps the table valid. */
  lemma AddKeepsValid(users: map<string, User>, nextId: nat, u: User)
    requires TableValid(users, nextId)
    requires u.email !in users && u.id == nextId
    ensures TableValid(users[u.email := u], nextId + 1)
  {
    var r := users[u.email := u];
    forall e1, e2 | e1 in r && e2 in r && e1 != e2 ensures r[e1].id != r[e2].id {
      if e1 != u.email && e2 != u.email {
        assert r[e1] == users[e1] && r[e2] == users[e2];
      }
    }
  }

  /** Replacing a user by one with the same address and id keeps the table valid. */
  lemma ReplaceKeepsValid(users: map<string, User>, nextId: nat, u: User)
    requires TableValid(users, nextId)
    requires u.email in users && u.id == users[u.email].id
    ensures TableValid(users[u.email := u], nextId)
  {
    var r := users[u.email := u];
    forall e1, e2 | e1 in r && e2 in r && e1 != e2 ensures r[e1].id != r[e2].id {
      assert r[e1].id == users[e1].id && r[e2].id == users[e2].id;
    }
  }

  /** `login`: a ladder of checks, each answering before the next is tried.
      `dbUp` says whether the lookup succeeds; `compare` is `bcrypt.compare`
      and `sign` issues the token for a user id. */
  function Login(users: map<string, User>, email: Option<string>, password: Option<string>,
                 compare: (string, string) -> bool, sign: nat -> string, dbUp: bool): (r: Response)
    ensures !Present(email) || !Present(password) ==> r == Failure(400, "Email and password are required", None)
    ensures r.Success? <==>
      && Present(email) && Present(password) && dbUp && email.value in users
      && Present(users[email.value].password)
      && compare(password.value, users[email.value].password.value)
    ensures r.Success? ==> r.status == 200 && r == Success(200, sign(users[email.value].id), Public(users[email.value]))
    ensures r.Failure? && r.code == Some(UserNotFound) <==>
      Present(email) && Present(password) && dbUp && email.value !in users
    ensures r.Failure? && r.code == Some(NoPassword) <==>
      Present(email) && Present(password) && dbUp && email.value in users && !Present(users[email.value].password)
    ensures r.Failure? && r.status == 401 <==>
      && Present(email) && Present(password) && dbUp && email.value in users
      && Present(users[email.value].password) && !compare(password.value, users[email.value].password.value)
    ensures r.Failure? && r.status == 500 <==> Present(email) && Present(password) && !dbUp
  {
    if !Present(email) || !Present(password) then
      Failure(400, "Email and password are required", None)
    else if !dbUp then
      Failure(500, "Server error during login", None)
    else if email.value !in users then
      Failure(404, "User not found. Please sign up.", Some(UserNotFound))
    else
      var user := users[email.value];
      if !Present(user.password) then
        Failure(400, "Account exists but has no password. Try signing in with Google.", Some(NoPassword))
      else if !compare(password.value, user.password.value) then
        Failure(401, "Invalid credentials", None)
      else
        Success(200, sign(user.id), Public(user))
  }

  /** The account after a Google login links it: the Google id set only when
      none is stored, the picture set only when none is stored and one came. */
  function Linked(u: User, googleId: string, picture: Option<string>): (r: User)
    ensures r.id == u.id && r.username == u.username && r.email == u.email && r.password == u.password
    ensures Present(u.googleId) ==> r.googleId == u.googleId
    ensures !Present(u.googleId) ==> r.googleId == Some(googleId)
    ensures Present(u.picture) || !Present(picture) ==> r.picture == u.picture
    ensures !Present(u.picture) && Present(picture) ==> r.picture == picture
  {
    u.(googleId := if Present(u.googleId) then u.googleId else Some(googleId),
       picture := if !Present(u.picture) && Present(picture) then picture else u.picture)
  }

  /** With a non-empty Google id, linking changes the account exactly when a
      Google id was missing, or a picture was missing and one came. */
  lemma LinkChanges(u: User, googleId: string, picture: Option<string>)
    requires googleId != ""
    ensures Linked(u, googleId, picture) != u <==>
      !Present(u.googleId) || (!Present(u.picture) && Present(picture))
  {
    if !Present(u.googleId) {
      assert Linked(u, googleId, picture).googleId != u.googleId;
    } else if !Present(u.picture) && Present(picture) {
      assert Linked(u, googleId, picture).picture != u.picture;
    }
  }

  /** Linking is idempotent: a second Google login with the same token leaves the account as it is. */
  lemma LinkIdempotent(u: User, googleId: string, picture: Option<string>)
    ensures Linked(Linked(u, googleId, picture), googleId, picture) == Linked(u, googleId, picture)
  {
  }

  /** A password sign-up followed by a login with the same address and
      password succeeds, provided the comparison accepts the password against
      its hash and the hash is not empty. */
  lemma LoginAfterSignup(users: map<string, User>, id: nat, username: string, email: string, password: string,
                         hash: string -> string, compare: (string, string) -> bool, sign: nat -> string)
    requires email != "" && password != "" && hash(password) != ""
    requires compare(password, hash(password))
    ensures var after := users[email := User(id, username, email, Some(hash(password)), None, None)];
      Login(after, Some(email), Some(password), compare, sign, true) == Success(200, sign(id), PublicUser(id, username, email, None))
  {
  }

  /** An account made by a Google login has no password, so a password login
      for it is refused with NO_PASSWORD. */
  lemma GoogleAccountHasNoPassword(users: map<string, User>, u: User, password: string,
                                   compare: (string, string) -> bool, sign: nat -> string)
    requires u.email != "" && password != "" && u.password == None
    ensures Login(users[u.email := u], Some(u.email), Some(password), compare, sign, true)
         == Failure(400, "Account exists but has no password. Try signing in with Google.", Some(NoPassword))
  {
  }

  /** The user collection. */
  class UserTable {
    var users: map<string, User>
    var nextId: nat

    ghost predicate Valid()
      reads this
    {
      TableValid(users, nextId)
    }

    constructor ()
      ensures users == map[] && nextId == 0
      ensures Valid()
    {
      users := map[];
      nextId := 0;
    }

    /** `signup`: missing fields, then an existing address, are refused;
        otherwise the user is stored with the hashed password. `dbUp` says
        whether the table answers; a failure there gives 500. */
    method Signup(username: Option<string>, email: Option<string>, password: Option<string>,
                  hash: string -> string, sign: nat -> string, dbUp: bool) returns (r: Response)
      requires Valid()
      modifies this
      ensures Valid()
      ensures !Present(username) || !Present(email) || !Present(password) ==>
        r == Failure(400, "All fields are required", None) && users == old(users) && nextId == old(nextId)
      ensures Present(username) && Present(email) && Present(password) && !dbUp ==>
        r == Failure(500, "Server error during signup", None) && users == old(users) && nextId == old(nextId)
      ensures Present(username) && Present(email) && Present(password) && dbUp && email.value in old(users) ==>
        r == Failure(400, "User already exists", Some(UserExists)) && users == old(users) && nextId == old(nextId)
      ensures Present(username) && Present(email) && Present(password) && dbUp && email.value !in old(users) ==>
        var u := User(old(nextId), username.value, email.value, Some(hash(password.value)), None, None);
        && users == old(users)[email.value := u] && nextId == old(nextId) + 1
        && r == Success(201, sign(u.id), PublicUser(u.id, u.username, u.email, None))
    {
      if !Present(username) || !Present(email) || !Present(password) {
        return Failure(400, "All fields are required", None);
      }
      if !dbUp {
        return Failure(500, "Server error during signup", None);
      }
      if email.value in users {
        return Failure(400, "User already exists", Some(UserExists));
      }
      var hashed := hash(password.value);
      var user := User(nextId, username.value, email.value, Some(hashed), None, None);
      AddKeepsValid(users, nextId, user);
      users := users[email.value := user];
      nextId := nextId + 1;
      r := Success(201, sign(user.id), PublicUser(user.id, user.username, user.email, None));
    }

    /** `googleLogin`: the credential, the server's client id and the token's
        address are checked before the table is touched; then the user is
        created, or an existing account is linked and saved only if it
        changed. `wrote` says whether the table was written. */
    method GoogleLogin(credential: Option<string>, clientId: Option<string>, verify: string -> Verification,
                       sign: nat -> string, dbUp: bool) returns (r: Response, wrote: bool)
      requires Valid()
      modifies this
      ensures Valid()
      ensures !Present(credential) ==>
        r == Failure(400, "Google credential is required", None) && !wrote && users == old(users)
      ensures Present(credential) && !Present(clientId) ==>
        r == Failure(500, "Google Auth is not configured on the server", None) && !wrote && users == old(users)
      ensures Present(credential) && Present(clientId) && verify(credential.value).VerifyThrew? ==>
        r == Failure(500, "Google authentication failed", None) && !wrote && users == old(users)
      ensures Present(credential) && Present(clientId) && verify(credential.value).Verified? &&
              (verify(credential.value).payload.None? || !Present(verify(credential.value).payload.value.email)) ==>
        r == Failure(400, "Invalid Google Token", None) && !wrote && users == old(users)
      ensures !dbUp ==> users == old(users) && nextId == old(nextId) && !wrote && r.Failure?
      ensures Present(credential) && Present(clientId) && verify(credential.value).Verified?
              && verify(credential.value).payload.Some? && Present(verify(credential.value).payload.value.email)
              && !dbUp ==>
        r == Failure(500, "Google authentication failed", None)
      ensures r.Failure? ==> users == old(users) && nextId == old(nextId) && !wrote
      ensures r.Success? <==>
        && Present(credential) && Present(clientId) && dbUp && verify(credential.value).Verified?
        && verify(credential.value).payload.Some? && Present(verify(credential.value).payload.value.email)
      ensures r.Success? ==>
        var p := verify(credential.value).payload.value;
        var email := p.email.value;
        && r.status == 200 && email in users && r == Success(200, sign(users[email].id), Public(users[email]))
        && (email !in old(users) ==>
              && users == old(users)[email := User(old(nextId), OrElse(p.name, LocalPart(email)), email,
                                                   None, Some(p.sub), p.picture)]
              && nextId == old(nextId) + 1 && wrote)
        && (email in old(users) ==>
              && users == old(users)[email := Linked(old(users)[email], p.sub, p.picture)]
              && nextId == old(nextId)
              && (wrote <==> !Present(old(users)[email].googleId)
                             || (!Present(old(users)[email].picture) && Present(p.picture))))
    {
      wrote := false;
      if !Present(credential) {
        return Failure(400, "Google credential is required", None), false;
      }
      if !Present(clientId) {
        return Failure(500, "Google Auth is not configured on the server", None), false;
      }
      var ticket := verify(credential.value);
      if ticket.VerifyThrew? {
        return Failure(500, "Google authentication failed", None), false;
      }
      if ticket.payload.None? || !Present(ticket.payload.value.email) {
        return Failure(400, "Invalid Google Token", None), false;
      }
      var payload := ticket.payload.value;
      var email := payload.email.value;
      if !dbUp {
        return Failure(500, "Google authentication failed", None), false;
      }
      var user: User;
      if email !in users {
        user := User(nextId, OrElse(payload.name, LocalPart(email)), email, None, Some(payload.sub), payload.picture);
        AddKeepsValid(users, nextId, user);
        users := users[email := user];
        nextId := nextId + 1;
        wrote := true;
      } else {
        user := users[email];
        var updated := false;
        if !Present(user.googleId) {
          user := user.(googleId := Some(payload.sub));
          updated := true;
        }
        if !Present(user.picture) && Present(payload.picture) {
          user := user.(picture := payload.picture);
          updated := true;
        }
        assert user == Linked(users[email], payload.sub, payload.picture);
        if updated {
          ReplaceKeepsValid(users, nextId, user);
          users := users[email := user];
          wrote := true;
        }
      }
      r := Success(200, sign(user.id), Public(user));
    }
  }
}
