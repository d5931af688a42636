/**
  routes/usuarios.js: registration, login and the profile read. Passwords and tokens are
  opaque strings compared for equality; the source neither hashes nor checks them otherwise.
 */
module Users {
  import opened Wrappers
  import opened Entities
  import opened Consistency
  import opened Store

  /** The body of POST /usuarios; `None` is a field left out. */
  datatype RegisterRequest = RegisterRequest(
    username: Option<string>, password: Option<string>,
    name: Option<string>, email: Option<string>, phone: Option<string>, address: Option<string>,
    img: Option<string>, kms: Option<int>, emissao: Option<int>)

  /** `field || ''`. */
  function OrEmpty(o: Option<string>): (s: string)
    ensures Present(o) ==> s == o.value
    ensures !Present(o) ==> s == ""
  {
    if o.Some? then o.value else ""
  }

  /** `field || 0`. */
  function OrZero(o: Option<int>): (n: int)
    ensures o.Some? ==> n == o.value
    ensures o.None? ==> n == 0
  {
    if o.Some? then o.value else 0
  }

  /** `const { password: _, token: __, ...rest } = user`: the user without its secrets. */
  function Strip(u: User): (p: Profile)
  {
    Profile(u.id, u.username, u.name, u.email, u.phone, u.address, u.img, u.kms, u.emissao)
  }

  /** Stripping removes the two secrets and nothing else: two users give the same response
      exactly when they differ at most in password and token. */
  lemma StripHidesOnlySecrets(u1: User, u2: User)
    ensures Strip(u1) == Strip(u2) <==> u1.(password := u2.password, token := u2.token) == u2
  {
    if Strip(u1) == Strip(u2) {
      assert u1.id == Strip(u1).id == Strip(u2).id == u2.id;
    }
  }

  /** The users (document keys) whose token is `token`: what `where('token', '==', t)` finds. */
  ghost function TokenOwners(users: map<Id, User>, token: string): set<Id>
  {
    set k | k in users && users[k].token == token
  }

  /** With unique tokens the lookup by token finds at most one user, so the reads that
      resolve a token are deterministic. */
  lemma TokenOwnerUnique(users: map<Id, User>, token: string, u1: Id, u2: Id)
    requires UniqueTokens(users)
    requires u1 in TokenOwners(users, token) && u2 in TokenOwners(users, token)
    ensures u1 == u2
  {
  }

  /** The (token, id) pairs of the users with this username and password: what login may
      answer with. */
  ghost function Credentials(users: map<Id, User>, username: string, password: string): set<(string, Id)>
  {
    set k | k in users && users[k].username == username && users[k].password == password :: (users[k].token, users[k].id)
  }

  // ---------------------------------------------------------------------------------------
  // POST / (register)
  // ---------------------------------------------------------------------------------------

  /** POST /usuarios. The fresh id and the fresh token are inputs. */
  function Register(st: State, req: RegisterRequest, newId: Id, newToken: string): (out: (Result<Profile, Error>, State))
    ensures out.0.Err? ==> out.1 == st
  {
    if !Present(req.username) || !Present(req.password) then (Err(CredentialsRequired), st)
    else if exists k :: k in st.users && st.users[k].username == req.username.value then (Err(UsernameTaken), st)
    else
      var user := User(newId, req.username.value, req.password.value, newToken,
                       OrEmpty(req.name), OrEmpty(req.email), OrEmpty(req.phone), OrEmpty(req.address),
                       OrEmpty(req.img), OrZero(req.kms), OrZero(req.emissao));
      (Ok(Strip(user)), st.(users := st.users[newId := user]))
  }

  /** Registration needs a non-empty username and password and a username nobody has; a
      refusal changes nothing. */
  lemma RegisterRefusals(st: State, req: RegisterRequest, newId: Id, newToken: string)
    ensures var out := Register(st, req, newId, newToken);
      && (req.username.None? || req.username == Some("") || req.password.None? || req.password == Some("") ==>
            out == (Err(CredentialsRequired), st))
      && ((Present(req.username) && Present(req.password) &&
           (exists k :: k in st.users && st.users[k].username == req.username.value)) ==> out == (Err(UsernameTaken), st))
      && (out.0.Ok? <==> Present(req.username) && Present(req.password) &&
                         forall k :: k in st.users ==> st.users[k].username != req.username.value)
      && (out.0.Err? ==> out.1 == st)
  {
  }

  /** The stored user: the fresh id and token, the username and password sent, the profile
      fields sent or their defaults (`''` and 0); the response is that user stripped. */
  lemma RegisterWrites(st: State, req: RegisterRequest, newId: Id, newToken: string)
    requires Register(st, req, newId, newToken).0.Ok?
    ensures var out := Register(st, req, newId, newToken); var u := out.1.users[newId];
      && out.1 == st.(users := out.1.users)
      && out.1.users.Keys == st.users.Keys + {newId}
      && (forall k :: k in st.users && k != newId ==> out.1.users[k] == st.users[k])
      && u.id == newId && u.token == newToken
      && Some(u.username) == req.username && Some(u.password) == req.password
      && u.name == (if Present(req.name) then req.name.value else "")
      && u.email == (if Present(req.email) then req.email.value else "")
      && u.phone == (if Present(req.phone) then req.phone.value else "")
      && u.address == (if Present(req.address) then req.address.value else "")
      && u.img == (if Present(req.img) then req.img.value else "")
      && u.kms == (if req.kms.Some? then req.kms.value else 0)
      && u.emissao == (if req.emissao.Some? then req.emissao.value else 0)
      && out.0 == Ok(Strip(u))
  {
  }

  /** Registration keeps usernames unique, and keeps tokens unique when the new token is
      fresh. */
  lemma RegisterPreservesUniqueness(st: State, req: RegisterRequest, newId: Id, newToken: string)
    requires UniqueUsernames(st.users)
    ensures UniqueUsernames(Register(st, req, newId, newToken).1.users)
    ensures UniqueTokens(st.users) && (forall k :: k in st.users ==> st.users[k].token != newToken) ==>
      UniqueTokens(Register(st, req, newId, newToken).1.users)
  {
    var out := Register(st, req, newId, newToken);
    if out.0.Ok? {
      var users := out.1.users;
      forall k1, k2 | k1 in users && k2 in users && users[k1].username == users[k2].username
        ensures k1 == k2
      {
        if k1 != newId && k2 != newId {
          assert st.users[k1].username == st.users[k2].username;
        }
      }
    }
  }

  /** A user just registered can log in with the username and password sent and gets the new
      token and id, and nothing else. */
  lemma RegisterThenLogin(st: State, req: RegisterRequest, newId: Id, newToken: string)
    requires Register(st, req, newId, newToken).0.Ok?
    ensures Credentials(Register(st, req, newId, newToken).1.users, req.username.value, req.password.value)
      == {(newToken, newId)}
  {
    var users := Register(st, req, newId, newToken).1.users;
    var c := Credentials(users, req.username.value, req.password.value);
    assert (newToken, newId) in c by {
      assert newId in users && users[newId].username == req.username.value;
    }
    forall p | p in c ensures p == (newToken, newId) {
      var k :| k in users && users[k].username == req.username.value && users[k].password == req.password.value
        && p == (users[k].token, users[k].id);
    }
  }

  // ---------------------------------------------------------------------------------------
  // Handlers on the database
  // ---------------------------------------------------------------------------------------

  /** POST /usuarios. */
  method HandleRegister(db: Db, req: RegisterRequest, newId: Id, newToken: string) returns (res: Result<Profile, Error>)
    modifies db
    ensures (res, db.Snapshot()) == Register(old(db.Snapshot()), req, newId, newToken)
  {
    if !Present(req.username) || !Present(req.password) {
      return Err(CredentialsRequired);
    }
    if exists k :: k in db.users && db.users[k].username == req.username.value {
      return Err(UsernameTaken);
    }
    var user := User(newId, req.username.value, req.password.value, newToken,
                     OrEmpty(req.name), OrEmpty(req.email), OrEmpty(req.phone), OrEmpty(req.address),
                     OrEmpty(req.img), OrZero(req.kms), OrZero(req.emissao));
    db.users := db.users[newId := user];
    res := Ok(Strip(user));
  }

  /** POST /usuarios/login: succeeds exactly when some user has both this username and this
      password, and then answers with the token and id of one such user. */
  method HandleLogin(db: Db, username: Option<string>, password: Option<string>) returns (res: Result<(string, Id), Error>)
    ensures !Present(username) || !Present(password) ==> res == Err(CredentialsRequired)
    ensures Present(username) && Present(password) ==>
      (res.Ok? <==> Credentials(db.users, username.value, password.value) != {})
    ensures res.Ok? ==> Present(username) && Present(password) && res.value in Credentials(db.users, username.value, password.value)
    ensures Present(username) && Present(password) && res.Err? ==> res.error == InvalidCredentials
  {
    if !Present(username) || !Present(password) {
      return Err(CredentialsRequired);
    }
    if !exists k :: k in db.users && db.users[k].username == username.value && db.users[k].password == password.value {
      assert Credentials(db.users, username.value, password.value) == {};
      return Err(InvalidCredentials);
    }
    var k :| k in db.users && db.users[k].username == username.value && db.users[k].password == password.value;
    res := Ok((db.users[k].token, db.users[k].id));
    assert res.value in Credentials(db.users, username.value, password.value);
  }

  /** GET /usuarios/:id: a developer reads any user by document id; a client reads only the
      user owning its token, and only when that user's id is the one asked for. */
  method HandleProfile(db: Db, id: Id, role: Role, token: Option<string>) returns (res: Result<Profile, Error>)
    ensures role == Developer ==> res == (if id in db.users then Ok(Strip(db.users[id])) else Err(UserNotFound))
    ensures role == Client && !Present(token) ==> res == Err(TokenRequired)
    ensures role == Client && Present(token) && TokenOwners(db.users, token.value) == {} ==> res == Err(InvalidToken)
    ensures role == Client && Present(token) && TokenOwners(db.users, token.value) != {} ==>
      exists u :: u in TokenOwners(db.users, token.value) &&
        res == (if db.users[u].id == id then Ok(Strip(db.users[u])) else Err(NotOwner))
    ensures role == Unrecognized ==> res == Err(KeyNotAuthorized)
  {
    if role == Developer {
      if id !in db.users {
        return Err(UserNotFound);
      }
      res := Ok(Strip(db.users[id]));
    } else if role == Client {
      if !Present(token) {
        return Err(TokenRequired);
      }
      if !exists k :: k in db.users && db.users[k].token == token.value {
        assert TokenOwners(db.users, token.value) == {};
        return Err(InvalidToken);
      }
      var k :| k in db.users && db.users[k].token == token.value;
      assert k in TokenOwners(db.users, token.value);
      var user := db.users[k];
      if user.id == id {
        res := Ok(Strip(user));
      } else {
        res := Err(NotOwner);
      }
    } else {
      res := Err(KeyNotAuthorized);
    }
  }
}
