/**
 * The account handlers (routes/users.js) and the JWT strategy that resolves the user of a
 * protected request (config/passport.js), over the `users` collection in its natural order.
 */
module UsersRouter {
  import opened Common
  import opened Json
  import Joi
  import Arrays
  import UserValidation
  import opened UserModel

  const EmailTaken: ErrorMap := map["email" := "User with current email is already registered"]
  const NoSuchEmail: ErrorMap := map["email" := "User with given email doesn't exist"]
  const WrongPassword: ErrorMap := map["password" := "Password incorrect"]

  /** The login answer, `{token: 'Bearer <jwt>'}`. */
  datatype Token = Token(token: string)

  /** A handler's answer together with the collection it leaves behind. */
  datatype Handled<P> = Handled(reply: Response<P>, users: seq<User>)

  function WithEmail(email: string): User -> bool
  {
    (u: User) => u.email == email
  }

  function WithId(id: Id): User -> bool
  {
    (u: User) => u.id == id
  }

  /** The users of the collection have distinct ids and distinct emails. */
  predicate Valid(users: seq<User>)
  {
    forall i, j :: 0 <= i < j < |users| ==> users[i].id != users[j].id && users[i].email != users[j].email
  }

  /** The id the driver mints for a new document is not used yet. */
  predicate FreshId(users: seq<User>, id: Id)
  {
    forall i :: 0 <= i < |users| ==> users[i].id != id
  }

  /** The user `register` stores for an accepted body. */
  function NewUser(c: Crypto, body: Body, id: Id, salt: string, now: int): (u: User)
    ensures u.id == id && u.date == now
    ensures StrMember(body, "name").Some? ==> Some(u.name) == StrMember(body, "name")
    ensures StrMember(body, "email").Some? ==> Some(u.email) == StrMember(body, "email")
    ensures u.password == c.hash(Text(body, "password"), salt)
  {
    User(id, Text(body, "name"), Text(body, "email"), c.hash(Text(body, "password"), salt), now)
  }

  /**
   * POST /register: validate; refuse an email already stored; otherwise store the user with
   * the hashed password and answer its `_id`, `name` and `email`.
   */
  function HandleRegister(users: seq<User>, fm: Formats, c: Crypto, body: Body, id: Id, salt: string, now: int)
    : (h: Handled<PublicUser>)
    ensures UserValidation.Verdict(fm, body).Reject? ==>
      h == Handled(Err(400, UserValidation.Verdict(fm, body).errors), users)
    ensures h.reply.Ok? <==>
      UserValidation.Acceptable(fm, body) && Arrays.FindFirst(users, WithEmail(Text(body, "email"))) < 0
    ensures UserValidation.Acceptable(fm, body) && !h.reply.Ok? ==> h == Handled(Err(400, EmailTaken), users)
    ensures h.reply.Ok? ==>
      && h.users == users + [NewUser(c, body, id, salt, now)]
      && h.reply.body == PublicUser(id, Text(body, "name"), Text(body, "email"))
  {
    var v := UserValidation.Verdict(fm, body);
    if v.Reject? then Handled(Err(400, v.errors), users)
    else if Arrays.FindFirst(users, WithEmail(Text(body, "email"))) >= 0 then Handled(Err(400, EmailTaken), users)
    else
      var u := NewUser(c, body, id, salt, now);
      Handled(Ok(Public(u)), users + [u])
  }

  /**
   * POST /login: find the user by email; check the password with bcrypt; answer a bearer
   * token.  `bcrypt.compare` throws when the password is not a string.
   */
  function HandleLogin(users: seq<User>, c: Crypto, body: Body): (r: Response<Token>)
    ensures r.Ok? ==> exists i ::
      && 0 <= i < |users| && users[i].email == Text(body, "email")
      && r.body == Token("Bearer " + c.sign(Claims(users[i].id, users[i].name, TokenLifetime)))
  {
    match StrMember(body, "email")
    case None => Err(404, NoSuchEmail)
    case Some(email) =>
      var i := Arrays.FindFirst(users, WithEmail(email));
      if i < 0 then Err(404, NoSuchEmail)
      else match StrMember(body, "password")
        case None => Fault
        case Some(password) =>
          if !c.compare(password, users[i].password) then Err(404, WrongPassword)
          else Ok(Token("Bearer " + GetToken(c, users[i], Lookup(body, "rememberMe"))))
  }

  /**
   * The JWT strategy and GET /users: the token's `_id` is looked up; a user that no longer
   * exists is refused with 401; otherwise the handler answers the user without password
   * and date.  On a refusal passport ends the response with status 401 and the text
   * `Unauthorized` before the handler runs; `Err(401, map[])` stands for that answer.
   */
  function HandleCurrentUser(users: seq<User>, claimed: Id): (r: Response<PublicUser>)
    ensures r.Ok? <==> exists i :: 0 <= i < |users| && users[i].id == claimed
    ensures r.Ok? ==> exists i :: 0 <= i < |users| && users[i].id == claimed && r.body == Public(users[i])
    ensures !r.Ok? ==> r == Err(401, map[])
  {
    var i := Arrays.FindFirst(users, WithId(claimed));
    if i < 0 then Err(401, map[]) else Ok(Public(users[i]))
  }

  // Properties of the handlers.

  /** Validation comes first: a refused body gets the same answer whatever is stored. */
  lemma RegisterValidatesFirst(users: seq<User>, others: seq<User>, fm: Formats, c: Crypto, body: Body,
                               id: Id, salt: string, now: int)
    requires !UserValidation.Acceptable(fm, body)
    ensures HandleRegister(users, fm, c, body, id, salt, now).reply == HandleRegister(others, fm, c, body, id, salt, now).reply
    ensures HandleRegister(users, fm, c, body, id, salt, now).users == users
  {
  }

  /** Registration keeps ids and emails unique. */
  lemma RegisterKeepsValid(users: seq<User>, fm: Formats, c: Crypto, body: Body, id: Id, salt: string, now: int)
    requires Valid(users) && FreshId(users, id)
    ensures Valid(HandleRegister(users, fm, c, body, id, salt, now).users)
  {
    var h := HandleRegister(users, fm, c, body, id, salt, now);
    if h.reply.Ok? {
      var u := NewUser(c, body, id, salt, now);
      assert forall i :: 0 <= i < |users| ==> users[i].email != u.email by {
        forall i | 0 <= i < |users| ensures users[i].email != u.email {
          assert !WithEmail(Text(body, "email"))(users[i]);
        }
      }
    }
  }

  /**
   * The stored password is the salted hash of the one sent, and the answer is the public
   * part of the stored user; with a hash that never returns its input, the plain text is
   * never stored.
   */
  lemma RegisterStoresHash(users: seq<User>, fm: Formats, c: Crypto, body: Body, id: Id, salt: string, now: int)
    requires HandleRegister(users, fm, c, body, id, salt, now).reply.Ok?
    ensures var h := HandleRegister(users, fm, c, body, id, salt, now);
      && |h.users| == |users| + 1
      && h.users[|users|].password == c.hash(StrMember(body, "password").value, salt)
      && h.reply.body == Public(h.users[|users|])
    ensures Hiding(c) ==> HandleRegister(users, fm, c, body, id, salt, now).users[|users|].password != StrMember(body, "password").value
  {
  }

  /** A second registration with a stored email is refused with 400 keyed `email`. */
  lemma RegisterTwiceRefused(users: seq<User>, fm: Formats, c: Crypto, body: Body, id: Id, id2: Id,
                             salt: string, salt2: string, now: int, now2: int)
    requires HandleRegister(users, fm, c, body, id, salt, now).reply.Ok?
    ensures var after := HandleRegister(users, fm, c, body, id, salt, now).users;
      HandleRegister(after, fm, c, body, id2, salt2, now2) == Handled(Err(400, EmailTaken), after)
  {
    var after := HandleRegister(users, fm, c, body, id, salt, now).users;
    var email := Text(body, "email");
    assert WithEmail(email)(after[|users|]);
  }

  /** The three answers of login: unknown email, wrong password, or a bearer token. */
  lemma LoginOutcomes(users: seq<User>, c: Crypto, body: Body)
    requires StrMember(body, "email").Some? && StrMember(body, "password").Some?
    ensures var i := Arrays.FindFirst(users, WithEmail(StrMember(body, "email").value));
      && (i < 0 <==> HandleLogin(users, c, body) == Err(404, NoSuchEmail))
      && (0 <= i && !c.compare(StrMember(body, "password").value, users[i].password) <==>
           HandleLogin(users, c, body) == Err(404, WrongPassword))
      && (HandleLogin(users, c, body).Ok? <==>
           0 <= i && c.compare(StrMember(body, "password").value, users[i].password))
  {
    assert NoSuchEmail != WrongPassword by {
      assert "email" in NoSuchEmail && "email" !in WrongPassword;
    }
  }

  /** Whoever registers can log in with the same email and password and gets their token. */
  lemma RegisterThenLogin(users: seq<User>, fm: Formats, c: Crypto, body: Body, login: Body,
                          id: Id, salt: string, now: int)
    requires Sound(c)
    requires HandleRegister(users, fm, c, body, id, salt, now).reply.Ok?
    requires StrMember(login, "email") == StrMember(body, "email")
    requires StrMember(login, "password") == StrMember(body, "password")
    ensures var after := HandleRegister(users, fm, c, body, id, salt, now).users;
      HandleLogin(after, c, login) == Ok(Token("Bearer " + c.sign(Claims(id, Text(body, "name"), TokenLifetime))))
  {
    var after := HandleRegister(users, fm, c, body, id, salt, now).users;
    var u := NewUser(c, body, id, salt, now);
    var email := Text(body, "email");
    assert after[|users|] == u;
    assert Arrays.FindFirst(after, WithEmail(email)) == |users| by {
      assert forall k :: 0 <= k < |users| ==> after[k] == users[k];
      Arrays.FirstIsUnique(after, WithEmail(email), |users|);
    }
    assert c.compare(Text(body, "password"), c.hash(Text(body, "password"), salt));
  }

  /** The account store: the `users` collection the handlers read and write. */
  class UserStore {
    var users: seq<User>

    constructor ()
      ensures users == []
    {
      users := [];
    }

    method Register(fm: Formats, c: Crypto, body: Body, id: Id, salt: string, now: int)
      returns (reply: Response<PublicUser>)
      requires Valid(users) && FreshId(users, id)
      modifies this
      ensures Handled(reply, users) == HandleRegister(old(users), fm, c, body, id, salt, now)
      ensures Valid(users)
    {
      RegisterKeepsValid(users, fm, c, body, id, salt, now);
      var v := UserValidation.Validate(fm, body);
      if v.Reject? {
        return Err(400, v.errors);
      }
      var found := Arrays.Find(users, WithEmail(Text(body, "email")));
      if found >= 0 {
        return Err(400, EmailTaken);
      }
      var u := User(id, Text(body, "name"), Text(body, "email"), c.hash(Text(body, "password"), salt), now);
      users := users + [u];
      reply := Ok(Public(u));
    }

    method Login(c: Crypto, body: Body) returns (reply: Response<Token>)
      ensures reply == HandleLogin(users, c, body)
    {
      var email := StrMember(body, "email");
      if email.None? {
        return Err(404, NoSuchEmail);
      }
      var i := Arrays.Find(users, WithEmail(email.value));
      if i < 0 {
        return Err(404, NoSuchEmail);
      }
      var password := StrMember(body, "password");
      if password.None? {
        return Fault;
      }
      var valid := c.compare(password.value, users[i].password);
      if !valid {
        return Err(404, WrongPassword);
      }
      var token := GetToken(c, users[i], Lookup(body, "rememberMe"));
      reply := Ok(Token("Bearer " + token));
    }

    method CurrentUser(claimed: Id) returns (reply: Response<PublicUser>)
      ensures reply == HandleCurrentUser(users, claimed)
    {
      var i := Arrays.Find(users, WithId(claimed));
      if i < 0 {
        return Err(401, map[]);
      }
      reply := Ok(Public(users[i]));
    }
  }
}
