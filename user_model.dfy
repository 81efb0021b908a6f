/** The user document (models/user.js) and the token it issues. */
module UserModel {
  import opened Common
  import Json

  /** A stored user; `date` defaults to the creation time. */
  datatype User = User(id: Id, name: string, email: string, password: string, date: int)

  /** Mongoose `required` on a String path: the value must be present and not empty. */
  predicate Savable(u: User)
  {
    u.name != "" && u.email != "" && u.password != ""
  }

  /**
   * What leaves the server about a user: `_id`, `name` and `email`.  The registration answer
   * picks exactly these, and the JWT strategy loads users without `password` and `date`.
   */
  datatype PublicUser = PublicUser(id: Id, name: string, email: string)

  function Public(u: User): PublicUser
  {
    PublicUser(u.id, u.name, u.email)
  }

  /** The signed claims of a login token and its lifetime in seconds. */
  datatype Claims = Claims(id: Id, name: string, expiresIn: nat)

  const TokenLifetime: nat := 3600

  /**
   * The password hashing and token signing the server delegates to bcrypt and jsonwebtoken.
   * `hash(plain, salt)` and `compare(plain, stored)` are bcrypt's, `sign` signs claims with
   * the server's secret key.
   */
  datatype Crypto = Crypto(
    hash: (string, string) -> string,
    compare: (string, string) -> bool,
    sign: Claims -> string)

  /** bcrypt's promise: a password always matches a hash made from it, whatever the salt. */
  ghost predicate Sound(c: Crypto)
  {
    forall plain, salt :: c.compare(plain, c.hash(plain, salt))
  }

  /** A hash never equals the text it was made from. */
  ghost predicate Hiding(c: Crypto)
  {
    forall plain, salt :: c.hash(plain, salt) != plain
  }

  /** `getToken`: the user's id and name, signed, valid for an hour; `rememberMe` is ignored. */
  function GetToken(c: Crypto, u: User, rememberMe: Option<Json.Value>): string
  {
    c.sign(Claims(u.id, u.name, TokenLifetime))
  }
}
