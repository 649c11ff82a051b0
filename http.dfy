/**
 * What the request handlers exchange: JSON request values, the result of a
 * call into code outside the model (a storage method, bcrypt, jsonwebtoken),
 * the `users` row, and responses.
 */
module Http {
  import opened Wrappers
  import Storage

  /** A JSON value as a handler reads it from `req.body` or `req.query`; numbers are integers. */
  datatype Value = Missing | Null | Bool(b: bool) | Num(n: int) | Str(s: string) | Composite

  /** JavaScript truthiness of a value (`if (!x)`). */
  predicate Truthy(v: Value) {
    match v
    case Missing => false
    case Null => false
    case Bool(b) => b
    case Num(n) => n != 0
    case Str(s) => s != ""
    case Composite => true
  }

  /** The outcome of an awaited call into code outside the model: its result, or an exception. */
  datatype Call<T> = Returns(result: T) | Throws

  /** A row of the `users` table; the nullable boolean columns are `Option<bool>`. */
  datatype User = User(
    id: int,
    username: string,
    email: string,
    password: string,
    isAdmin: Option<bool>,
    emailVerified: Option<bool>,
    verificationToken: Option<string>,
    resetPasswordToken: Option<string>,
    resetPasswordExpires: Option<int>,
    createdAt: Option<int>)

  /** `const { password: _, ...userWithoutPassword } = user`: every column but the password hash. */
  datatype PublicUser = PublicUser(
    id: int,
    username: string,
    email: string,
    isAdmin: Option<bool>,
    emailVerified: Option<bool>,
    verificationToken: Option<string>,
    resetPasswordToken: Option<string>,
    resetPasswordExpires: Option<int>,
    createdAt: Option<int>)

  function WithoutPassword(u: User): PublicUser {
    PublicUser(u.id, u.username, u.email, u.isAdmin, u.emailVerified, u.verificationToken,
               u.resetPasswordToken, u.resetPasswordExpires, u.createdAt)
  }

  /** The five fields the registration response reports. */
  datatype RegisteredUser = RegisteredUser(id: int, username: string, email: string,
                                           emailVerified: Option<bool>, isAdmin: Option<bool>)

  /** The JSON bodies the handlers send. */
  datatype Body =
    | ErrorJson(error: string)
    | MessageJson(message: string)
    | RegisteredJson(message: string, registered: RegisteredUser)
    | UserJson(user: PublicUser)
    | LoginJson(loggedIn: PublicUser, token: string)
    | ProductJson(product: Storage.Product)
    | ProductListJson(products: seq<Storage.Product>)
    | StatusJson(status: string)
    | NullJson
    | NoBody

  datatype Response = Response(status: int, body: Body)

  function Error(status: int, message: string): Response {
    Response(status, ErrorJson(message))
  }
}
