/**
 * The zod schemas of the shared schema file: `insertProductSchema` and
 * `insertUserSchema`. A parse either returns the validated fields or the list
 * of issues, one per failed check, in field order. URL and e-mail syntax are
 * parameters (`isUrl`, `isEmail`).
 */
module Schema {
  import opened Http
  import Storage

  datatype Issue = Issue(path: string, message: string)

  datatype Parsed<T> = Success(data: T) | Failure(issues: seq<Issue>)

  /** What `insertUserSchema` keeps of a body: exactly these three fields. */
  datatype InsertUser = InsertUser(username: string, email: string, password: string)

  /** A product body as received; unknown keys are stripped by the schema and not represented. */
  datatype ProductBody = ProductBody(name: Value, description: Value, price: Value, image: Value, category: Value)

  /** A registration body, including privileged columns a client might try to send. */
  datatype UserBody = UserBody(username: Value, email: Value, password: Value,
                               isAdmin: Value, emailVerified: Value, verificationToken: Value)

  function TypeName(v: Value): string {
    match v
    case Missing => "undefined"
    case Null => "null"
    case Bool(_) => "boolean"
    case Num(_) => "number"
    case Str(_) => "string"
    case Composite => "object"
  }

  /** The issue zod reports for a value of the wrong type (`Required` when the key is absent). */
  function TypeIssue(path: string, expected: string, v: Value): Issue {
    if v.Missing? then Issue(path, "Required")
    else Issue(path, "Expected " + expected + ", received " + TypeName(v))
  }

  /** `z.string().min(n, message)` */
  function StringMin(path: string, v: Value, n: nat, message: string): seq<Issue> {
    if !v.Str? then [TypeIssue(path, "string", v)]
    else if |v.s| >= n then []
    else [Issue(path, message)]
  }

  /** `z.string().<check>(message)` for a syntax predicate. */
  function StringWith(path: string, v: Value, ok: string -> bool, message: string): seq<Issue> {
    if !v.Str? then [TypeIssue(path, "string", v)]
    else if ok(v.s) then []
    else [Issue(path, message)]
  }

  /** `z.number().positive(...).min(1, ...)`: both checks run, so a price below 1 can fail twice. */
  function PriceIssues(v: Value): seq<Issue> {
    if !v.Num? then [TypeIssue("price", "number", v)]
    else
      var positive := if v.n > 0 then [] else [Issue("price", "El precio debe ser positivo")];
      var atLeastOne := if v.n >= 1 then [] else [Issue("price", "El precio debe ser mayor a 0")];
      positive + atLeastOne
  }

  function ProductIssues(b: ProductBody, isUrl: string -> bool): seq<Issue> {
    StringMin("name", b.name, 3, "El nombre debe tener al menos 3 caracteres")
    + StringMin("description", b.description, 10, "La descripción debe tener al menos 10 caracteres")
    + PriceIssues(b.price)
    + StringWith("image", b.image, isUrl, "Debe ser una URL válida")
    + StringMin("category", b.category, 2, "La categoría debe tener al menos 2 caracteres")
  }

  /** The field rules of `insertProductSchema`, stated directly. */
  predicate ProductRules(b: ProductBody, isUrl: string -> bool) {
    && b.name.Str? && |b.name.s| >= 3
    && b.description.Str? && |b.description.s| >= 10
    && b.price.Num? && b.price.n > 0 && b.price.n >= 1
    && b.image.Str? && isUrl(b.image.s)
    && b.category.Str? && |b.category.s| >= 2
  }

  /**
   * `insertProductSchema.safeParse`: succeeds exactly when every field rule holds,
   * and then yields the body's own fields; a failing rule is reported with its message.
   */
  function ParseProduct(b: ProductBody, isUrl: string -> bool): (r: Parsed<Storage.InsertProduct>)
    ensures r.Success? <==> ProductRules(b, isUrl)
    ensures r.Success? ==> r.data == Storage.InsertProduct(b.name.s, b.description.s, b.price.n, b.image.s, b.category.s)
    ensures b.name.Str? && |b.name.s| < 3 ==>
      r.Failure? && Issue("name", "El nombre debe tener al menos 3 caracteres") in r.issues
    ensures b.description.Str? && |b.description.s| < 10 ==>
      r.Failure? && Issue("description", "La descripción debe tener al menos 10 caracteres") in r.issues
    ensures b.category.Str? && |b.category.s| < 2 ==>
      r.Failure? && Issue("category", "La categoría debe tener al menos 2 caracteres") in r.issues
    ensures b.price.Num? && b.price.n <= 0 ==>
      r.Failure? && Issue("price", "El precio debe ser positivo") in r.issues
      && Issue("price", "El precio debe ser mayor a 0") in r.issues
    ensures b.image.Str? && !isUrl(b.image.s) ==>
      r.Failure? && Issue("image", "Debe ser una URL válida") in r.issues
  {
    var issues := ProductIssues(b, isUrl);
    if issues == [] then
      Success(Storage.InsertProduct(b.name.s, b.description.s, b.price.n, b.image.s, b.category.s))
    else Failure(issues)
  }

  function UserIssues(b: UserBody, isEmail: string -> bool): seq<Issue> {
    StringMin("username", b.username, 3, "Username must be at least 3 characters")
    + StringWith("email", b.email, isEmail, "Invalid email address")
    + StringMin("password", b.password, 6, "Password must be at least 6 characters")
  }

  /** The field rules of `insertUserSchema`, stated directly. */
  predicate UserRules(b: UserBody, isEmail: string -> bool) {
    && b.username.Str? && |b.username.s| >= 3
    && b.email.Str? && isEmail(b.email.s)
    && b.password.Str? && |b.password.s| >= 6
  }

  /**
   * `insertUserSchema.safeParse`: succeeds exactly when the username has at least 3
   * characters, the e-mail passes the e-mail check and the password has at least 6;
   * the result carries those three fields only, whatever else the body holds.
   */
  function ParseUser(b: UserBody, isEmail: string -> bool): (r: Parsed<InsertUser>)
    ensures r.Success? <==> UserRules(b, isEmail)
    ensures r.Success? ==> r.data == InsertUser(b.username.s, b.email.s, b.password.s)
    ensures b.password.Str? && |b.password.s| < 6 ==>
      r.Failure? && Issue("password", "Password must be at least 6 characters") in r.issues
  {
    var issues := UserIssues(b, isEmail);
    if issues == [] then Success(InsertUser(b.username.s, b.email.s, b.password.s))
    else Failure(issues)
  }

  /** The privileged columns of a registration body never influence the parse. */
  lemma ParseUserIgnoresPrivileged(b: UserBody, isAdmin: Value, emailVerified: Value, token: Value,
                                   isEmail: string -> bool)
    ensures ParseUser(b.(isAdmin := isAdmin, emailVerified := emailVerified, verificationToken := token), isEmail)
         == ParseUser(b, isEmail)
  {
  }
}
