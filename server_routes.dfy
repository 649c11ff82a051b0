/**
 * The product routes of the Express server and its health check. GET and POST
 * work on the in-memory table; `updateProduct` and `deleteProduct` are not
 * defined by that table and are parameters here, each returning or throwing.
 */
module ServerRoutes {
  import opened Wrappers
  import opened Http
  import Storage
  import Schema
  import ServerAuth

  /** GET /api/health. */
  function Health(): (r: Response)
    ensures r.status == 200 && r.body.StatusJson? && r.body.status == "ok"
  {
    Response(200, StatusJson("ok"))
  }

  /** GET /api/products: every stored product, in creation order. */
  function ListProducts(store: Storage.MemStorage): (r: Response)
    reads store
    requires store.Valid()
    ensures r.status == 200 && r.body.ProductListJson?
    ensures |r.body.products| == store.currentId - 1
    ensures forall i :: 0 <= i < |r.body.products| ==> r.body.products[i] == store.products[i + 1]
  {
    Response(200, ProductListJson(store.GetProducts()))
  }

  const NotAdmin: string := "Solo los administradores pueden agregar productos"
  const InvalidProduct: string := "Datos de producto inválidos"

  /** The checks of POST /api/products before anything is stored. */
  datatype Admission = Admitted(data: Storage.InsertProduct) | Rejected(response: Response)

  /**
   * The admin check comes first, so a non-admin is refused with 403 whatever the
   * body; an admin's body must then satisfy the product schema.
   */
  function AdmitProduct(session: ServerAuth.Session, body: Schema.ProductBody, isUrl: string -> bool): (r: Admission)
    ensures !ServerAuth.IsAdmin(session) ==> r == Rejected(Error(403, NotAdmin))
    ensures ServerAuth.IsAdmin(session) && !Schema.ProductRules(body, isUrl) ==> r == Rejected(Error(400, InvalidProduct))
    ensures r.Admitted? <==> ServerAuth.IsAdmin(session) && Schema.ProductRules(body, isUrl)
    ensures r.Admitted? ==>
      r.data == Storage.InsertProduct(body.name.s, body.description.s, body.price.n, body.image.s, body.category.s)
  {
    if !ServerAuth.IsAdmin(session) then Rejected(Error(403, NotAdmin))
    else
      match Schema.ParseProduct(body, isUrl)
      case Failure(_) => Rejected(Error(400, InvalidProduct))
      case Success(data) => Admitted(data)
  }

  /**
   * POST /api/products: a refused request leaves the table as it was; an
   * admitted one stores the parsed fields under the next id and answers 201
   * with the stored product.
   */
  method CreateProduct(store: Storage.MemStorage, session: ServerAuth.Session, body: Schema.ProductBody,
                       isUrl: string -> bool) returns (r: Response)
    requires store.Valid()
    modifies store
    ensures store.Valid()
    ensures AdmitProduct(session, body, isUrl).Rejected? ==>
      r == AdmitProduct(session, body, isUrl).response
      && store.products == old(store.products) && store.currentId == old(store.currentId)
      && store.GetProducts() == old(store.GetProducts())
    ensures AdmitProduct(session, body, isUrl).Admitted? ==>
      var product := Storage.WithId(AdmitProduct(session, body, isUrl).data, old(store.currentId));
      && r == Response(201, ProductJson(product))
      && store.currentId == old(store.currentId) + 1
      && store.GetProducts() == old(store.GetProducts()) + [product]
  {
    match AdmitProduct(session, body, isUrl)
    case Rejected(response) =>
      r := response;
    case Admitted(data) =>
      var product := store.CreateProduct(data);
      r := Response(201, ProductJson(product));
  }

  /**
   * PUT /api/products/:id: an invalid body is 400 before storage is asked; an id
   * storage does not know is 404. There is no admin check: no outcome is 403.
   */
  function UpdateProduct(id: int, body: Schema.ProductBody, isUrl: string -> bool,
                         update: (int, Storage.InsertProduct) -> Call<Option<Storage.Product>>): (r: Response)
    ensures !Schema.ProductRules(body, isUrl) ==> r == Error(400, InvalidProduct)
    ensures r.status == 200 <==>
      && Schema.ProductRules(body, isUrl)
      && var data := Storage.InsertProduct(body.name.s, body.description.s, body.price.n, body.image.s, body.category.s);
         update(id, data).Returns? && update(id, data).result.Some?
    ensures r.status == 200 ==>
      r.body == ProductJson(update(id, Storage.InsertProduct(body.name.s, body.description.s, body.price.n,
                                                            body.image.s, body.category.s)).result.value)
    ensures Schema.ProductRules(body, isUrl)
            && update(id, Storage.InsertProduct(body.name.s, body.description.s, body.price.n, body.image.s, body.category.s))
               == Returns(None) ==>
      r == Error(404, "Producto no encontrado")
    ensures Schema.ProductRules(body, isUrl)
            && update(id, Storage.InsertProduct(body.name.s, body.description.s, body.price.n, body.image.s, body.category.s))
               .Throws? ==>
      r == Error(500, "Failed to update product")
    ensures r.status in {200, 400, 404, 500}
  {
    match Schema.ParseProduct(body, isUrl)
    case Failure(_) => Error(400, InvalidProduct)
    case Success(data) =>
      match update(id, data)
      case Throws => Error(500, "Failed to update product")
      case Returns(None) => Error(404, "Producto no encontrado")
      case Returns(Some(product)) => Response(200, ProductJson(product))
  }

  /**
   * DELETE /api/products/:id: 204 with no body when storage deleted the row, 404
   * when it did not. There is no admin check: no outcome is 403.
   */
  function DeleteProduct(id: int, delete: int -> Call<bool>): (r: Response)
    ensures r == Response(204, NoBody) <==> delete(id) == Returns(true)
    ensures delete(id) == Returns(false) ==> r == Error(404, "Producto no encontrado")
    ensures delete(id) == Throws ==> r == Error(500, "Failed to delete product")
  {
    match delete(id)
    case Throws => Error(500, "Failed to delete product")
    case Returns(false) => Error(404, "Producto no encontrado")
    case Returns(true) => Response(204, NoBody)
  }

  /**
   * As written, no session this server hands out can create a product: login
   * never sets the admin flag, so every POST /api/products after any series of
   * logins and logouts is refused with 403, even for an administrator account.
   */
  lemma {:induction false} NoSessionCanCreateProducts(requests: seq<ServerAuth.SessionRequest>, env: ServerAuth.Backend,
                                                     body: Schema.ProductBody, isUrl: string -> bool)
    ensures AdmitProduct(ServerAuth.Replay(ServerAuth.FreshSession, requests, env), body, isUrl)
         == Rejected(Error(403, NotAdmin))
  {
    ServerAuth.ReplayNeverGrantsAdmin(ServerAuth.FreshSession, requests, env);
  }

  /**
   * With the admin flag recorded at login, a verified administrator who logs in
   * can create any product the schema accepts, while any other user is still refused.
   */
  lemma CorrectedLoginAdmitsAdministrators(username: string, password: string, env: ServerAuth.Backend,
                                           body: Schema.ProductBody, isUrl: string -> bool)
    requires ServerAuth.Authenticate(username, password, env).Authenticated?
    ensures var session := ServerAuth.LoginRecordingAdmin(username, password, ServerAuth.FreshSession, env).session;
      var user := ServerAuth.Authenticate(username, password, env).user;
      && (user.isAdmin == Some(true) && Schema.ProductRules(body, isUrl) ==> AdmitProduct(session, body, isUrl).Admitted?)
      && (user.isAdmin != Some(true) ==> AdmitProduct(session, body, isUrl) == Rejected(Error(403, NotAdmin)))
  {
  }
}
