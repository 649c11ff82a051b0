/**
 * `MemStorage`: the server's in-memory product table, a `Map` from id to
 * product plus a counter handing out ids 1, 2, 3, ... It is seeded with three
 * products when constructed. Prices are integer cents.
 */
module Storage {
  import opened Wrappers

  /** The validated product fields (`InsertProduct`). */
  datatype InsertProduct = InsertProduct(name: string, description: string, price: int, image: string, category: string)

  /** A stored product (`Product`): the inserted fields plus the id the table assigned. */
  datatype Product = Product(id: int, name: string, description: string, price: int, image: string, category: string)

  /** `{ ...insertProduct, id }` */
  function WithId(p: InsertProduct, id: int): Product {
    Product(id, p.name, p.description, p.price, p.image, p.category)
  }

  /** The three products every new table starts with. */
  function InitialProducts(): seq<InsertProduct> {
    [ InsertProduct("Cozy Knit Blanket", "Super soft knitted blanket perfect for chilly evenings", 4999,
                    "https://images.unsplash.com/photo-1524634126442-357e0eac3c14", "Bedding"),
      InsertProduct("Ceramic Vase Set", "Modern ceramic vases in pastel colors", 3499,
                    "https://images.unsplash.com/photo-1592136957897-b2b6ca21e10d", "Decor"),
      InsertProduct("Kitchen Utensil Set", "Complete set of essential kitchen tools", 2999,
                    "https://images.unsplash.com/photo-1597817109745-c418f4875230", "Kitchen") ]
  }

  class MemStorage {
    /** The `products` Map. */
    var products: map<int, Product>
    /** The Map's keys in insertion order, which is the order `values()` yields. */
    var order: seq<int>
    var currentId: int

    /**
     * The ids handed out so far are exactly 1 .. currentId - 1, inserted in that
     * order, and every product is stored under its own id.
     */
    ghost predicate Valid()
      reads this
    {
      && currentId >= 1
      && |order| == currentId - 1
      && (forall i :: 0 <= i < |order| ==> order[i] == i + 1)
      && (forall id :: id in products <==> 1 <= id < currentId)
      && (forall id :: id in products ==> products[id].id == id)
    }

    /** `getProducts`: every stored product, in creation order. */
    function GetProducts(): (r: seq<Product>)
      reads this
      requires Valid()
      ensures |r| == currentId - 1
      ensures forall i :: 0 <= i < |r| ==> r[i].id == i + 1 && r[i] == products[i + 1]
    {
      seq(|order|, i requires 0 <= i < |order| && Valid() reads this => products[order[i]])
    }

    /** `getProduct`: the product stored under `id`, or `undefined` for an id never handed out. */
    function GetProduct(id: int): (r: Option<Product>)
      reads this
      requires Valid()
      ensures r.Some? <==> 1 <= id < currentId
      ensures r.Some? ==> r.value.id == id && r.value == products[id]
    {
      if id in products then Some(products[id]) else None
    }

    /**
     * `createProduct`: stores the fields under the current counter value, which
     * was not yet a key, and advances the counter by one. Every other id keeps its
     * product, and the listing grows by exactly the new product at its end.
     */
    method CreateProduct(p: InsertProduct) returns (product: Product)
      requires Valid()
      modifies this
      ensures Valid()
      ensures product == WithId(p, old(currentId))
      ensures old(currentId) !in old(products)
      ensures currentId == old(currentId) + 1
      ensures products == old(products)[product.id := product]
      ensures GetProduct(product.id) == Some(product)
      ensures forall id :: id != product.id ==> GetProduct(id) == old(GetProduct(id))
      ensures GetProducts() == old(GetProducts()) + [product]
    {
      var id := currentId;
      currentId := currentId + 1;
      product := WithId(p, id);
      products := products[id := product];
      order := order + [id];
    }

    /** A table holding the three initial products under ids 1, 2 and 3, with the counter at 4. */
    constructor ()
      ensures Valid()
      ensures currentId == 4
      ensures GetProducts() == [WithId(InitialProducts()[0], 1), WithId(InitialProducts()[1], 2),
                                WithId(InitialProducts()[2], 3)]
    {
      products := map[];
      order := [];
      currentId := 1;
      new;
      var initial := InitialProducts();
      var i := 0;
      while i < |initial|
        invariant 0 <= i <= |initial|
        invariant Valid() && currentId == i + 1
        invariant forall j :: 0 <= j < i ==> products[j + 1] == WithId(initial[j], j + 1)
      {
        var created := CreateProduct(initial[i]);
        i := i + 1;
      }
    }
  }
}
