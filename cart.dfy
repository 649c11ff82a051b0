/**
 * The client-side cart store (`useCart`): a list of cart lines keyed by
 * product id and a `total` field, both rewritten by each of the four actions.
 * Prices are integer cents.
 */
module Cart {
  import opened Wrappers

  /** What `addItem` receives: a cart line without its quantity. */
  datatype ProductInfo = ProductInfo(id: int, name: string, price: int, image: string)

  datatype CartItem = CartItem(id: int, name: string, price: int, image: string, quantity: int)

  /** `{ ...item, quantity: 1 }` */
  function NewLine(p: ProductInfo): CartItem {
    CartItem(p.id, p.name, p.price, p.image, 1)
  }

  /**
   * `calculateTotal`: a left fold adding price × quantity of every line; an
   * empty cart costs nothing, and lines with no negative price or quantity
   * never add up to a negative total.
   */
  function Total(items: seq<CartItem>): (r: int)
    ensures items == [] ==> r == 0
    ensures (forall i :: 0 <= i < |items| ==> items[i].price >= 0 && items[i].quantity >= 0) ==> r >= 0
  {
    if items == [] then 0
    else Total(items[..|items| - 1]) + items[|items| - 1].price * items[|items| - 1].quantity
  }

  predicate IdsUnique(items: seq<CartItem>) {
    forall i, j :: 0 <= i < j < |items| ==> items[i].id != items[j].id
  }

  predicate QuantitiesPositive(items: seq<CartItem>) {
    forall i :: 0 <= i < |items| ==> items[i].quantity >= 1
  }

  /** The store's invariant on its lines: one line per product id, every quantity at least 1. */
  predicate WellFormed(items: seq<CartItem>) {
    IdsUnique(items) && QuantitiesPositive(items)
  }

  /** `items.find((i) => i.id === id)`, as the index of the first line with that id. */
  function Find(items: seq<CartItem>, id: int): (r: Option<nat>)
    ensures r.None? <==> forall i :: 0 <= i < |items| ==> items[i].id != id
    ensures r.Some? ==> r.value < |items| && items[r.value].id == id
    ensures r.Some? ==> forall i :: 0 <= i < r.value ==> items[i].id != id
  {
    if items == [] then None
    else if items[0].id == id then Some(0)
    else match Find(items[1..], id)
      case None => None
      case Some(k) => Some(k + 1)
  }

  /** `items.map((i) => i.id === id ? { ...i, quantity: i.quantity + delta } : i)` */
  function MapQuantity(items: seq<CartItem>, id: int, delta: int): (r: seq<CartItem>)
    ensures |r| == |items|
    ensures forall i :: 0 <= i < |items| ==>
      r[i] == if items[i].id == id then items[i].(quantity := items[i].quantity + delta) else items[i]
  {
    seq(|items|, i requires 0 <= i < |items| =>
      if items[i].id == id then items[i].(quantity := items[i].quantity + delta) else items[i])
  }

  /** `items.filter((i) => i.id !== id)`: no line with the id remains. */
  function Without(items: seq<CartItem>, id: int): (r: seq<CartItem>)
    ensures |r| <= |items|
    ensures forall i :: 0 <= i < |r| ==> r[i].id != id
  {
    if items == [] then []
    else (if items[0].id == id then [] else [items[0]]) + Without(items[1..], id)
  }

  /** The filter keeps every line without the id as many times as it occurred, and adds none. */
  lemma {:induction false} WithoutKeepsOthers(items: seq<CartItem>, id: int)
    ensures forall x :: multiset(Without(items, id))[x] == if x.id == id then 0 else multiset(items)[x]
  {
    if items != [] {
      assert items == [items[0]] + items[1..];
      WithoutKeepsOthers(items[1..], id);
    }
  }

  /** The four actions of the store. */
  datatype Action = AddItem(item: ProductInfo) | RemoveItem(id: int) | DecrementItem(id: int) | ClearCart

  /**
   * The lines an action leaves behind: after `addItem` the product has a line,
   * after `removeItem` the id has none, decrementing a line of quantity 1 removes
   * it, and `clearCart` leaves nothing.
   */
  function Step(items: seq<CartItem>, a: Action): (r: seq<CartItem>)
    ensures a.AddItem? ==> Find(r, a.item.id).Some?
    ensures a.RemoveItem? ==> Find(r, a.id).None?
    ensures a.DecrementItem? && Find(items, a.id).Some? && items[Find(items, a.id).value].quantity == 1 ==>
      Find(r, a.id).None?
    ensures a.ClearCart? ==> r == []
  {
    match a
    case AddItem(p) =>
      if Find(items, p.id).Some? then MapQuantity(items, p.id, 1)
      else
        var r := items + [NewLine(p)];
        assert r[|items|].id == p.id;
        r
    case RemoveItem(id) => Without(items, id)
    case DecrementItem(id) =>
      (match Find(items, id)
       case Some(k) =>
         if items[k].quantity > 1 then MapQuantity(items, id, -1)
         else if items[k].quantity == 1 then Without(items, id)
         else items
       case None => items)
    case ClearCart => []
  }

  /** The lines after a sequence of actions, applied left to right. */
  function Run(items: seq<CartItem>, actions: seq<Action>): seq<CartItem>
    decreases |actions|
  {
    if actions == [] then items else Run(Step(items, actions[0]), actions[1..])
  }

  // ---------------------------------------------------------------- lemmas

  lemma {:induction false} TotalAppend(a: seq<CartItem>, b: seq<CartItem>)
    ensures Total(a + b) == Total(a) + Total(b)
  {
    if b != [] {
      var b' := b[..|b| - 1];
      assert (a + b)[..|a + b| - 1] == a + b';
      TotalAppend(a, b');
    } else {
      assert a + b == a;
    }
  }

  lemma {:induction false} MapQuantityAbsent(items: seq<CartItem>, id: int, delta: int)
    requires forall i :: 0 <= i < |items| ==> items[i].id != id
    ensures MapQuantity(items, id, delta) == items
  {
  }

  /** Changing the quantity of the one line with `id` by `delta` changes the total by `delta` × its price. */
  lemma {:induction false} TotalMapQuantity(items: seq<CartItem>, id: int, delta: int, k: nat)
    requires IdsUnique(items) && k < |items| && items[k].id == id
    ensures Total(MapQuantity(items, id, delta)) == Total(items) + delta * items[k].price
  {
    var n := |items|;
    var r := MapQuantity(items, id, delta);
    var front := items[..n - 1];
    assert r[..n - 1] == MapQuantity(front, id, delta);
    var last := items[n - 1];
    if k == n - 1 {
      MapQuantityAbsent(front, id, delta);
      assert r[n - 1].price * r[n - 1].quantity == last.price * last.quantity + delta * last.price by {
        assert r[n - 1].quantity == last.quantity + delta;
        assert last.price * (last.quantity + delta) == last.price * last.quantity + last.price * delta;
      }
    } else {
      TotalMapQuantity(front, id, delta, k);
    }
  }

  lemma {:induction false} WithoutAbsent(items: seq<CartItem>, id: int)
    requires forall i :: 0 <= i < |items| ==> items[i].id != id
    ensures Without(items, id) == items
  {
    if items != [] {
      WithoutAbsent(items[1..], id);
      assert [items[0]] + items[1..] == items;
    }
  }

  /** With unique ids, filtering out `id` drops exactly the line at its index. */
  lemma {:induction false} WithoutAt(items: seq<CartItem>, id: int, k: nat)
    requires IdsUnique(items) && k < |items| && items[k].id == id
    ensures Without(items, id) == items[..k] + items[k + 1..]
  {
    if k == 0 {
      WithoutAbsent(items[1..], id);
    } else {
      WithoutAt(items[1..], id, k - 1);
      assert items[..k] == [items[0]] + items[1..][..k - 1];
      assert items[k + 1..] == items[1..][k..];
    }
  }

  lemma {:induction false} TotalSplitAt(items: seq<CartItem>, k: nat)
    requires k < |items|
    ensures Total(items) == Total(items[..k] + items[k + 1..]) + items[k].price * items[k].quantity
  {
    var front, line, back := items[..k], items[k], items[k + 1..];
    var amount := line.price * line.quantity;
    assert items == front + [line] + back;
    assert Total([line]) == amount by {
      assert [line][..0] == [];
    }
    TotalAppend(front + [line], back);
    TotalAppend(front, [line]);
    TotalAppend(front, back);
  }

  lemma WellFormedDropAt(items: seq<CartItem>, k: nat)
    requires WellFormed(items) && k < |items|
    ensures WellFormed(items[..k] + items[k + 1..])
  {
    var r := items[..k] + items[k + 1..];
    forall i | 0 <= i < |r| ensures r[i] == items[if i < k then i else i + 1] {}
  }

  /**
   * `addItem`: a new id appends one line with quantity 1 at the end and leaves the
   * others alone; a known id adds 1 to that line's quantity, keeping its stored
   * name, price and position, and adds no line. The total grows by the price of
   * the line that grew, and the lines stay well formed.
   */
  lemma {:induction false} AddItemSpec(items: seq<CartItem>, p: ProductInfo)
    requires WellFormed(items)
    ensures var r := Step(items, AddItem(p));
      && WellFormed(r)
      && (Find(items, p.id).None? ==>
            r == items + [NewLine(p)] && Total(r) == Total(items) + p.price)
      && (Find(items, p.id).Some? ==>
            var k := Find(items, p.id).value;
            && |r| == |items|
            && r[k] == items[k].(quantity := items[k].quantity + 1)
            && (forall j :: 0 <= j < |items| && j != k ==> r[j] == items[j])
            && Total(r) == Total(items) + items[k].price)
  {
    var r := Step(items, AddItem(p));
    match Find(items, p.id)
    case None =>
      TotalAppend(items, [NewLine(p)]);
      assert [NewLine(p)][..0] == [];
    case Some(k) =>
      TotalMapQuantity(items, p.id, 1, k);
  }

  /**
   * `removeItem`: the line with that id goes whatever its quantity, the other
   * lines keep their order, an absent id changes nothing, and the total drops
   * by what the line contributed.
   */
  lemma {:induction false} RemoveItemSpec(items: seq<CartItem>, id: int)
    requires WellFormed(items)
    ensures var r := Step(items, RemoveItem(id));
      && WellFormed(r)
      && (forall i :: 0 <= i < |r| ==> r[i].id != id)
      && (Find(items, id).None? ==> r == items)
      && (Find(items, id).Some? ==>
            var k := Find(items, id).value;
            r == items[..k] + items[k + 1..]
            && Total(r) == Total(items) - items[k].price * items[k].quantity)
  {
    assert Step(items, RemoveItem(id)) == Without(items, id);
    match Find(items, id)
    case None =>
      WithoutAbsent(items, id);
    case Some(k) =>
      WithoutAt(items, id, k);
      TotalSplitAt(items, k);
      WellFormedDropAt(items, k);
  }

  /**
   * `decrementItem`: a quantity above 1 loses 1, a quantity of exactly 1 removes
   * the line, an absent id changes nothing; the total drops by one unit price
   * whenever the id is present.
   */
  lemma {:induction false} DecrementItemSpec(items: seq<CartItem>, id: int)
    requires WellFormed(items)
    ensures var r := Step(items, DecrementItem(id));
      && WellFormed(r)
      && (Find(items, id).None? ==> r == items)
      && (Find(items, id).Some? ==>
            var k := Find(items, id).value;
            && (items[k].quantity > 1 ==>
                  |r| == |items|
                  && r[k] == items[k].(quantity := items[k].quantity - 1)
                  && (forall j :: 0 <= j < |items| && j != k ==> r[j] == items[j]))
            && (items[k].quantity == 1 ==> r == items[..k] + items[k + 1..])
            && Total(r) == Total(items) - items[k].price)
  {
    match Find(items, id)
    case None =>
    case Some(k) =>
      if items[k].quantity > 1 {
        DecrementAbove1(items, id, k);
      } else {
        DecrementAt1(items, id, k);
      }
  }

  lemma {:induction false} DecrementAbove1(items: seq<CartItem>, id: int, k: nat)
    requires WellFormed(items) && k < |items| && items[k].id == id && items[k].quantity > 1
    ensures var r := MapQuantity(items, id, -1);
      WellFormed(r) && Total(r) == Total(items) - items[k].price
  {
    TotalMapQuantity(items, id, -1, k);
    assert -1 * items[k].price == -items[k].price;
    var r := MapQuantity(items, id, -1);
    forall i | 0 <= i < |r|
      ensures r[i].id == items[i].id && r[i].quantity >= 1
    {
      if items[i].id == id {
        assert i == k;
      }
    }
  }

  lemma {:induction false} DecrementAt1(items: seq<CartItem>, id: int, k: nat)
    requires WellFormed(items) && k < |items| && items[k].id == id && items[k].quantity == 1
    ensures var r := Without(items, id);
      r == items[..k] + items[k + 1..] && WellFormed(r) && Total(r) == Total(items) - items[k].price
  {
    var line := items[k];
    assert line.price * line.quantity == line.price;
    WithoutAt(items, id, k);
    TotalSplitAt(items, k);
    WellFormedDropAt(items, k);
  }

  /** Whatever sequence of actions runs, one line per id and quantities at least 1 survive. */
  lemma {:induction false} RunPreservesWellFormed(items: seq<CartItem>, actions: seq<Action>)
    requires WellFormed(items)
    ensures WellFormed(Run(items, actions))
    decreases |actions|
  {
    if actions != [] {
      match actions[0] {
        case AddItem(p) => AddItemSpec(items, p);
        case RemoveItem(id) => RemoveItemSpec(items, id);
        case DecrementItem(id) => DecrementItemSpec(items, id);
        case ClearCart =>
      }
      RunPreservesWellFormed(Step(items, actions[0]), actions[1..]);
    }
  }

  /**
   * The zustand store: `items` and `total`, both overwritten by every action.
   * The persistence middleware (local storage) is not part of this model.
   */
  class CartStore {
    var items: seq<CartItem>
    var total: int

    /** The store's invariant: well-formed lines and `total` equal to Σ price × quantity. */
    ghost predicate Valid()
      reads this
    {
      WellFormed(items) && total == Total(items)
    }

    /** The initial state `{ items: [], total: 0 }`, the same state `clearCart` produces. */
    constructor ()
      ensures Valid()
      ensures items == [] && total == 0
    {
      items := [];
      total := 0;
    }

    method AddItem(item: ProductInfo)
      requires Valid()
      modifies this
      ensures Valid()
      ensures items == Step(old(items), Action.AddItem(item))
      ensures total == old(total) + (match Find(old(items), item.id)
                                     case Some(k) => old(items)[k].price
                                     case None => item.price)
    {
      AddItemSpec(items, item);
      var existing := Find(items, item.id);
      if existing.Some? {
        var updated := MapQuantity(items, item.id, 1);
        items, total := updated, Total(updated);
      } else {
        var updated := items + [NewLine(item)];
        items, total := updated, Total(updated);
      }
    }

    method RemoveItem(id: int)
      requires Valid()
      modifies this
      ensures Valid()
      ensures items == Step(old(items), Action.RemoveItem(id))
      ensures total == old(total) - (match Find(old(items), id)
                                     case Some(k) => old(items)[k].price * old(items)[k].quantity
                                     case None => 0)
    {
      RemoveItemSpec(items, id);
      var updated := Without(items, id);
      items, total := updated, Total(updated);
    }

    method DecrementItem(id: int)
      requires Valid()
      modifies this
      ensures Valid()
      ensures items == Step(old(items), Action.DecrementItem(id))
      ensures total == old(total) - (match Find(old(items), id)
                                     case Some(k) => old(items)[k].price
                                     case None => 0)
    {
      DecrementItemSpec(items, id);
      var found := Find(items, id);
      if found.Some? && items[found.value].quantity > 1 {
        var updated := MapQuantity(items, id, -1);
        items, total := updated, Total(updated);
      } else if found.Some? && items[found.value].quantity == 1 {
        var updated := Without(items, id);
        items, total := updated, Total(updated);
      }
    }

    method ClearCart()
      modifies this
      ensures Valid()
      ensures items == [] && total == 0
    {
      items, total := [], 0;
    }
  }
}
