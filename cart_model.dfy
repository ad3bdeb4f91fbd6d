/**
 * The values the shopping cart of carrito.js works on, and what each cart
 * operation does to the list of line items, as functions on sequences. The
 * CartStore class (module Cart) performs these operations in place and is
 * proved to agree with them; the lemmas here state what the operations
 * guarantee: merging by id, unique ids, totals, what removal keeps.
 */
module CartModel {
  import opened Js

  /** One entry of the `cart` array, as it is also persisted. */
  datatype LineItem = LineItem(id: string, sku: Option<string>, name: string, price: int, quantity: int)

  /**
   * The product object the add-to-cart click builds from the button's data
   * attributes: an attribute may be missing, and a price that parseInt cannot
   * read is NaN (None).
   */
  datatype Product = Product(id: Option<string>, sku: Option<string>, name: Option<string>, price: Option<int>, quantity: int)

  /** The JavaScript truthiness of a string that may be missing. */
  predicate Truthy(s: Option<string>) { s.Some? && s.value != [] }

  /** The JavaScript truthiness of a number that may be NaN. */
  predicate TruthyNumber(n: Option<int>) { n.Some? && n.value != 0 }

  /** The guard of addToCart: a product with a falsy id, name or price is refused, any other becomes a line item as it is. */
  function Accepted(p: Product): (r: Option<LineItem>)
    ensures r.None? <==> !Truthy(p.id) || !Truthy(p.name) || !TruthyNumber(p.price)
    ensures r.Some? ==> r.value.id == p.id.value && r.value.name == p.name.value && r.value.sku == p.sku
    ensures r.Some? ==> r.value.price == p.price.value && r.value.quantity == p.quantity
  {
    if Truthy(p.id) && Truthy(p.name) && TruthyNumber(p.price) then
      Some(LineItem(p.id.value, p.sku, p.name.value, p.price.value, p.quantity))
    else None
  }

  /** `cart.find(item => item.id === id)`: the first index holding that id. */
  function FindIndex(items: seq<LineItem>, id: string): (r: Option<nat>)
    ensures r.Some? ==> r.value < |items| && items[r.value].id == id
    ensures r.Some? ==> forall k :: 0 <= k < r.value ==> items[k].id != id
    ensures r.None? <==> forall k :: 0 <= k < |items| ==> items[k].id != id
  {
    if items == [] then None
    else if items[0].id == id then Some(0)
    else match FindIndex(items[1..], id)
      case None => None
      case Some(k) => Some(k + 1)
  }

  predicate HasId(items: seq<LineItem>, id: string) {
    exists k :: 0 <= k < |items| && items[k].id == id
  }

  /** No two line items share an id. */
  predicate UniqueIds(items: seq<LineItem>) {
    forall j, k :: 0 <= j < k < |items| ==> items[j].id != items[k].id
  }

  /** addToCart on an accepted product: merge into the first line with its id, else append. */
  function Added(items: seq<LineItem>, item: LineItem): seq<LineItem> {
    match FindIndex(items, item.id)
    case Some(i) => items[i := items[i].(quantity := items[i].quantity + item.quantity)]
    case None => items + [item]
  }

  /** `cart.filter(i => i.id !== id)`. */
  function Removed(items: seq<LineItem>, id: string): (r: seq<LineItem>)
    ensures |r| <= |items|
    ensures forall k :: 0 <= k < |r| ==> r[k].id != id
  {
    if items == [] then []
    else if items[0].id == id then Removed(items[1..], id)
    else [items[0]] + Removed(items[1..], id)
  }

  /** The item count of updateCart: the sum of the quantities. */
  function TotalQuantity(items: seq<LineItem>): int {
    if items == [] then 0 else TotalQuantity(items[..|items| - 1]) + items[|items| - 1].quantity
  }

  function Subtotal(item: LineItem): int { item.price * item.quantity }

  /** The price total of updateCart and of checkout: the sum of price times quantity. */
  function TotalPrice(items: seq<LineItem>): int {
    if items == [] then 0 else TotalPrice(items[..|items| - 1]) + Subtotal(items[|items| - 1])
  }

  /** How many units of a product the cart holds, over every line with that id. */
  function QuantityOf(items: seq<LineItem>, id: string): int {
    if items == [] then 0
    else (if items[0].id == id then items[0].quantity else 0) + QuantityOf(items[1..], id)
  }

  // ----- sums over concatenations -----

  lemma {:induction false} TotalsAppend(a: seq<LineItem>, b: seq<LineItem>)
    ensures TotalQuantity(a + b) == TotalQuantity(a) + TotalQuantity(b)
    ensures TotalPrice(a + b) == TotalPrice(a) + TotalPrice(b)
  {
    if b != [] {
      var b' := b[..|b| - 1];
      assert (a + b)[..|a + b| - 1] == a + b';
      TotalsAppend(a, b');
    } else {
      assert a + b == a;
    }
  }

  lemma {:induction false} QuantityOfAppend(a: seq<LineItem>, b: seq<LineItem>, id: string)
    ensures QuantityOf(a + b, id) == QuantityOf(a, id) + QuantityOf(b, id)
  {
    if a != [] {
      assert (a + b)[1..] == a[1..] + b;
      QuantityOfAppend(a[1..], b, id);
    } else {
      assert a + b == b;
    }
  }

  /** Totals of a cart whose line `i` changes quantity: they move by the difference. */
  lemma TotalsUpdate(items: seq<LineItem>, i: nat, q: int)
    requires i < |items|
    ensures TotalQuantity(items[i := items[i].(quantity := q)]) == TotalQuantity(items) - items[i].quantity + q
    ensures TotalPrice(items[i := items[i].(quantity := q)]) == TotalPrice(items) + items[i].price * (q - items[i].quantity)
  {
    var item' := items[i].(quantity := q);
    var pre, post := items[..i], items[i + 1..];
    assert items == pre + [items[i]] + post;
    assert items[i := item'] == pre + [item'] + post;
    TotalsAppend(pre + [items[i]], post);
    TotalsAppend(pre, [items[i]]);
    TotalsAppend(pre + [item'], post);
    TotalsAppend(pre, [item']);
    assert TotalQuantity([item']) == q;
    assert TotalPrice([item']) == item'.price * q;
    assert TotalPrice([items[i]]) == items[i].price * items[i].quantity;
  }

  lemma QuantityOfUpdate(items: seq<LineItem>, i: nat, q: int, id: string)
    requires i < |items|
    ensures QuantityOf(items[i := items[i].(quantity := q)], id) ==
            QuantityOf(items, id) + (if items[i].id == id then q - items[i].quantity else 0)
  {
    var item' := items[i].(quantity := q);
    var pre, post := items[..i], items[i + 1..];
    assert items == pre + ([items[i]] + post);
    assert items[i := item'] == pre + ([item'] + post);
    QuantityOfAppend(pre, [items[i]] + post, id);
    QuantityOfAppend(pre, [item'] + post, id);
    assert ([items[i]] + post)[1..] == post;
    assert ([item'] + post)[1..] == post;
  }

  // ----- adding -----

  /** Adding an id already present raises that line's quantity by the added amount (with no upper bound) and adds no line. */
  lemma AddedMerges(items: seq<LineItem>, item: LineItem, i: nat)
    requires FindIndex(items, item.id) == Some(i)
    ensures |Added(items, item)| == |items|
    ensures Added(items, item)[i].quantity == items[i].quantity + item.quantity
    ensures Added(items, item)[i] == items[i].(quantity := items[i].quantity + item.quantity)
    ensures forall k :: 0 <= k < |items| && k != i ==> Added(items, item)[k] == items[k]
  {
  }

  /** Adding a new id appends it at the end and leaves every existing line as it was. */
  lemma AddedAppends(items: seq<LineItem>, item: LineItem)
    requires !HasId(items, item.id)
    ensures Added(items, item) == items + [item]
    ensures Added(items, item)[..|items|] == items
  {
    assert FindIndex(items, item.id) == None;
  }

  /** Adding keeps ids unique. */
  lemma AddedKeepsIdsUnique(items: seq<LineItem>, item: LineItem)
    requires UniqueIds(items)
    ensures UniqueIds(Added(items, item))
  {
  }

  /** Adding raises the item count by the added quantity, and the total by that quantity at the price of the line it lands on. */
  lemma AddedTotals(items: seq<LineItem>, item: LineItem)
    ensures TotalQuantity(Added(items, item)) == TotalQuantity(items) + item.quantity
    ensures TotalPrice(Added(items, item)) ==
            TotalPrice(items) + (match FindIndex(items, item.id)
                                 case Some(i) => items[i].price
                                 case None => item.price) * item.quantity
  {
    match FindIndex(items, item.id)
    case Some(i) =>
      TotalsUpdate(items, i, items[i].quantity + item.quantity);
    case None =>
      TotalsAppend(items, [item]);
      assert TotalQuantity([item]) == item.quantity;
      assert TotalPrice([item]) == item.price * item.quantity;
  }

  /** Adding raises the held quantity of the added id by the added amount and of no other id. */
  lemma AddedQuantityOf(items: seq<LineItem>, item: LineItem, id: string)
    ensures QuantityOf(Added(items, item), id) == QuantityOf(items, id) + (if item.id == id then item.quantity else 0)
  {
    match FindIndex(items, item.id)
    case Some(i) =>
      QuantityOfUpdate(items, i, items[i].quantity + item.quantity, id);
    case None =>
      QuantityOfAppend(items, [item], id);
      assert [item][1..] == [];
  }

  /** A run of accepted adds, in order. */
  function AddAll(items: seq<LineItem>, adds: seq<LineItem>): seq<LineItem>
    decreases |adds|
  {
    if adds == [] then items else AddAll(Added(items, adds[0]), adds[1..])
  }

  /** The units of `id` over a run of adds. */
  function AddedUnits(adds: seq<LineItem>, id: string): int {
    if adds == [] then 0 else (if adds[0].id == id then adds[0].quantity else 0) + AddedUnits(adds[1..], id)
  }

  /**
   * Any run of adds on an empty cart leaves at most one line per id, and the
   * quantity held for each id is the sum of the quantities added for it.
   */
  lemma {:induction false} AddAllFromEmpty(adds: seq<LineItem>, id: string)
    ensures UniqueIds(AddAll([], adds))
    ensures QuantityOf(AddAll([], adds), id) == AddedUnits(adds, id)
  {
    AddAllInvariant([], adds, id);
  }

  lemma {:induction false} AddAllInvariant(items: seq<LineItem>, adds: seq<LineItem>, id: string)
    requires UniqueIds(items)
    ensures UniqueIds(AddAll(items, adds))
    ensures QuantityOf(AddAll(items, adds), id) == QuantityOf(items, id) + AddedUnits(adds, id)
    decreases |adds|
  {
    if adds != [] {
      AddedKeepsIdsUnique(items, adds[0]);
      AddedQuantityOf(items, adds[0], id);
      AddAllInvariant(Added(items, adds[0]), adds[1..], id);
    }
  }

  /** Adding P1 twice, two units and then three at 1000 each, gives one line of five units worth 5000. */
  lemma AddTwiceScenario()
    ensures var p1 := LineItem("P1", None, "Widget", 1000, 2);
            var cart := AddAll([], [p1, p1.(quantity := 3)]);
            cart == [p1.(quantity := 5)] && TotalQuantity(cart) == 5 && TotalPrice(cart) == 5000
  {
    var p1 := LineItem("P1", None, "Widget", 1000, 2);
    assert Added([], p1) == [p1];
    assert FindIndex([p1], "P1") == Some(0);
    assert AddAll([], [p1, p1.(quantity := 3)]) == AddAll([p1], [p1.(quantity := 3)]);
    assert [p1, p1.(quantity := 3)][1..][1..] == [];
  }

  // ----- removing -----

  /** Removal keeps every line whose id differs, in its order: it distributes over concatenation. */
  lemma {:induction false} RemovedAppend(a: seq<LineItem>, b: seq<LineItem>, id: string)
    ensures Removed(a + b, id) == Removed(a, id) + Removed(b, id)
  {
    if a != [] {
      assert (a + b)[0] == a[0] && (a + b)[1..] == a[1..] + b;
      RemovedAppend(a[1..], b, id);
    } else {
      assert a + b == b;
    }
  }

  /** Removal of an absent id changes nothing. */
  lemma {:induction false} RemovedAbsent(items: seq<LineItem>, id: string)
    requires !HasId(items, id)
    ensures Removed(items, id) == items
  {
    if items != [] {
      RemovedAbsent(items[1..], id);
    }
  }

  /** Removal takes out exactly the units held for the id: other ids keep theirs. */
  lemma {:induction false} RemovedQuantityOf(items: seq<LineItem>, id: string, other: string)
    ensures QuantityOf(Removed(items, id), other) == if other == id then 0 else QuantityOf(items, other)
  {
    if items != [] {
      RemovedQuantityOf(items[1..], id, other);
      if items[0].id != id {
        assert ([items[0]] + Removed(items[1..], id))[1..] == Removed(items[1..], id);
      }
    }
  }

  /** Removal lowers the item count by the units held for the removed id. */
  lemma {:induction false} RemovedTotalQuantity(items: seq<LineItem>, id: string)
    ensures TotalQuantity(Removed(items, id)) == TotalQuantity(items) - QuantityOf(items, id)
  {
    if items != [] {
      RemovedTotalQuantity(items[1..], id);
      assert items == [items[0]] + items[1..];
      TotalsAppend([items[0]], items[1..]);
      assert TotalQuantity([items[0]]) == items[0].quantity;
      if items[0].id != id {
        TotalsAppend([items[0]], Removed(items[1..], id));
      }
    }
  }

  /** With unique ids the units held for an id are those of its one line. */
  lemma {:induction false} QuantityOfUnique(items: seq<LineItem>, i: nat)
    requires UniqueIds(items) && i < |items|
    ensures QuantityOf(items, items[i].id) == items[i].quantity
  {
    if i == 0 {
      QuantityOfAbsent(items[1..], items[0].id);
    } else {
      QuantityOfUnique(items[1..], i - 1);
    }
  }

  lemma {:induction false} QuantityOfAbsent(items: seq<LineItem>, id: string)
    requires forall k :: 0 <= k < |items| ==> items[k].id != id
    ensures QuantityOf(items, id) == 0
  {
    if items != [] {
      QuantityOfAbsent(items[1..], id);
    }
  }

  // ----- checkout -----

  /** One entry of the checkout message: name, quantity, unit price and subtotal. */
  datatype OrderLine = OrderLine(name: string, quantity: int, unitPrice: int, subtotal: int)

  function OrderLineOf(item: LineItem): (l: OrderLine)
    ensures l.subtotal == l.unitPrice * l.quantity
  {
    OrderLine(item.name, item.quantity, item.price, Subtotal(item))
  }

  /** The order lines of a cart, in cart order. */
  function OrderLines(items: seq<LineItem>): (r: seq<OrderLine>)
    ensures |r| == |items|
    ensures forall k :: 0 <= k < |items| ==> r[k] == OrderLineOf(items[k])
  {
    if items == [] then [] else OrderLines(items[..|items| - 1]) + [OrderLineOf(items[|items| - 1])]
  }

  function SumSubtotals(lines: seq<OrderLine>): int {
    if lines == [] then 0 else SumSubtotals(lines[..|lines| - 1]) + lines[|lines| - 1].subtotal
  }

  /** The checkout TOTAL is the sum of the subtotals it lists, and equals the cart's price total. */
  lemma {:induction false} CheckoutTotal(items: seq<LineItem>)
    ensures SumSubtotals(OrderLines(items)) == TotalPrice(items)
  {
    if items != [] {
      var lines := OrderLines(items);
      assert lines[..|lines| - 1] == OrderLines(items[..|items| - 1]);
      CheckoutTotal(items[..|items| - 1]);
    }
  }
}
