/**
 * The cart state manager of carrito.js: the global `cart` array, its copy in
 * localStorage, what updateCart last rendered, and the click and input
 * handlers. The browser's confirm() dialog is an injected sequence of answers;
 * notifications are returned to the caller as the list of notices shown.
 */
module Cart {
  import opened Js
  import opened CartModel

  /** The transient notifications showNotification displays. */
  datatype Notice =
    | IncompleteProduct             // "Datos del producto incompletos"
    | AddedNew(name: string)         // "<name> agregado al carrito"
    | AddedMore(quantity: int, name: string)
    | ItemRemoved
    | SaveFailed                     // localStorage.setItem threw
    | QuantityOutOfRange             // "La cantidad debe estar entre 1 y 10"
    | CartEmpty
    | Redirecting

  /** The data attributes of an add-to-cart button; `price` is the raw data-price text. */
  datatype AddButton = AddButton(id: Option<string>, sku: Option<string>, name: Option<string>, price: Option<string>)

  /** A button of the rendered cart listing, with its data-id; the data-change of a quantity button is rendered as 1 or -1. */
  datatype ListButton =
    | ModifyButton(id: Option<string>, change: int)
    | DeleteButton(id: Option<string>)
    | OtherButton(id: Option<string>)

  /** What checkout hands to the messaging link: recipient, order lines in cart order, and the TOTAL. */
  datatype Handoff = Handoff(phone: string, lines: seq<OrderLine>, total: int)

  const CheckoutPhone := "56974161396"
  const MinQuantity := 1
  const MaxQuantity := 10

  /**
   * The quantity the add-to-cart click uses: `parseInt(value) || 1` (NaN and 0
   * become 1), refused (None) when outside [1, 10].
   */
  function EntryQuantity(parsed: Option<int>): (r: Option<int>)
    ensures r.Some? ==> MinQuantity <= r.value <= MaxQuantity
    ensures !TruthyNumber(parsed) ==> r == Some(1)
    ensures TruthyNumber(parsed) ==> (r.Some? <==> MinQuantity <= parsed.value <= MaxQuantity)
    ensures TruthyNumber(parsed) && r.Some? ==> r.value == parsed.value
  {
    var q := if TruthyNumber(parsed) then parsed.value else 1;
    if q < MinQuantity || q > MaxQuantity then None else Some(q)
  }

  /**
   * The input handler of a quantity field: a value parseInt reads as below 1
   * becomes "1", above 10 becomes "10"; anything else, unreadable text
   * included, is left as typed.
   */
  function ClampedInput(raw: string): (r: string)
    ensures ParseInt(r).Some? ==> MinQuantity <= ParseInt(r).value <= MaxQuantity
    ensures ParseInt(raw).None? ==> r == raw
    ensures ParseInt(raw).Some? && MinQuantity <= ParseInt(raw).value <= MaxQuantity ==> r == raw
    ensures ParseInt(raw).Some? && ParseInt(raw).value < MinQuantity ==> r == "1"
    ensures ParseInt(raw).Some? && ParseInt(raw).value > MaxQuantity ==> r == "10"
  {
    ParseDecimalString(1);
    ParseDecimalString(10);
    assert DecimalString(1) == "1" && DecimalString(10) == "10";
    var v := ParseInt(raw);
    if v.Some? && v.value < MinQuantity then "1"
    else if v.Some? && v.value > MaxQuantity then "10"
    else raw
  }

  /** Clamping twice is clamping once. */
  lemma ClampedInputIdempotent(raw: string)
    ensures ClampedInput(ClampedInput(raw)) == ClampedInput(raw)
  {
  }

  /** confirm() answered from a scripted sequence; an exhausted script answers false, as a dismissed dialog does. */
  function Answer(answers: seq<bool>, k: nat): bool {
    k < |answers| && answers[k]
  }

  function Consumed(answers: seq<bool>, k: nat): seq<bool> {
    if k <= |answers| then answers[k..] else []
  }

  /** What one modifyQuantity call amounts to: the lines it leaves, how many prompts it asked, how many saves it made. */
  datatype Outcome = Outcome(items: seq<LineItem>, asked: nat, saves: nat)

  /**
   * modifyQuantity as a function of the cart and the scripted answers. The
   * removal path asks twice: once in modifyQuantity, once in removeFromCart;
   * when both say yes the cart is saved by both.
   */
  function ModifyOutcome(items: seq<LineItem>, answers: seq<bool>, id: string, change: int): Outcome {
    match FindIndex(items, id)
    case None => Outcome(items, 0, 0)
    case Some(i) =>
      var q := items[i].quantity + change;
      if q > 0 then Outcome(items[i := items[i].(quantity := q)], 0, 1)
      else if !Answer(answers, 0) then Outcome(items[i := items[i].(quantity := 1)], 1, 1)
      else if Answer(answers, 1) then Outcome(Removed(items, id), 2, 2)
      else Outcome(items[i := items[i].(quantity := q)], 2, 1)
  }

  class CartStore {
    /** The global `cart` array. */
    var items: seq<LineItem>
    /** localStorage['ventasbronca_cart'], already decoded; None when the key is absent. */
    var stored: Option<seq<LineItem>>
    /** Whether localStorage.setItem throws (quota exceeded or storage disabled). */
    var quotaExceeded: bool
    /** How many times saveCart ran. */
    var saves: nat
    /** The user's upcoming answers to confirm(). */
    var answers: seq<bool>

    // What updateCart last rendered.
    var listing: seq<LineItem>
    var badge: int
    var summaryItems: int
    var summaryPrice: int
    var emptyShown: bool
    var checkoutDisabled: bool
    /** The notices the top-level updateCart of the script raised while loading. */
    var loadNotices: seq<Notice>

    /** The page shows the current cart: its lines, its count in the badges, the empty state and the checkout button. */
    predicate Rendered()
      reads this
    {
      listing == items && badge == TotalQuantity(items) &&
      emptyShown == (items == []) && checkoutDisabled == (items == []) &&
      (items != [] ==> summaryItems == TotalQuantity(items) && summaryPrice == TotalPrice(items))
    }

    /** The stored copy is the in-memory cart (it stays so while saving succeeds). */
    predicate Persisted()
      reads this
    {
      stored == Some(items)
    }

    /**
     * Page load: `JSON.parse(localStorage.getItem(...)) || []`, then the
     * top-level updateCart(). A key that is absent, or holds a falsy JSON
     * value, gives an empty cart.
     */
    constructor Load(persisted: Option<seq<LineItem>>, storageFails: bool, script: seq<bool>)
      ensures items == (if persisted.Some? then persisted.value else [])
      ensures Rendered()
      ensures stored == (if storageFails then persisted else Some(items))
      ensures quotaExceeded == storageFails && answers == script && saves == 1
      ensures loadNotices == if storageFails then [SaveFailed] else []
    {
      items := if persisted.Some? then persisted.value else [];
      stored := persisted;
      quotaExceeded := storageFails;
      saves := 0;
      answers := script;
      listing := [];
      badge := 0;
      summaryItems := 0;
      summaryPrice := 0;
      emptyShown := false;
      checkoutDisabled := false;
      loadNotices := [];
      new;
      var saved := UpdateCart();
      loadNotices := saved;
    }

    /**
     * The DOMContentLoaded handler: updateCart once more, so a full page load
     * is Load followed by this, rendering and saving twice.
     */
    method PageReady() returns (notices: seq<Notice>)
      modifies this
      ensures Rendered()
      ensures items == old(items) && answers == old(answers) && quotaExceeded == old(quotaExceeded)
      ensures loadNotices == old(loadNotices)
      ensures saves == old(saves) + 1
      ensures stored == if quotaExceeded then old(stored) else Some(items)
      ensures notices == if quotaExceeded then [SaveFailed] else []
    {
      notices := UpdateCart();
    }

    /** saveCart: write the cart to storage; a throwing setItem is caught and reported. */
    method SaveCart() returns (notices: seq<Notice>)
      modifies this`stored, this`saves
      ensures saves == old(saves) + 1
      ensures stored == if quotaExceeded then old(stored) else Some(items)
      ensures notices == if quotaExceeded then [SaveFailed] else []
    {
      saves := saves + 1;
      if quotaExceeded {
        notices := [SaveFailed];
      } else {
        stored := Some(items);
        notices := [];
      }
    }

    /**
     * updateCart: re-render the listing, recompute the item count and the
     * total in one pass, toggle the empty state and the checkout button, and
     * save. With an empty cart the summary texts are not rewritten.
     */
    method UpdateCart() returns (notices: seq<Notice>)
      modifies this
      ensures Rendered()
      ensures items == old(items) && answers == old(answers) && quotaExceeded == old(quotaExceeded)
      ensures loadNotices == old(loadNotices)
      ensures items == [] ==> summaryItems == old(summaryItems) && summaryPrice == old(summaryPrice)
      ensures saves == old(saves) + 1
      ensures stored == if quotaExceeded then old(stored) else Some(items)
      ensures notices == if quotaExceeded then [SaveFailed] else []
    {
      var rows: seq<LineItem> := [];
      var totalItems := 0;
      var totalPrice := 0;
      if items == [] {
        emptyShown := true;
        checkoutDisabled := true;
      } else {
        emptyShown := false;
        checkoutDisabled := false;
        var i := 0;
        while i < |items|
          invariant 0 <= i <= |items|
          invariant rows == items[..i]
          invariant totalItems == TotalQuantity(items[..i])
          invariant totalPrice == TotalPrice(items[..i])
        {
          assert items[..i + 1][..i] == items[..i];
          totalItems := totalItems + items[i].quantity;
          totalPrice := totalPrice + items[i].price * items[i].quantity;
          rows := rows + [items[i]];
          i := i + 1;
        }
        assert items[..i] == items;
        summaryItems := totalItems;
        summaryPrice := totalPrice;
      }
      listing := rows;
      badge := totalItems;
      notices := SaveCart();
    }

    /** confirm(): the next scripted answer. */
    method Confirm() returns (yes: bool)
      modifies this`answers
      ensures yes == Answer(old(answers), 0)
      ensures answers == Consumed(old(answers), 1)
    {
      if answers == [] {
        yes := false;
      } else {
        yes := answers[0];
        answers := answers[1..];
      }
    }

    /**
     * addToCart: refuse a product whose id, name or price is falsy (nothing
     * changes, nothing is saved); otherwise merge it into the line with its id
     * or append it, re-render and save.
     */
    method AddToCart(product: Product) returns (notices: seq<Notice>)
      modifies this
      ensures Accepted(product).None? ==> unchanged(this) && notices == [IncompleteProduct]
      ensures loadNotices == old(loadNotices)
      ensures Accepted(product).Some? ==>
                items == Added(old(items), Accepted(product).value) && Rendered() &&
                saves == old(saves) + 1 &&
                stored == (if quotaExceeded then old(stored) else Some(items)) &&
                answers == old(answers) && quotaExceeded == old(quotaExceeded)
      ensures Accepted(product).Some? ==>
                var note := if HasId(old(items), product.id.value)
                            then AddedMore(product.quantity, product.name.value)
                            else AddedNew(product.name.value);
                notices == [note] + (if quotaExceeded then [SaveFailed] else [])
    {
      if !Truthy(product.id) || !Truthy(product.name) || !TruthyNumber(product.price) {
        return [IncompleteProduct];
      }
      var item := LineItem(product.id.value, product.sku, product.name.value, product.price.value, product.quantity);
      var note: Notice;
      match FindIndex(items, item.id) {
        case Some(i) =>
          items := items[i := items[i].(quantity := items[i].quantity + item.quantity)];
          note := AddedMore(product.quantity, product.name.value);
        case None =>
          items := items + [item];
          note := AddedNew(product.name.value);
      }
      var saved := UpdateCart();
      notices := [note] + saved;
    }

    /**
     * removeFromCart: when a line has the id, ask; on yes drop every line with
     * that id, re-render and save. An unknown id asks nothing and changes nothing.
     */
    method RemoveFromCart(id: string) returns (notices: seq<Notice>)
      modifies this
      ensures !HasId(old(items), id) ==> unchanged(this) && notices == []
      ensures loadNotices == old(loadNotices)
      ensures items == [] ==> summaryItems == old(summaryItems) && summaryPrice == old(summaryPrice)
      ensures HasId(old(items), id) && !Answer(old(answers), 0) ==>
                items == old(items) && answers == Consumed(old(answers), 1) &&
                saves == old(saves) && stored == old(stored) && notices == [] &&
                listing == old(listing) && badge == old(badge) &&
                summaryItems == old(summaryItems) && summaryPrice == old(summaryPrice) &&
                emptyShown == old(emptyShown) && checkoutDisabled == old(checkoutDisabled)
      ensures HasId(old(items), id) && Answer(old(answers), 0) ==>
                items == Removed(old(items), id) && Rendered() &&
                answers == Consumed(old(answers), 1) && saves == old(saves) + 1 &&
                stored == (if quotaExceeded then old(stored) else Some(items)) &&
                notices == (if quotaExceeded then [SaveFailed] else []) + [ItemRemoved]
      ensures quotaExceeded == old(quotaExceeded)
    {
      if FindIndex(items, id).None? {
        return [];
      }
      var yes := Confirm();
      notices := [];
      if yes {
        items := Removed(items, id);
        notices := UpdateCart();
        notices := notices + [ItemRemoved];
      }
    }

    /**
     * modifyQuantity: add `change` to the first line with the id. A result of
     * zero or less asks whether to remove: yes goes to removeFromCart (which
     * asks again), no sets the quantity to exactly 1. Every call on a known id
     * ends with updateCart; an unknown id is a no-op.
     */
    method ModifyQuantity(id: string, change: int) returns (notices: seq<Notice>)
      modifies this
      ensures FindIndex(old(items), id).None? ==> unchanged(this) && notices == []
      ensures loadNotices == old(loadNotices)
      ensures items == [] ==> summaryItems == old(summaryItems) && summaryPrice == old(summaryPrice)
      ensures var o := ModifyOutcome(old(items), old(answers), id, change);
              items == o.items && answers == Consumed(old(answers), o.asked) && saves == old(saves) + o.saves
      ensures FindIndex(old(items), id).Some? ==> Rendered()
      ensures FindIndex(old(items), id).Some? && !quotaExceeded ==> Persisted()
      ensures quotaExceeded ==> stored == old(stored)
      ensures quotaExceeded == old(quotaExceeded)
    {
      var found := FindIndex(items, id);
      if found.None? {
        return [];
      }
      var i := found.value;
      ghost var before := items;
      ghost var script := answers;
      ghost var savesBefore := saves;
      items := items[i := items[i].(quantity := items[i].quantity + change)];
      FindIndexIgnoresQuantity(before, i, items[i].quantity, id);
      RemovedIgnoresQuantity(before, i, items[i].quantity);
      notices := [];
      if items[i].quantity <= 0 {
        var yes := Confirm();
        if yes {
          notices := RemoveFromCart(id);
          assert answers == Consumed(script, 2);
        } else {
          items := items[i := items[i].(quantity := 1)];
          assert ModifyOutcome(before, script, id, change) == Outcome(items, 1, 1);
        }
      } else {
        assert ModifyOutcome(before, script, id, change) == Outcome(items, 0, 1);
      }
      var saved := UpdateCart();
      notices := notices + saved;
    }

    /**
     * The checkout button: nothing but a notice on an empty cart; otherwise
     * the order lines in cart order and their running TOTAL, handed off to the
     * fixed recipient. The cart is only read.
     */
    method Checkout() returns (handoff: Option<Handoff>, notices: seq<Notice>)
      ensures items == [] ==> handoff.None? && notices == [CartEmpty]
      ensures items != [] ==> handoff == Some(Handoff(CheckoutPhone, OrderLines(items), TotalPrice(items)))
      ensures items != [] ==> notices == [Redirecting]
    {
      if items == [] {
        return None, [CartEmpty];
      }
      var lines: seq<OrderLine> := [];
      var total := 0;
      var i := 0;
      while i < |items|
        invariant 0 <= i <= |items|
        invariant lines == OrderLines(items[..i])
        invariant total == TotalPrice(items[..i])
      {
        assert items[..i + 1][..i] == items[..i];
        var subtotal := items[i].price * items[i].quantity;
        total := total + subtotal;
        lines := lines + [OrderLine(items[i].name, items[i].quantity, items[i].price, subtotal)];
        i := i + 1;
      }
      assert items[..i] == items;
      handoff := Some(Handoff(CheckoutPhone, lines, total));
      notices := [Redirecting];
    }

    /**
     * The add-to-cart click: read the quantity field (NaN or 0 mean 1), refuse
     * a quantity outside [1, 10] before anything reaches addToCart, build the
     * product from the button's attributes and add it. The field is reset to
     * "1" either way.
     */
    method OnAddClick(button: AddButton, quantityField: string) returns (fieldAfter: string, notices: seq<Notice>)
      modifies this
      ensures fieldAfter == "1"
      ensures EntryQuantity(ParseInt(quantityField)).None? ==> unchanged(this) && notices == [QuantityOutOfRange]
      ensures EntryQuantity(ParseInt(quantityField)).Some? ==>
                var product := Product(button.id, button.sku, button.name, ParseAttribute(button.price),
                                       EntryQuantity(ParseInt(quantityField)).value);
                if Accepted(product).None? then unchanged(this) && notices == [IncompleteProduct]
                else items == Added(old(items), Accepted(product).value) && Rendered() &&
                     saves == old(saves) + 1 && answers == old(answers) &&
                     quotaExceeded == old(quotaExceeded) && loadNotices == old(loadNotices) &&
                     (quotaExceeded ==> stored == old(stored)) && (!quotaExceeded ==> Persisted()) &&
                     var note := if HasId(old(items), product.id.value)
                                 then AddedMore(product.quantity, product.name.value)
                                 else AddedNew(product.name.value);
                     notices == [note] + (if quotaExceeded then [SaveFailed] else [])
    {
      var parsed := ParseInt(quantityField);
      var quantity := if TruthyNumber(parsed) then parsed.value else 1;
      if quantity < MinQuantity || quantity > MaxQuantity {
        return "1", [QuantityOutOfRange];
      }
      var product := Product(button.id, button.sku, button.name, ParseAttribute(button.price), quantity);
      notices := AddToCart(product);
      fieldAfter := "1";
    }

    /**
     * The click handler of the cart listing: a button without a data-id does
     * nothing; a quantity button runs modifyQuantity and a delete button runs
     * removeFromCart, with the outcomes those state.
     */
    method OnListClick(button: ListButton) returns (notices: seq<Notice>)
      modifies this
      ensures quotaExceeded == old(quotaExceeded) && loadNotices == old(loadNotices)
      ensures !Truthy(button.id) || button.OtherButton? ==> unchanged(this) && notices == []
      ensures Truthy(button.id) && !HasId(old(items), button.id.value) ==> unchanged(this) && notices == []
      ensures Truthy(button.id) && button.ModifyButton? && HasId(old(items), button.id.value) ==>
                var o := ModifyOutcome(old(items), old(answers), button.id.value, button.change);
                items == o.items && answers == Consumed(old(answers), o.asked) &&
                saves == old(saves) + o.saves && Rendered() &&
                (!quotaExceeded ==> Persisted()) && (quotaExceeded ==> stored == old(stored))
      ensures Truthy(button.id) && button.DeleteButton? && HasId(old(items), button.id.value) &&
              !Answer(old(answers), 0) ==>
                items == old(items) && answers == Consumed(old(answers), 1) &&
                saves == old(saves) && stored == old(stored) && notices == [] &&
                listing == old(listing) && badge == old(badge) &&
                summaryItems == old(summaryItems) && summaryPrice == old(summaryPrice) &&
                emptyShown == old(emptyShown) && checkoutDisabled == old(checkoutDisabled)
      ensures Truthy(button.id) && button.DeleteButton? && HasId(old(items), button.id.value) &&
              Answer(old(answers), 0) ==>
                items == Removed(old(items), button.id.value) && Rendered() &&
                answers == Consumed(old(answers), 1) && saves == old(saves) + 1 &&
                stored == (if quotaExceeded then old(stored) else Some(items)) &&
                notices == (if quotaExceeded then [SaveFailed] else []) + [ItemRemoved]
    {
      if !Truthy(button.id) {
        return [];
      }
      match button {
        case ModifyButton(id, change) =>
          notices := ModifyQuantity(id.value, change);
        case DeleteButton(id) =>
          notices := RemoveFromCart(id.value);
        case OtherButton(_) =>
          notices := [];
      }
    }
  }

  /**
   * A full page load: the script's top level (read the stored cart, then
   * updateCart) followed by the DOMContentLoaded handler's updateCart. The cart
   * is rendered and saved twice, and a failing storage reports both times.
   */
  method OpenPage(persisted: Option<seq<LineItem>>, storageFails: bool, script: seq<bool>)
    returns (store: CartStore, notices: seq<Notice>)
    ensures fresh(store)
    ensures store.items == (if persisted.Some? then persisted.value else []) && store.Rendered()
    ensures store.stored == (if storageFails then persisted else Some(store.items))
    ensures store.quotaExceeded == storageFails && store.answers == script && store.saves == 2
    ensures notices == if storageFails then [SaveFailed, SaveFailed] else []
  {
    store := new CartStore.Load(persisted, storageFails, script);
    var first := store.loadNotices;
    var second := store.PageReady();
    notices := first + second;
  }

  /** Changing one line's quantity does not move the first line with an id. */
  lemma {:induction false} FindIndexIgnoresQuantity(items: seq<LineItem>, i: nat, q: int, id: string)
    requires i < |items|
    ensures FindIndex(items[i := items[i].(quantity := q)], id) == FindIndex(items, id)
  {
    var after := items[i := items[i].(quantity := q)];
    if i > 0 && items[0].id != id {
      assert after[1..] == items[1..][i - 1 := items[i].(quantity := q)];
      FindIndexIgnoresQuantity(items[1..], i - 1, q, id);
    } else if i == 0 {
      assert after[1..] == items[1..];
    }
  }

  /** Changing one line's quantity does not change which lines a removal by id keeps, apart from that quantity. */
  lemma {:induction false} RemovedIgnoresQuantity(items: seq<LineItem>, i: nat, q: int)
    requires i < |items|
    ensures Removed(items[i := items[i].(quantity := q)], items[i].id) == Removed(items, items[i].id)
  {
    if i > 0 {
      RemovedIgnoresQuantity(items[1..], i - 1, q);
      assert items[i := items[i].(quantity := q)][1..] == items[1..][i - 1 := items[i].(quantity := q)];
    } else {
      assert items[i := items[i].(quantity := q)][1..] == items[1..];
    }
  }

  /** modifyQuantity on an id the cart does not hold changes nothing, asks nothing and saves nothing. */
  lemma ModifyUnknownIdIsNoop(items: seq<LineItem>, answers: seq<bool>, id: string, change: int)
    requires !HasId(items, id)
    ensures ModifyOutcome(items, answers, id, change) == Outcome(items, 0, 0)
  {
  }

  /** A change that leaves the quantity positive sets it to old plus change and touches no other line. */
  lemma ModifyPositive(items: seq<LineItem>, answers: seq<bool>, id: string, change: int, i: nat)
    requires FindIndex(items, id) == Some(i) && items[i].quantity + change > 0
    ensures var o := ModifyOutcome(items, answers, id, change);
            |o.items| == |items| && o.items[i].quantity == items[i].quantity + change &&
            o.items[i].id == id && o.asked == 0 && o.saves == 1 &&
            forall k :: 0 <= k < |items| && k != i ==> o.items[k] == items[k]
  {
  }

  /** Declining the first prompt sets the quantity to exactly 1, whatever it was before. */
  lemma ModifyDeclinedSetsOne(items: seq<LineItem>, answers: seq<bool>, id: string, change: int, i: nat)
    requires FindIndex(items, id) == Some(i) && items[i].quantity + change <= 0 && !Answer(answers, 0)
    ensures var o := ModifyOutcome(items, answers, id, change);
            |o.items| == |items| && o.items[i] == items[i].(quantity := 1) && o.asked == 1 &&
            forall k :: 0 <= k < |items| && k != i ==> o.items[k] == items[k]
  {
  }

  /**
   * Accepting both prompts removes every line with the id, and the item count
   * falls by the units it held (with unique ids: by the line's former quantity).
   */
  lemma ModifyRemoves(items: seq<LineItem>, answers: seq<bool>, id: string, change: int, i: nat)
    requires FindIndex(items, id) == Some(i) && items[i].quantity + change <= 0
    requires Answer(answers, 0) && Answer(answers, 1)
    ensures var o := ModifyOutcome(items, answers, id, change);
            o.items == Removed(items, id) && !HasId(o.items, id) && o.asked == 2 && o.saves == 2 &&
            TotalQuantity(o.items) == TotalQuantity(items) - QuantityOf(items, id)
    ensures UniqueIds(items) ==>
            TotalQuantity(ModifyOutcome(items, answers, id, change).items) == TotalQuantity(items) - items[i].quantity
  {
    RemovedTotalQuantity(items, id);
    if UniqueIds(items) {
      QuantityOfUnique(items, i);
    }
  }

  /** Declining the second prompt leaves the line in the cart with the quantity of zero or less that triggered it. */
  lemma ModifySecondDeclineKeepsLine(items: seq<LineItem>, answers: seq<bool>, id: string, change: int, i: nat)
    requires FindIndex(items, id) == Some(i) && items[i].quantity + change <= 0
    requires Answer(answers, 0) && !Answer(answers, 1)
    ensures var o := ModifyOutcome(items, answers, id, change);
            |o.items| == |items| && o.items[i].id == id && o.items[i].quantity <= 0 &&
            o.items[i].quantity == items[i].quantity + change && o.asked == 2
  {
  }

  /** Removal keeps unique ids unique. */
  lemma {:induction false} RemovedKeepsIdsUnique(items: seq<LineItem>, id: string)
    requires UniqueIds(items)
    ensures UniqueIds(Removed(items, id))
    ensures forall k :: 0 <= k < |Removed(items, id)| ==> HasId(items, Removed(items, id)[k].id)
  {
    if items != [] {
      RemovedKeepsIdsUnique(items[1..], id);
      var rest := Removed(items[1..], id);
      forall k | 0 <= k < |rest| ensures HasId(items, rest[k].id) {
        var j :| 0 <= j < |items[1..]| && items[1..][j].id == rest[k].id;
        assert items[j + 1].id == rest[k].id;
      }
      if items[0].id != id {
        forall k | 0 <= k < |rest| ensures rest[k].id != items[0].id {
          var j :| 0 <= j < |items[1..]| && items[1..][j].id == rest[k].id;
          assert items[j + 1].id == rest[k].id;
        }
        var r := [items[0]] + rest;
        assert r[0] == items[0];
        assert forall k :: 1 <= k < |r| ==> r[k] == rest[k - 1];
        assert HasId(items, items[0].id);
      }
    }
  }

  /** modifyQuantity keeps unique ids unique, on every path. */
  lemma ModifyKeepsIdsUnique(items: seq<LineItem>, answers: seq<bool>, id: string, change: int)
    requires UniqueIds(items)
    ensures UniqueIds(ModifyOutcome(items, answers, id, change).items)
  {
    RemovedKeepsIdsUnique(items, id);
  }
}
