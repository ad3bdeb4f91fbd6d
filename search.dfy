/**
 * SearchSystem in main.js: the products read from the page's cards, the
 * substring filter behind the search box, the result panel (a count, at most
 * five listed results, and an overflow line), and the show/hide/highlight
 * state of each product's card.
 */
module Search {
  import opened Js

  /**
   * What loadProducts reads from one `.product-card`: the text of its
   * .card-title and .card-text (None when the element is missing) and its
   * data-sku and data-price attributes (None when no element carries them).
   */
  datatype Card = Card(title: Option<string>, description: Option<string>, sku: Option<string>, price: Option<string>)

  /** A searchable product; `card` is the position of the card it was read from. */
  datatype Product = Product(
    title: string,
    description: Option<string>,
    sku: Option<string>,
    price: Option<int>,
    card: nat,
    searchText: string)

  /** What performSearch and displayResults leave in the results container. */
  datatype Panel =
    | NoResults(query: string)
      // the result count, the results listed, and the "Y N más..." figure when there is one
    | ResultList(count: nat, listed: seq<Product>, overflow: Option<nat>)

  /** The state of a product's card: untouched, hidden, or highlighted as a search hit. */
  datatype Look = Plain | Hidden | Highlighted

  const MinQueryLength: nat := 2
  const MaxListed: nat := 5

  /** A template literal renders a missing value as "undefined". */
  function Render(o: Option<string>): string {
    match o
    case None => "undefined"
    case Some(s) => s
  }

  /** The text a product is searched by: title, description and SKU, space separated, lower-cased. */
  function SearchText(title: string, description: Option<string>, sku: Option<string>): string {
    ToLower(title + " " + Render(description) + " " + Render(sku))
  }

  /** A card becomes a product exactly when its trimmed title is non-empty. */
  function ProductOf(c: Card, index: nat): (r: Option<Product>)
    ensures r.Some? <==> c.title.Some? && Trim(c.title.value) != []
    ensures r.Some? ==> r.value.card == index && r.value.title == Trim(c.title.value)
  {
    match c.title
    case None => None
    case Some(raw) =>
      var title := Trim(raw);
      if title == [] then None
      else
        var description := match c.description case None => None case Some(d) => Some(Trim(d));
        Some(Product(title, description, c.sku, ParseAttribute(c.price), index, SearchText(title, description, c.sku)))
  }

  /** Whether the card at `index` yields a product. */
  predicate Titled(c: Card) {
    c.title.Some? && Trim(c.title.value) != []
  }

  /** The products loadProducts pushes for `cards`: one per titled card, in card order. */
  function Catalog(cards: seq<Card>): (ps: seq<Product>)
    ensures |ps| <= |cards|
    ensures forall k :: 0 <= k < |ps| ==> ps[k].card < |cards|
    ensures forall k, l :: 0 <= k < l < |ps| ==> ps[k].card < ps[l].card
  {
    if cards == [] then []
    else
      var n := |cards| - 1;
      var ps := Catalog(cards[..n]);
      match ProductOf(cards[n], n)
      case None => ps
      case Some(p) => ps + [p]
  }

  /** Each catalog entry is the product of the card it names. */
  lemma {:induction false} CatalogSound(cards: seq<Card>, k: nat)
    requires k < |Catalog(cards)|
    ensures ProductOf(cards[Catalog(cards)[k].card], Catalog(cards)[k].card) == Some(Catalog(cards)[k])
  {
    var n := |cards| - 1;
    var ps := Catalog(cards[..n]);
    CatalogLast(cards);
    if k < |ps| {
      CatalogSound(cards[..n], k);
      assert Catalog(cards)[k] == ps[k];
      assert cards[..n][ps[k].card] == cards[ps[k].card];
    }
  }

  /** The catalog of a non-empty card list: that of all but the last card, then the last card's product if it has one. */
  lemma CatalogLast(cards: seq<Card>)
    requires cards != []
    ensures var n := |cards| - 1;
            Catalog(cards) == Catalog(cards[..n]) + (if Titled(cards[n]) then [ProductOf(cards[n], n).value] else [])
  {
  }

  /** Every titled card, and only those, has its product in the catalog. */
  lemma {:induction false} CatalogComplete(cards: seq<Card>, j: nat)
    requires j < |cards|
    ensures Titled(cards[j]) <==> exists k :: 0 <= k < |Catalog(cards)| && Catalog(cards)[k].card == j
  {
    var n := |cards| - 1;
    var ps := Catalog(cards[..n]);
    var all := Catalog(cards);
    CatalogLast(cards);
    assert forall k :: 0 <= k < |ps| ==> all[k] == ps[k];
    if j < n {
      CatalogComplete(cards[..n], j);
      assert cards[..n][j] == cards[j];
      if exists k :: 0 <= k < |all| && all[k].card == j {
        var k :| 0 <= k < |all| && all[k].card == j;
        assert k < |ps|;
      }
    } else if Titled(cards[j]) {
      assert all[|all| - 1] == ProductOf(cards[n], n).value;
    } else {
      assert all == ps;
    }
  }

  /** String.prototype.includes on the lower-cased search text. */
  predicate Hit(p: Product, query: string) {
    Includes(p.searchText, query)
  }

  /** `products.filter(p => p.searchText.includes(query))`. */
  function Matching(ps: seq<Product>, query: string): (rs: seq<Product>)
    ensures |rs| <= |ps|
  {
    if ps == [] then []
    else
      var n := |ps| - 1;
      var rs := Matching(ps[..n], query);
      if Hit(ps[n], query) then rs + [ps[n]] else rs
  }

  /** The results are exactly the products that match. */
  lemma {:induction false} MatchingMembers(ps: seq<Product>, query: string, p: Product)
    ensures p in Matching(ps, query) <==> p in ps && Hit(p, query)
  {
    if ps != [] {
      var n := |ps| - 1;
      MatchingMembers(ps[..n], query, p);
      assert ps == ps[..n] + [ps[n]];
    }
  }

  /** The filter of a non-empty list: that of all but the last product, then the last one if it matches. */
  lemma MatchingLast(ps: seq<Product>, query: string)
    requires ps != []
    ensures Matching(ps, query) ==
            Matching(ps[..|ps| - 1], query) + (if Hit(ps[|ps| - 1], query) then [ps[|ps| - 1]] else [])
  {
  }

  /** The filter distributes over concatenation: results come in product order. */
  lemma {:induction false} MatchingAppend(a: seq<Product>, b: seq<Product>, query: string)
    ensures Matching(a + b, query) == Matching(a, query) + Matching(b, query)
  {
    if b == [] {
      assert a + b == a;
    } else {
      var n := |b| - 1;
      var ab := a + b;
      var last: seq<Product> := if Hit(b[n], query) then [b[n]] else [];
      MatchingAppend(a, b[..n], query);
      MatchingLast(ab, query);
      MatchingLast(b, query);
      assert ab[..|ab| - 1] == a + b[..n];
      assert ab[|ab| - 1] == b[n];
      calc {
        Matching(ab, query);
        Matching(a + b[..n], query) + last;
        (Matching(a, query) + Matching(b[..n], query)) + last;
        Matching(a, query) + (Matching(b[..n], query) + last);
        Matching(a, query) + Matching(b, query);
      }
    }
  }

  /** The query as performSearch reads it from the input. */
  function Query(input: string): (q: string)
    ensures |q| <= |input|
    ensures q == [] <==> AllSpaces(input)
  {
    TrimEmptyIffAllSpaces(input);
    ToLower(Trim(input))
  }

  /** displayResults: a not-found message, or the count, the first five results and the number not listed. */
  function ResultsPanel(results: seq<Product>, query: string): (p: Panel)
    ensures p.NoResults? <==> results == []
    ensures p.NoResults? ==> p.query == query
    ensures p.ResultList? ==>
              p.count == |results| && |p.listed| <= MaxListed && |p.listed| <= |results| &&
              p.listed == results[..|p.listed|] &&
              (|results| <= MaxListed ==> p.listed == results)
    ensures p.ResultList? ==>
              (p.overflow.Some? <==> |results| > MaxListed) &&
              (p.overflow.Some? ==> |p.listed| + p.overflow.value == |results|)
    ensures p.ResultList? ==> |p.listed| == (if |results| < MaxListed then |results| else MaxListed)
    ensures p.ResultList? && p.overflow.Some? ==> p.overflow.value == |results| - MaxListed
  {
    if results == [] then NoResults(query)
    else
      var shown := if |results| < MaxListed then |results| else MaxListed;
      ResultList(|results|, results[..shown], if |results| > MaxListed then Some(|results| - MaxListed) else None)
  }

  /** The look of each product once highlightProducts has run for `results`. */
  function LookAfter(p: Product, results: seq<Product>): Look {
    if results == [] then Plain else if p in results then Highlighted else Hidden
  }

  class SearchSystem {
    /** this.products. */
    var products: seq<Product>
    /** The look of each product's card, by position. */
    var looks: seq<Look>
    /** The search box's value. */
    var inputValue: string
    /** Whether the results container is visible (it lacks `d-none`). */
    var panelShown: bool
    /** The results container's content; None until displayResults first runs. */
    var panel: Option<Panel>

    ghost predicate Valid()
      reads this
    {
      |looks| == |products|
    }

    /** The constructor and init: without a search input nothing is loaded. */
    constructor (cards: seq<Card>, hasInput: bool, input: string)
      ensures Valid()
      ensures products == if hasInput then Catalog(cards) else []
      ensures forall k :: 0 <= k < |looks| ==> looks[k] == Plain
      ensures inputValue == input && !panelShown && panel.None?
    {
      products := [];
      looks := [];
      inputValue := input;
      panelShown := false;
      panel := None;
      new;
      if hasInput {
        LoadProducts(cards);
      }
    }

    /** loadProducts: pushes one product per titled card, in card order, after those already loaded. */
    method LoadProducts(cards: seq<Card>)
      requires Valid()
      modifies this`products, this`looks
      ensures Valid()
      ensures products == old(products) + Catalog(cards)
      ensures looks == old(looks) + seq(|Catalog(cards)|, _ => Plain)
    {
      var pushed: seq<Product> := [];
      var i := 0;
      while i < |cards|
        invariant 0 <= i <= |cards|
        invariant pushed == Catalog(cards[..i])
      {
        assert cards[..i + 1][..i] == cards[..i];
        var card := cards[i];
        if card.title.Some? {
          var title := Trim(card.title.value);
          if title != [] {
            var description := match card.description case None => None case Some(d) => Some(Trim(d));
            pushed := pushed + [Product(title, description, card.sku, ParseAttribute(card.price), i,
                                        SearchText(title, description, card.sku))];
          }
        }
        i := i + 1;
      }
      assert cards[..i] == cards;
      products := products + pushed;
      looks := looks + seq(|pushed|, _ => Plain);
    }

    /** clearSearch: empties the box, hides the panel and shows every card plainly. */
    method ClearSearch()
      requires Valid()
      modifies this`inputValue, this`panelShown, this`looks
      ensures Valid()
      ensures inputValue == [] && !panelShown
      ensures forall k :: 0 <= k < |looks| ==> looks[k] == Plain
    {
      inputValue := [];
      panelShown := false;
      var reset: seq<Look> := [];
      while |reset| < |products|
        invariant |reset| <= |products|
        invariant forall k :: 0 <= k < |reset| ==> reset[k] == Plain
      {
        reset := reset + [Plain];
      }
      looks := reset;
    }

    /**
     * highlightProducts: every card back to plain, then, when there are
     * results, the hits highlighted and the others hidden.
     */
    method HighlightProducts(results: seq<Product>)
      requires Valid()
      modifies this`looks
      ensures Valid()
      ensures forall k :: 0 <= k < |looks| ==> looks[k] == LookAfter(products[k], results)
    {
      var next: seq<Look> := [];
      while |next| < |products|
        invariant |next| <= |products|
        invariant forall k :: 0 <= k < |next| ==> next[k] == Plain
      {
        next := next + [Plain];
      }
      if results != [] {
        var i := 0;
        while i < |products|
          invariant 0 <= i <= |products| && |next| == |products|
          invariant forall k :: 0 <= k < i ==> next[k] == LookAfter(products[k], results)
        {
          if products[i] !in results {
            next := next[i := Hidden];
          } else {
            next := next[i := Highlighted];
          }
          i := i + 1;
        }
      }
      looks := next;
    }

    /**
     * performSearch: a trimmed query shorter than two characters clears the
     * search; otherwise the panel shows the matching products and each card is
     * highlighted or hidden according to whether it matched.
     */
    method PerformSearch()
      requires Valid()
      modifies this`inputValue, this`panelShown, this`panel, this`looks
      ensures Valid()
      ensures var q := Query(old(inputValue));
              |q| < MinQueryLength ==>
                inputValue == [] && !panelShown && panel == old(panel) &&
                forall k :: 0 <= k < |looks| ==> looks[k] == Plain
      ensures var q := Query(old(inputValue));
              |q| >= MinQueryLength ==>
                inputValue == old(inputValue) && panelShown &&
                panel == Some(ResultsPanel(Matching(products, q), q)) &&
                forall k :: 0 <= k < |looks| ==> looks[k] == LookAfter(products[k], Matching(products, q))
    {
      var query := Query(inputValue);
      if |query| < MinQueryLength {
        ClearSearch();
        return;
      }
      var results := Matching(products, query);
      panel := Some(ResultsPanel(results, query));
      panelShown := true;
      HighlightProducts(results);
    }
  }

  /** After a search, a card is highlighted exactly when its product matches, and hidden exactly when something else matched. */
  lemma SearchLooks(products: seq<Product>, k: nat, query: string)
    requires k < |products|
    ensures var rs := Matching(products, query);
            (LookAfter(products[k], rs) == Highlighted <==> Hit(products[k], query)) &&
            (LookAfter(products[k], rs) == Hidden <==> !Hit(products[k], query) && rs != [])
  {
    MatchingMembers(products, query, products[k]);
    if Hit(products[k], query) {
      assert Matching(products, query) != [];
    }
  }

  lemma LowerUndefined()
    ensures ToLower("undefined") == "undefined"
  {
  }

  /** The search text of a product without description contains "undefined" right after the title. */
  lemma UndefinedInSearchText(title: string, sku: Option<string>)
    ensures Includes(SearchText(title, None, sku), "undefined")
  {
    var t := title + " ";
    var u := "undefined";
    var rest := " " + Render(sku);
    assert title + " " + Render(None) + " " + Render(sku) == (t + u) + rest;
    ToLowerAppend(t + u, rest);
    ToLowerAppend(t, u);
    LowerUndefined();
    var low := ToLower(t) + u + ToLower(rest);
    assert SearchText(title, None, sku) == low;
    assert |ToLower(t)| == |t|;
    assert low[|t|..|t| + |u|] == u;
    assert OccursAt(low, u, |t|);
  }

  /** A product read from a card without description text matches the query "undefined". */
  lemma MissingDescriptionMatchesUndefined(c: Card, index: nat)
    requires Titled(c) && c.description.None?
    ensures Hit(ProductOf(c, index).value, "undefined")
  {
    var p := ProductOf(c, index).value;
    assert p.searchText == SearchText(p.title, None, c.sku);
    UndefinedInSearchText(p.title, c.sku);
  }
}
