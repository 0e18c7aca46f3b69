/** The products page: the stock classification `getStockStatus`, the
    search-and-category filter, the low-stock list and the stock alert.
    Quantities arrive as numbers already read by `Number()`. */
module Produtos {
  import opened Wrappers
  import opened Seqs
  import opened Text
  import opened Schema

  /** A product, with the fields the page reads; absent optional fields are `None`. */
  datatype Product = Product(id: Id, name: string, description: Option<string>, category: string,
                             quantity: real, minQuantity: real, unit: string,
                             supplier: Option<string>, barcode: Option<string>)

  const DefaultColor: string := "bg-gray-100 text-gray-800 border-gray-200"

  /** `getCategoryColor`: one colour per known category, grey for any other. */
  function GetCategoryColor(category: string): (r: string)
    ensures r != DefaultColor <==> category in {"consumo", "venda", "uso"}
  {
    assert "bg-green-100 text-green-800 border-green-200"[5] != DefaultColor[5];
    match category
    case "consumo" => "bg-blue-100 text-blue-800 border-blue-200"
    case "venda" => "bg-green-100 text-green-800 border-green-200"
    case "uso" => "bg-purple-100 text-purple-800 border-purple-200"
    case _ => DefaultColor
  }

  /** The three known categories are told apart by colour. */
  lemma CategoryColorsDistinct()
    ensures GetCategoryColor("consumo") != GetCategoryColor("venda")
    ensures GetCategoryColor("consumo") != GetCategoryColor("uso")
    ensures GetCategoryColor("venda") != GetCategoryColor("uso")
  {
    assert GetCategoryColor("consumo")[3] == 'b';
    assert GetCategoryColor("venda")[3] == 'g';
    assert GetCategoryColor("uso") == "bg-purple-100 text-purple-800 border-purple-200";
  }

  datatype StockStatus = OutOfStock | LowStock | InStock

  /** The badge text of each status. */
  function StatusLabel(s: StockStatus): string {
    match s
    case OutOfStock => "Sem estoque"
    case LowStock => "Estoque baixo"
    case InStock => "Em estoque"
  }

  /** The badge colour of each status. */
  function StatusColor(s: StockStatus): string {
    match s
    case OutOfStock => "bg-red-100 text-red-800 border-red-200"
    case LowStock => "bg-yellow-100 text-yellow-800 border-yellow-200"
    case InStock => "bg-green-100 text-green-800 border-green-200"
  }

  /** `getStockStatus(quantity, minQuantity)`. */
  function GetStockStatus(qty: real, minQty: real): (r: StockStatus)
    ensures r == OutOfStock <==> qty == 0.0
    ensures r == LowStock <==> qty != 0.0 && qty <= minQty
    ensures r == InStock <==> qty != 0.0 && qty > minQty
  {
    if qty == 0.0 then OutOfStock
    else if qty <= minQty then LowStock
    else InStock
  }

  /** The three statuses carry three different labels and three different colours. */
  lemma StockBadgesDistinct(a: StockStatus, b: StockStatus)
    requires a != b
    ensures StatusLabel(a) != StatusLabel(b)
    ensures StatusColor(a) != StatusColor(b)
  {
    assert |StatusLabel(a)| != |StatusLabel(b)|;
    assert |StatusColor(a)| != |StatusColor(b)|;
  }

  predicate IsLowStock(p: Product) {
    p.quantity <= p.minQuantity
  }

  /** `lowStockProducts`: the products whose quantity is at most their minimum, in order. */
  function LowStockProducts(ps: seq<Product>): (r: seq<Product>)
    ensures forall x :: x in r <==> x in ps && x.quantity <= x.minQuantity
    ensures forall x :: multiset(r)[x] == if x.quantity <= x.minQuantity then multiset(ps)[x] else 0
    ensures IsSubsequence(r, ps)
  {
    FilterFacts(ps, IsLowStock);
    FilterCounts(ps, IsLowStock);
    Filter(ps, IsLowStock)
  }

  /** With non-negative minimums, the low-stock list holds exactly the
      products whose status is not "Em estoque". A product with quantity 0
      and a negative minimum is "Sem estoque" but not in the list. */
  lemma LowStockIffNotInStock(ps: seq<Product>)
    requires forall i :: 0 <= i < |ps| ==> ps[i].minQuantity >= 0.0
    ensures forall x :: x in LowStockProducts(ps) <==>
                          x in ps && GetStockStatus(x.quantity, x.minQuantity) != InStock
  {
  }

  /** The stock alert card: absent when no product is low; otherwise the
      count, at most five badges, and "e mais {n - 5} produtos" past five. */
  datatype StockAlert = NoAlert | Alert(count: nat, badges: seq<Product>, more: Option<nat>)

  function StockAlertOf(ps: seq<Product>): (r: StockAlert)
    ensures r.NoAlert? <==> forall i :: 0 <= i < |ps| ==> ps[i].quantity > ps[i].minQuantity
    ensures r.Alert? ==>
              && r.count == |LowStockProducts(ps)|
              && r.badges <= LowStockProducts(ps)
              && |r.badges| == (if r.count < 5 then r.count else 5)
              && (r.more.Some? <==> r.count > 5)
              && |r.badges| + r.more.GetOr(0) == r.count
  {
    var low := LowStockProducts(ps);
    if |low| == 0 then
      NoAlert
    else
      Alert(|low|, Take(low, 5), if |low| > 5 then Some(|low| - 5) else None)
  }

  /** Case-insensitive containment: both sides lower-cased. */
  predicate IncludesFolded(field: string, term: string) {
    Includes(Lower(field), Lower(term))
  }

  /** An optional field matches only when present (`field?.includes(...)`). */
  predicate OptionalIncludesFolded(field: Option<string>, term: string) {
    field.Some? && IncludesFolded(field.value, term)
  }

  /** The search half of `filteredProducts`. */
  predicate MatchesSearch(p: Product, term: string) {
    || IncludesFolded(p.name, term)
    || OptionalIncludesFolded(p.description, term)
    || OptionalIncludesFolded(p.supplier, term)
    || (p.barcode.Some? && Includes(p.barcode.value, term))
  }

  const AllCategories: string := "todas"

  /** The category half of `filteredProducts`. */
  predicate MatchesCategory(p: Product, category: string) {
    category == AllCategories || p.category == category
  }

  /** `filteredProducts`. */
  function FilteredProducts(ps: seq<Product>, term: string, category: string): (r: seq<Product>)
    ensures forall x :: x in r <==> x in ps && MatchesSearch(x, term) && MatchesCategory(x, category)
    ensures forall x :: multiset(r)[x] ==
              if MatchesSearch(x, term) && MatchesCategory(x, category) then multiset(ps)[x] else 0
    ensures IsSubsequence(r, ps)
    ensures (forall i :: 0 <= i < |ps| ==> MatchesSearch(ps[i], term) && MatchesCategory(ps[i], category)) ==> r == ps
  {
    var keep := (p: Product) => MatchesSearch(p, term) && MatchesCategory(p, category);
    FilterFacts(ps, keep);
    FilterCounts(ps, keep);
    Filter(ps, keep)
  }

  /** "todas" keeps every product the search keeps; any other category keeps
      only products of exactly that category. */
  lemma CategoryFilter(ps: seq<Product>, term: string, category: string)
    ensures category == AllCategories ==>
              forall x :: x in FilteredProducts(ps, term, category) <==> x in ps && MatchesSearch(x, term)
    ensures category != AllCategories ==>
              forall x :: x in FilteredProducts(ps, term, category) ==> x.category == category
  {
  }

  /** An empty search with "todas" shows every product. */
  lemma EmptySearchShowsAll(ps: seq<Product>)
    ensures FilteredProducts(ps, "", AllCategories) == ps
  {
    forall i | 0 <= i < |ps| ensures MatchesSearch(ps[i], "") {
      IncludesEmpty(Lower(ps[i].name));
    }
  }

  /** Name, description and supplier match whatever the case of the term:
      a term and its lower-cased form select the same products whenever
      the barcode does not decide the match. */
  lemma TextFieldsIgnoreCase(p: Product, term: string)
    requires p.barcode.None?
    ensures MatchesSearch(p, term) == MatchesSearch(p, Lower(term))
  {
    LowerIdempotent(term);
  }

  /** A product whose optional fields are all absent matches on its name alone. */
  lemma AbsentFieldsNeverMatch(p: Product, term: string)
    requires p.description.None? && p.supplier.None? && p.barcode.None?
    ensures MatchesSearch(p, term) <==> Includes(Lower(p.name), Lower(term))
  {
  }

  /** When no text field matches, a product matches exactly when it has a
      barcode containing the term as typed, with no case folding. */
  lemma BarcodeMatchedAsTyped(p: Product, term: string)
    requires !IncludesFolded(p.name, term)
    requires !OptionalIncludesFolded(p.description, term) && !OptionalIncludesFolded(p.supplier, term)
    ensures MatchesSearch(p, term) <==> p.barcode.Some? && Includes(p.barcode.value, term)
  {
  }

  /** An illustration of the above: the barcode "AB12" is not found by
      "ab12", though a case-folded field would be. */
  lemma BarcodeIsCaseSensitive()
    ensures !Includes("AB12", "ab12")
    ensures IncludesFolded("AB12", "ab12")
  {
    assert "AB12"[..4] != "ab12" by { assert "AB12"[0] != "ab12"[0]; }
    assert Lower("AB12") == "ab12";
  }
}
