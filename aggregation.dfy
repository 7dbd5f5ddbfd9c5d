/** `ProductDetailsViewModel`: the totals shown for a product and its
    customisation, and the object that keeps them in step with the chosen
    product and the resolver's selected ingredients.

    The selected ingredients are a Swift dictionary; `reduce` and
    `compactMap` walk it in an iteration order the language leaves
    unspecified. That order is an explicit parameter here (any sequence
    listing every key once), and the totals are proved not to depend on
    it. */
module Aggregation {
  import opened Wrappers
  import opened MenuModel
  import opened FoodValueSum
  import opened Projection
  import opened Customise

  /** A possible iteration order of a dictionary: every key exactly once. */
  predicate IsEnumeration(order: seq<Ingredient>, sel: map<Ingredient, QuantityVariation>)
  {
    NoDuplicates(order) && (forall k :: k in order ==> k in sel) && (forall k :: k in sel ==> k in order)
  }

  /** `product?.prices.first?.value ?? 0`. */
  function BasePrice(product: Option<Product>): (r: int)
    ensures product.None? || product.value.prices == [] ==> r == 0
    ensures product.Some? && product.value.prices != [] ==> r == product.value.prices[0].value
  {
    match product
    case None => 0
    case Some(p) => if p.prices == [] then 0 else p.prices[0].value
  }

  /** The price of a selected entry (0 for a key outside the selection,
      which no enumeration lists). */
  function EntryPrice(sel: map<Ingredient, QuantityVariation>): Ingredient -> int
  {
    k => if k in sel then sel[k].price else 0
  }

  function EntryFoodValue(sel: map<Ingredient, QuantityVariation>): Ingredient -> FoodValue
  {
    k => if k in sel then sel[k].foodValue else Absent
  }

  /** `totalPricePublisher`'s map, walking the dictionary in `order`. */
  function TotalPrice(product: Option<Product>, sel: map<Ingredient, QuantityVariation>, order: seq<Ingredient>): int
  {
    BasePrice(product) + SumOf(order, EntryPrice(sel))
  }

  /** `totalFoodValuePublisher`'s map: nil without a product food value;
      otherwise that value folded with `+` over the selected variations'
      food values, in `order`. */
  function TotalFoodValue(product: Option<Product>, sel: map<Ingredient, QuantityVariation>, order: seq<Ingredient>)
    : Option<FoodValue>
  {
    match product
    case None => None
    case Some(p) =>
      match p.foodValue
      case None => None
      case Some(fv) => Some(Reduce(fv, MapSeq(order, EntryFoodValue(sel))))
  }

  /** Two iteration orders of the same dictionary are permutations. */
  lemma EnumerationsArePermutations(sel: map<Ingredient, QuantityVariation>, a: seq<Ingredient>, b: seq<Ingredient>)
    requires IsEnumeration(a, sel) && IsEnumeration(b, sel)
    ensures multiset(a) == multiset(b)
  {
    DistinctSameElements(a, b);
  }

  /** Both totals are functions of the product and the selection alone:
      every iteration order of the dictionary gives the same totals. */
  lemma TotalsIndependentOfOrder(product: Option<Product>, sel: map<Ingredient, QuantityVariation>,
                                 a: seq<Ingredient>, b: seq<Ingredient>)
    requires IsEnumeration(a, sel) && IsEnumeration(b, sel)
    ensures TotalPrice(product, sel, a) == TotalPrice(product, sel, b)
    ensures TotalFoodValue(product, sel, a) == TotalFoodValue(product, sel, b)
  {
    EnumerationsArePermutations(sel, a, b);
    SumOfPermutation(a, b, EntryPrice(sel));
    if product.Some? && product.value.foodValue.Some? {
      ReducePermutation(product.value.foodValue.value, a, b, EntryFoodValue(sel));
    }
  }

  /** The total price is the base price plus, for every selected entry,
      its variation's price: listing one more entry adds its price. */
  lemma {:induction false} TotalPriceAddsEntry(product: Option<Product>, sel: map<Ingredient, QuantityVariation>,
                                               order: seq<Ingredient>, k: Ingredient)
    requires k in sel
    ensures TotalPrice(product, sel, [k] + order) == TotalPrice(product, sel, order) + sel[k].price
  {
    assert ([k] + order)[1..] == order;
  }

  /** Without a product, or with a product that has no food value, the
      food total is nil whatever is selected. */
  lemma NoBaseFoodValueNoTotal(product: Option<Product>, sel: map<Ingredient, QuantityVariation>, order: seq<Ingredient>)
    requires product.None? || product.value.foodValue.None?
    ensures TotalFoodValue(product, sel, order).None?
  {
  }

  /** With the product's food value present, the food total is that value
      plus the order-free total of the selected variations' food values. */
  lemma FoodTotalIsBasePlusSelection(product: Option<Product>, sel: map<Ingredient, QuantityVariation>, order: seq<Ingredient>)
    requires product.Some? && product.value.foodValue.Some?
    ensures TotalFoodValue(product, sel, order) ==
      Some(Plus(product.value.foodValue.value, TotalOf(order, EntryFoodValue(sel))))
  {
    ReduceIsPlusTotal(product.value.foodValue.value, order, EntryFoodValue(sel));
  }

  /** With nothing selected the totals are the base price and the
      product's own food value. */
  lemma EmptySelectionTotals(product: Option<Product>, order: seq<Ingredient>)
    requires IsEnumeration(order, map[])
    ensures TotalPrice(product, map[], order) == BasePrice(product)
    ensures TotalFoodValue(product, map[], order) == if product.None? then None else product.value.foodValue
  {
  }

  /** One iteration order of a dictionary: keys are taken out of the
      remaining set in an unspecified order. */
  method EnumerateKeys(sel: map<Ingredient, QuantityVariation>) returns (order: seq<Ingredient>)
    ensures IsEnumeration(order, sel)
  {
    var remaining := sel.Keys;
    order := [];
    while remaining != {}
      invariant remaining <= sel.Keys
      invariant NoDuplicates(order)
      invariant forall k :: k in order ==> k in sel && k !in remaining
      invariant forall k :: k in sel ==> k in order || k in remaining
      decreases |remaining|
    {
      var k :| k in remaining;
      order := order + [k];
      remaining := remaining - {k};
    }
  }

  /** The product page: the chosen product, its description, the two
      totals and the resolver it drives. */
  class ProductDetails {
    const customise: CustomiseProduct
    var selectedProduct: Option<Product>
    var description: Option<string>
    var totalPrice: int
    var totalFoodValue: Option<FoodValue>

    /** The displayed totals are those of the current product and the
        resolver's current output, whatever the dictionary's order. */
    ghost predicate TotalsCurrent()
      reads this, customise
    {
      forall order :: IsEnumeration(order, customise.Output()) ==>
        totalPrice == TotalPrice(selectedProduct, customise.Output(), order) &&
        totalFoodValue == TotalFoodValue(selectedProduct, customise.Output(), order)
    }

    ghost predicate Valid()
      reads this, customise
    {
      customise.Valid() && TotalsCurrent()
    }

    /** The page opens on a product: the resolver is reset with it. */
    constructor(product: Option<Product>)
      ensures fresh(customise)
      ensures selectedProduct == product
      ensures description == (if product.None? then None else Some(product.value.description))
      ensures customise.groups == Reset.ResetGroups(CompositionGroups(product), [])
      ensures Valid()
    {
      customise := new CustomiseProduct();
      selectedProduct := product;
      description := None;
      totalPrice := 0;
      totalFoodValue := None;
      new;
      customise.DidSelectProduct(product);
      description := if product.None? then None else Some(product.value.description);
      Refresh();
    }

    /** The totals sinks: recompute both totals from the latest pair. */
    method Refresh()
      requires customise.Valid()
      modifies this
      ensures selectedProduct == old(selectedProduct) && description == old(description)
      ensures Valid()
    {
      var sel := customise.Output();
      var order := EnumerateKeys(sel);
      totalPrice := TotalPrice(selectedProduct, sel, order);
      totalFoodValue := TotalFoodValue(selectedProduct, sel, order);
      forall other | IsEnumeration(other, sel)
        ensures totalPrice == TotalPrice(selectedProduct, sel, other) &&
                totalFoodValue == TotalFoodValue(selectedProduct, sel, other)
      {
        TotalsIndependentOfOrder(selectedProduct, sel, order, other);
      }
    }

    /** A product change: forwarded to the resolver as `didSelectProduct`
        (a reset), the description replaced, the totals recomputed. */
    method SelectProduct(product: Option<Product>)
      requires Valid()
      modifies this, customise
      ensures selectedProduct == product
      ensures description == (if product.None? then None else Some(product.value.description))
      ensures customise.groups == Reset.ResetGroups(CompositionGroups(product), old(customise.groups))
      ensures customise.currency == old(customise.currency)
      ensures Valid()
    {
      selectedProduct := product;
      customise.DidSelectProduct(product);
      description := if product.None? then None else Some(product.value.description);
      Refresh();
    }

    /** An ingredient tap in the resolver, followed by the totals update. */
    method SelectIngredient(e: Selection.MutableIngredient)
      requires Valid()
      modifies this, customise
      ensures customise.groups == Events.SelectIngredient(old(customise.groups), e)
      ensures customise.currency == old(customise.currency)
      ensures selectedProduct == old(selectedProduct) && description == old(description)
      ensures Valid()
    {
      customise.DidSelectIngredient(e);
      Refresh();
    }

    /** A tier switch in the resolver, followed by the totals update. */
    method SelectQuantity(q: Selection.MutableQuantity)
      requires Valid()
      modifies this, customise
      ensures customise.groups == Events.SelectQuantity(old(customise.groups), q)
      ensures customise.currency == old(customise.currency)
      ensures selectedProduct == old(selectedProduct) && description == old(description)
      ensures Valid()
    {
      customise.DidSelectQuantity(q);
      Refresh();
    }
  }
}
