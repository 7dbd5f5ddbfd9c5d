/** `CustomiseProductViewModel`: the resolver object. Its state is the list
    of groups (the value held by `groupsSubject`) and the currency; each
    input event is a method that replaces the list, proved equal to the
    event's transform and to keep the state invariant. The cell texts of
    a group and of a member are functions of that state. */
module Customise {
  import opened Wrappers
  import opened MenuModel
  import opened Selection
  import opened Validity
  import opened Projection
  import opened Reset
  import opened Events
  import opened Decimal

  /** `GetChain.Currency`. */
  datatype Currency = Currency(id: int, isoCode: int, isoAlpha3: string)

  class CustomiseProduct {
    /** The groups currently published. */
    var groups: seq<MutableCompositionGroup>
    /** The last currency received; every member displays its ISO code. */
    var currency: Option<Currency>

    ghost predicate Valid()
      reads this
    {
      forall g :: g in groups ==> WellFormed(g)
    }

    constructor()
      ensures groups == [] && currency == None
      ensures Valid()
    {
      groups := [];
      currency := None;
    }

    /** The selected-ingredients output for the current groups. */
    function Output(): map<Ingredient, QuantityVariation>
      reads this
    {
      SelectedIngredients(groups)
    }

    /** `currency?.isoAlpha3`: what each member carries as its currency. */
    function CurrencyCode(): Option<string>
      reads this
    {
      match currency
      case None => None
      case Some(c) => Some(c.isoAlpha3)
    }

    /** `reset(withGroups:)`. The focus and the previous selection it
        carries over are read from the groups it replaces. */
    method Reset(catalog: seq<Group>)
      modifies this
      ensures groups == ResetGroups(catalog, old(groups))
      ensures currency == old(currency)
      ensures Valid()
    {
      ResetEstablishesWellFormed(catalog, groups);
      groups := ResetState(catalog, groups);
    }

    /** `.didSelectProduct(product)`: a reset with the product's composition
        groups, or with none. */
    method DidSelectProduct(product: Option<Product>)
      modifies this
      ensures groups == ResetGroups(CompositionGroups(product), old(groups))
      ensures currency == old(currency)
      ensures Valid()
    {
      Reset(CompositionGroups(product));
    }

    /** `didSelectGroup`. */
    method DidSelectGroup(target: MutableCompositionGroup)
      requires Valid()
      modifies this
      ensures groups == SelectGroup(old(groups), target)
      ensures currency == old(currency)
      ensures Valid()
    {
      var current := groups;
      var updated: seq<MutableCompositionGroup> := [];
      for k := 0 to |current|
        invariant |updated| == k
        invariant forall j :: 0 <= j < k ==> updated[j] == current[j].(isSelected := current[j] == target)
      {
        var g := current[k];
        updated := updated + [g.(isSelected := g == target)];
      }
      SelectGroupKeepsWellFormed(groups, target);
      groups := updated;
    }

    /** `didSelectIngredient`: per group, find the first equal member,
        toggle it and run the validity pass with it as the hint. */
    method DidSelectIngredient(e: MutableIngredient)
      requires Valid()
      modifies this
      ensures groups == SelectIngredient(old(groups), e)
      ensures currency == old(currency)
      ensures Valid()
    {
      var current := groups;
      var updated: seq<MutableCompositionGroup> := [];
      for k := 0 to |current|
        invariant |updated| == k
        invariant forall j :: 0 <= j < k ==> updated[j] == SelectIngredientInGroup(current[j], e)
        invariant groups == current && currency == old(currency)
      {
        var g := current[k];
        var found := FirstIndexOf(g.ingredients, e);
        if found.None? {
          updated := updated + [g];
        } else {
          var i := found.value;
          var u := g.(ingredients := g.ingredients[i := Toggled(g.ingredients[i])]);
          var valid;
          ghost var rounds;
          valid, rounds := BuildValidGroupState(u, Some(u.ingredients[i]));
          updated := updated + [valid];
        }
      }
      SelectIngredientKeepsWellFormed(groups, e);
      groups := updated;
    }

    /** `didSelectQuantity`: only focused groups change; no validity pass. */
    method DidSelectQuantity(q: MutableQuantity)
      requires Valid()
      modifies this
      ensures groups == SelectQuantity(old(groups), q)
      ensures currency == old(currency)
      ensures Valid()
    {
      var current := groups;
      var updated: seq<MutableCompositionGroup> := [];
      for k := 0 to |current|
        invariant |updated| == k
        invariant forall j :: 0 <= j < k ==> updated[j] == SelectQuantityInGroup(current[j], q)
      {
        var g := current[k];
        if g.isSelected {
          g := g.(quantities := Flagged(g.quantities, q, WithTierFlag),
                  ingredients := RetierMembers(g.ingredients, q.quantityValue));
        }
        updated := updated + [g];
      }
      SelectQuantityKeepsWellFormed(groups, q);
      groups := updated;
    }

    /** `.didReceiveCurrency(currency)`: the currency is stored and every
        member takes its code; the code takes no part in a member's
        equality, so the groups compare equal to what they were. */
    method DidReceiveCurrency(c: Option<Currency>)
      requires Valid()
      modifies this
      ensures currency == c
      ensures groups == old(groups)
      ensures Valid()
    {
      currency := c;
    }
  }

  // ---------------------------------------------------------------------
  // Cell texts

  /** The selected members of a group, in order. */
  lemma {:induction false} SelectedOfCount(ms: seq<MutableIngredient>)
    ensures |SelectedOf(ms)| == SelectedCount(ms)
  {
    if ms != [] {
      SelectedOfCount(ms[1..]);
    }
  }

  /** `MutableCompositionGroup.localizedTitle`: the selected member's
      ingredient name when exactly one member is selected, otherwise the
      group's name. */
  function LocalizedTitle(g: MutableCompositionGroup): (r: string)
    ensures SelectedCount(g.ingredients) == 1 ==>
      exists m :: m in g.ingredients && m.isSelected && r == m.ingredient.name
    ensures SelectedCount(g.ingredients) != 1 ==> r == g.group.name
  {
    var selected := SelectedOf(g.ingredients);
    SelectedOfCount(g.ingredients);
    if |selected| == 1 then
      assert selected[0] in selected;
      selected[0].ingredient.name
    else g.group.name
  }

  /** The summed price of the selected members. */
  function SelectedPrice(ms: seq<MutableIngredient>): int
  {
    SumOf(ms, (m: MutableIngredient) => if m.isSelected then m.quantity.price else 0)
  }

  /** `MutableCompositionGroup.localizedPrice`: empty unless the selected
      members' prices sum to more than zero; then the first member's
      currency code, a space and the sum. */
  function LocalizedPrice(g: MutableCompositionGroup, currencyCode: Option<string>): (r: string)
    ensures r == "" <==> SelectedPrice(g.ingredients) <= 0
  {
    var code := if g.ingredients == [] then "" else currencyCode.GetOr("");
    var groupPrice := SelectedPrice(g.ingredients);
    if groupPrice > 0 then code + " " + DecimalString(groupPrice) else ""
  }

  /** A non-empty price text ends in a space and the sum, which reads back
      as the selected members' total price. */
  lemma LocalizedPriceShowsTotal(g: MutableCompositionGroup, currencyCode: Option<string>)
    requires SelectedPrice(g.ingredients) > 0
    ensures var r := LocalizedPrice(g, currencyCode);
      var d := DecimalString(SelectedPrice(g.ingredients));
      |r| > |d| && r[|r| - |d| - 1] == ' ' && IsDecimal(r[|r| - |d|..]) &&
      ParseDecimal(r[|r| - |d|..]) == SelectedPrice(g.ingredients)
  {
    var p := SelectedPrice(g.ingredients);
    var r := LocalizedPrice(g, currencyCode);
    var d := DecimalString(p);
    DecimalRoundTrip(p);
    assert r[|r| - |d|..] == d;
  }

  /** `MutableIngredient.localizedSubtitle`: "+", the code, a space and the
      price when the price is positive; otherwise the code and " 0". */
  function LocalizedSubtitle(m: MutableIngredient, currencyCode: Option<string>): (r: string)
    ensures m.quantity.price > 0 ==> |r| >= 1 && r[0] == '+'
    ensures m.quantity.price <= 0 ==> |r| >= 2 && r[|r| - 2..] == " 0"
  {
    var code := currencyCode.GetOr("");
    if m.quantity.price > 0 then "+" + code + " " + DecimalString(m.quantity.price)
    else code + " 0"
  }

  /** A positive subtitle reads back as the member's price. */
  lemma LocalizedSubtitleShowsPrice(m: MutableIngredient, currencyCode: Option<string>)
    requires m.quantity.price > 0
    ensures var r := LocalizedSubtitle(m, currencyCode);
      var d := DecimalString(m.quantity.price);
      |r| > |d| && IsDecimal(r[|r| - |d|..]) && ParseDecimal(r[|r| - |d|..]) == m.quantity.price
  {
    var r := LocalizedSubtitle(m, currencyCode);
    var d := DecimalString(m.quantity.price);
    DecimalRoundTrip(m.quantity.price);
    assert r[|r| - |d|..] == d;
  }
}
