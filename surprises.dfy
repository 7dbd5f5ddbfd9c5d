/** Small concrete catalogs that show the resolver's less obvious
    behaviour. Each lemma evaluates the model on one of them. */
module Surprises {
  import opened Wrappers
  import opened MenuModel
  import opened Selection
  import opened Validity
  import opened Reset
  import opened Events

  const NoFood: FoodValue := FoodValue(None, None, None, None, None)

  function Variation(name: string, quantity: int): QuantityVariation
  {
    QuantityVariation(name, quantity, 0, NoFood)
  }

  function Offering(id: string, vs: seq<QuantityVariation>): Ingredient
  {
    Ingredient(id, 0, id, None, "", [], 0, vs, "", None, None)
  }

  function CatalogGroup(choice: ChoiceType, max: int, ings: seq<Ingredient>): Group
  {
    Group("G", "Group", choice, 0, max, ings)
  }

  const Small: QuantityVariation := Variation("S", 1)
  const Large: QuantityVariation := Variation("L", 2)

  // ---------------------------------------------------------------------
  // Tiers

  /** Tiers are compared as whole values (name, value and flag), so two
      variation names at one value give two tiers. */
  lemma TiersSplitByName()
    ensures var ts := CandidateTiers(CatalogGroup(Single, 1, [Offering("A", [Variation("S", 1), Variation("Small", 1)])]));
      |ts| == 2 && ts[0].quantityValue == 1 && ts[1].quantityValue == 1 && ts[0] != ts[1]
  {
    var ing := Offering("A", [Variation("S", 1), Variation("Small", 1)]);
    var all := [MutableQuantity("S", 1, false), MutableQuantity("Small", 1, false)];
    assert AllTiers([ing]) == TiersOf(ing) + AllTiers([]);
    assert AllTiers([ing]) == all;
    assert all[..1] == [all[0]];
    assert Dedup(all[..1]) == [all[0]];
    assert all[0] != all[1];
    assert Dedup(all) == all;
  }

  /** Zero-value tiers are filtered out only when there is more than one
      tier, so a group whose only tier has value 0 keeps it and survives
      the reset. */
  lemma LoneZeroTierKept()
    ensures var g := CatalogGroup(Multi, 1, [Offering("A", [Variation("none", 0)])]);
      CandidateTiers(g) == [MutableQuantity("none", 0, false)] && BuiltGroup(g, None, map[]).Some?
  {
    var ing := Offering("A", [Variation("none", 0)]);
    assert AllTiers([ing]) == TiersOf(ing) + AllTiers([]);
    assert AllTiers([ing]) == [MutableQuantity("none", 0, false)];
  }

  // ---------------------------------------------------------------------
  // Multi over its cap

  /** The selected quantity of a list, one member at a time. */
  lemma SelectedQuantityCons(m: MutableIngredient, rest: seq<MutableIngredient>)
    ensures SelectedQuantity([m] + rest) == (if m.isSelected then m.quantity.quantity else 0) + SelectedQuantity(rest)
  {
    assert ([m] + rest)[1..] == rest;
  }

  function Member(id: string, v: QuantityVariation, selected: bool): MutableIngredient
  {
    MutableIngredient(Offering(id, [v]), v, selected, true)
  }

  /** A Multi group capped at 2 whose three members each weigh 1, with the
      first two selected. */
  function ThreeOfTwo(): MutableCompositionGroup
  {
    MutableCompositionGroup(
      CatalogGroup(Multi, 2, [Offering("I1", [Small]), Offering("I2", [Small]), Offering("I3", [Small])]),
      [MutableQuantity("S", 1, true)],
      [Member("I1", Small, true), Member("I2", Small, true), Member("I3", Small, false)],
      true)
  }

  /** The starting state is one the resolver can hold. */
  lemma ThreeOfTwoWellFormed()
    ensures WellFormed(ThreeOfTwo()) && SelectedQuantity(ThreeOfTwo().ingredients) == 2
  {
    var ms := ThreeOfTwo().ingredients;
    assert TiersDistinct(ThreeOfTwo().quantities);
    SelectedQuantityCons(ms[2], []);
    assert [ms[2]] + [] == [ms[2]];
    SelectedQuantityCons(ms[1], [ms[2]]);
    assert [ms[1]] + [ms[2]] == ms[1..];
    SelectedQuantityCons(ms[0], ms[1..]);
    assert [ms[0]] + ms[1..] == ms;
  }

  /** The Multi loop tests the input group's total, which no iteration
      lowers, so tapping I3 over the cap clears every selected member but
      the tapped one: I1 and I2 are both deselected. */
  lemma ThirdTapKeepsOnlyTapped()
    ensures SelectIngredientInGroup(ThreeOfTwo(), Member("I3", Small, false)).ingredients ==
      [Member("I1", Small, false), Member("I2", Small, false), Member("I3", Small, true)]
  {
    var g := ThreeOfTwo();
    var e := Member("I3", Small, false);
    assert "I1" != "I3" by { assert "I1"[1] != "I3"[1]; }
    assert "I2" != "I3" by { assert "I2"[1] != "I3"[1]; }
    assert FirstIndexOf(g.ingredients, e) == Some(2);
    var ms := [Member("I1", Small, true), Member("I2", Small, true), Member("I3", Small, true)];
    assert g.ingredients[2 := Toggled(g.ingredients[2])] == ms;
    SelectedQuantityCons(ms[2], []);
    assert [ms[2]] + [] == [ms[2]];
    SelectedQuantityCons(ms[1], [ms[2]]);
    assert [ms[1]] + [ms[2]] == ms[1..];
    SelectedQuantityCons(ms[0], ms[1..]);
    assert [ms[0]] + ms[1..] == ms;
    assert SelectedQuantity(ms) == 3;
  }

  // ---------------------------------------------------------------------
  // Tier switches skip the validity pass

  function Offering2(id: string): Ingredient
  {
    Offering(id, [Small, Large])
  }

  /** A focused Single group on tier S: X offers S and L, Y only S, and Y
      is the selected member. */
  function SingleOnSmall(): MutableCompositionGroup
  {
    MutableCompositionGroup(
      CatalogGroup(Single, 1, [Offering2("X"), Offering("Y", [Small])]),
      [MutableQuantity("S", 1, true), MutableQuantity("L", 2, false)],
      [MutableIngredient(Offering2("X"), Small, false, true), MutableIngredient(Offering("Y", [Small]), Small, true, true)],
      true)
  }

  /** `didSelectQuantity` runs no validity pass: switching to L drops Y,
      the selected member, and leaves the non-empty Single group with no
      member selected. */
  lemma TierSwitchEmptiesSingle()
    ensures WellFormed(SingleOnSmall())
    ensures var r := SelectQuantityInGroup(SingleOnSmall(), MutableQuantity("L", 2, false));
      |r.ingredients| == 1 && SelectedCount(r.ingredients) == 0
  {
    var g := SingleOnSmall();
    assert TiersDistinct(g.quantities);
    assert SelectedTierCount(g.quantities) == 1;
    var r := RetierMembers(g.ingredients, 2);
    assert Retiered(g.ingredients[1], 2).None?;
    assert RetierMembers(g.ingredients[1..], 2) == [];
    assert Retiered(g.ingredients[0], 2) == Some(g.ingredients[0].(quantity := Large));
    assert r == [g.ingredients[0].(quantity := Large)];
  }

  /** A focused Multi group capped at 2 on tier S, with X and Y (both
      offering S and L) selected: a total of 2. */
  function MultiOnSmall(): MutableCompositionGroup
  {
    MutableCompositionGroup(
      CatalogGroup(Multi, 2, [Offering2("X"), Offering2("Y")]),
      [MutableQuantity("S", 1, true), MutableQuantity("L", 2, false)],
      [MutableIngredient(Offering2("X"), Small, true, true), MutableIngredient(Offering2("Y"), Small, true, true)],
      true)
  }

  /** `didSelectQuantity` runs no validity pass: switching to L doubles
      the selected total to 4, over the cap of 2. */
  lemma TierSwitchExceedsCap()
    ensures WellFormed(MultiOnSmall()) && SelectedQuantity(MultiOnSmall().ingredients) == 2
    ensures var r := SelectQuantityInGroup(MultiOnSmall(), MutableQuantity("L", 2, false));
      SelectedQuantity(r.ingredients) == 4 && SelectedQuantity(r.ingredients) > r.group.totalQuantityMax
  {
    var g := MultiOnSmall();
    assert TiersDistinct(g.quantities);
    assert SelectedTierCount(g.quantities) == 1;
    var r := RetierMembers(g.ingredients, 2);
    assert RetierMembers(g.ingredients[1..], 2) == [g.ingredients[1].(quantity := Large)];
    assert r == [g.ingredients[0].(quantity := Large), g.ingredients[1].(quantity := Large)];
  }
}
