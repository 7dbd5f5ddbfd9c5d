/** The resolver's second output: every selected member of every group,
    reduced into a dictionary from catalog ingredient to active variation.
    A later group's entry overwrites an earlier one for the same key. */
module Projection {
  import opened Wrappers
  import opened MenuModel
  import opened Selection

  /** `groups.flatMap { $0.ingredients.filter { $0.isSelected } }`. */
  function SelectedMembers(gs: seq<MutableCompositionGroup>): seq<MutableIngredient>
  {
    if gs == [] then [] else SelectedOf(gs[0].ingredients) + SelectedMembers(gs[1..])
  }

  function SelectedOf(ms: seq<MutableIngredient>): (r: seq<MutableIngredient>)
    ensures forall m :: m in r <==> m in ms && m.isSelected
  {
    if ms == [] then [] else (if ms[0].isSelected then [ms[0]] else []) + SelectedOf(ms[1..])
  }

  /** `reduce(into: [:]) { $0[$1.ingredient] = $1.quantity }`. */
  function ToDictionary(ms: seq<MutableIngredient>): map<Ingredient, QuantityVariation>
    decreases |ms|
  {
    if ms == [] then map[]
    else ToDictionary(ms[..|ms| - 1])[ms[|ms| - 1].ingredient := ms[|ms| - 1].quantity]
  }

  /** The selected-ingredients output. */
  function SelectedIngredients(gs: seq<MutableCompositionGroup>): map<Ingredient, QuantityVariation>
  {
    ToDictionary(SelectedMembers(gs))
  }

  lemma {:induction false} SelectedMembersIn(gs: seq<MutableCompositionGroup>, m: MutableIngredient)
    ensures m in SelectedMembers(gs) <==>
      m.isSelected && exists g :: g in gs && m in g.ingredients
  {
    if gs != [] {
      SelectedMembersIn(gs[1..], m);
      assert forall g :: g in gs <==> g == gs[0] || g in gs[1..];
    }
  }

  /** The dictionary holds exactly the members' ingredients, each mapped to
      the variation of the LAST member carrying it. */
  lemma {:induction false} ToDictionaryEntries(ms: seq<MutableIngredient>, k: Ingredient)
    ensures k in ToDictionary(ms) <==> exists i :: 0 <= i < |ms| && ms[i].ingredient == k
    ensures k in ToDictionary(ms) ==>
      exists i :: 0 <= i < |ms| && ms[i].ingredient == k && ms[i].quantity == ToDictionary(ms)[k] &&
        forall j :: i < j < |ms| ==> ms[j].ingredient != k
    decreases |ms|
  {
    if ms != [] {
      var n := |ms| - 1;
      var init := ms[..n];
      ToDictionaryEntries(init, k);
      if ms[n].ingredient != k {
        if k in ToDictionary(init) {
          var i :| 0 <= i < |init| && init[i].ingredient == k && init[i].quantity == ToDictionary(init)[k] &&
            forall j :: i < j < |init| ==> init[j].ingredient != k;
          assert ms[i] == init[i];
        }
        if exists i :: 0 <= i < |ms| && ms[i].ingredient == k {
          var i :| 0 <= i < |ms| && ms[i].ingredient == k;
          assert init[i] == ms[i];
        }
      }
    }
  }

  /** A catalog ingredient is a key of the output iff some group has a
      selected member carrying it, and it maps to the active variation of
      such a member. Members that are not selected contribute nothing. */
  lemma SelectedIngredientsSpec(gs: seq<MutableCompositionGroup>, k: Ingredient)
    ensures k in SelectedIngredients(gs) <==>
      exists g, m :: g in gs && m in g.ingredients && m.isSelected && m.ingredient == k
    ensures k in SelectedIngredients(gs) ==>
      exists g, m :: g in gs && m in g.ingredients && m.isSelected && m.ingredient == k &&
        m.quantity == SelectedIngredients(gs)[k]
  {
    var ms := SelectedMembers(gs);
    ToDictionaryEntries(ms, k);
    if k in SelectedIngredients(gs) {
      var i :| 0 <= i < |ms| && ms[i].ingredient == k && ms[i].quantity == ToDictionary(ms)[k];
      SelectedMembersIn(gs, ms[i]);
    }
    if exists g, m :: g in gs && m in g.ingredients && m.isSelected && m.ingredient == k {
      var g, m :| g in gs && m in g.ingredients && m.isSelected && m.ingredient == k;
      SelectedMembersIn(gs, m);
      var i :| 0 <= i < |ms| && ms[i] == m;
    }
  }
}
