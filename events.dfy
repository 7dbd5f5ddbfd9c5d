/** The per-event transforms of the resolver's state (`didSelectGroup`,
    `didSelectIngredient`, `didSelectQuantity`) as functions on the list of
    groups, and the invariant every event keeps. */
module Events {
  import opened Wrappers
  import opened MenuModel
  import opened Selection
  import opened Validity
  import opened Projection
  import opened Reset

  // ---------------------------------------------------------------------
  // The state invariant

  /** What every group of the resolver's state satisfies from the first
      reset on: a None group has nothing selected, its tiers are distinct
      by (name, value), at most one tier is selected, and every member
      carries its first variation at the selected tier's value. */
  predicate WellFormed(g: MutableCompositionGroup)
  {
    (g.group.choiceType == NoChoice ==> forall i :: 0 <= i < |g.ingredients| ==> !g.ingredients[i].isSelected) &&
    TiersDistinct(g.quantities) &&
    SelectedTierCount(g.quantities) <= 1 &&
    forall t, m :: t in g.quantities && t.isSelected && m in g.ingredients ==>
      FirstVariationAt(m.ingredient.quantityVariations, t.quantityValue) == Some(m.quantity)
  }

  /** The validity pass keeps the invariant: it only changes member flags,
      and clears them all in a None group. */
  lemma ValidGroupStateKeepsWellFormed(g: MutableCompositionGroup, hint: Option<MutableIngredient>)
    requires TiersDistinct(g.quantities) && SelectedTierCount(g.quantities) <= 1
    requires forall t, m :: t in g.quantities && t.isSelected && m in g.ingredients ==>
      FirstVariationAt(m.ingredient.quantityVariations, t.quantityValue) == Some(m.quantity)
    ensures WellFormed(ValidGroupState(g, hint))
  {
    var r := ValidGroupState(g, hint);
    forall t, m | t in r.quantities && t.isSelected && m in r.ingredients
      ensures FirstVariationAt(m.ingredient.quantityVariations, t.quantityValue) == Some(m.quantity)
    {
      var i :| 0 <= i < |r.ingredients| && r.ingredients[i] == m;
      assert g.ingredients[i] in g.ingredients;
    }
    if g.group.choiceType == NoChoice {
      NoneLeavesNothingSelected(g, hint);
    }
  }

  /** A freshly built group meets what the validity pass needs to leave it
      well formed: distinct tiers, one of them selected, and members at its
      value. */
  lemma BuiltGroupConsistent(c: Group, fc: Option<string>, prev: map<Ingredient, QuantityVariation>)
    requires BuiltGroup(c, fc, prev).Some?
    ensures var b := BuiltGroup(c, fc, prev).value;
      TiersDistinct(b.quantities) && SelectedTierCount(b.quantities) <= 1 &&
      forall t, m :: t in b.quantities && t.isSelected && m in b.ingredients ==>
        FirstVariationAt(m.ingredient.quantityVariations, t.quantityValue) == Some(m.quantity)
  {
    var b := BuiltGroup(c, fc, prev).value;
    BuiltGroupSpec(c, fc, prev);
    var t0 :| t0 in b.quantities && t0.isSelected &&
      b.ingredients == Members(c.ingredients, t0.quantityValue, prev);
    MembersSpec(c.ingredients, t0.quantityValue, prev);
    forall t, m | t in b.quantities && t.isSelected && m in b.ingredients
      ensures FirstVariationAt(m.ingredient.quantityVariations, t.quantityValue) == Some(m.quantity)
    {
      OnlySelectedTier(b.quantities, t, t0);
      var i :| 0 <= i < |b.ingredients| && b.ingredients[i] == m;
      assert MemberFor(m, OfferingAt(c.ingredients, t0.quantityValue)[i], t0.quantityValue, prev);
    }
  }

  /** Every group a reset produces satisfies the invariant. */
  lemma ResetEstablishesWellFormed(catalog: seq<Group>, current: seq<MutableCompositionGroup>)
    ensures forall r :: r in ResetGroups(catalog, current) ==> WellFormed(r)
  {
    var fc := FocusedCode(current);
    var prev := SelectedIngredients(current);
    ResetGroupsSpec(catalog, current);
    forall r | r in ResetGroups(catalog, current)
      ensures WellFormed(r)
    {
      var c, b :| c in catalog && CandidateTiers(c) != [] &&
        BuiltGroup(c, fc, prev) == Some(b) && r == ValidGroupState(b, None);
      BuiltGroupConsistent(c, fc, prev);
      ValidGroupStateKeepsWellFormed(b, None);
    }
  }

  /** With at most one tier selected, two selected tiers are the same. */
  lemma {:induction false} OnlySelectedTier(ts: seq<MutableQuantity>, t: MutableQuantity, u: MutableQuantity)
    requires SelectedTierCount(ts) <= 1
    requires t in ts && u in ts && t.isSelected && u.isSelected
    ensures t == u
  {
    if ts[0] == t || ts[0] == u {
      if t != u {
        var other := if ts[0] == t then u else t;
        assert other in ts[1..];
        CountOfMember(ts[1..], other);
      }
    } else {
      assert t in ts[1..] && u in ts[1..];
      OnlySelectedTier(ts[1..], t, u);
    }
  }

  lemma {:induction false} CountOfMember(ts: seq<MutableQuantity>, t: MutableQuantity)
    requires t in ts && t.isSelected
    ensures SelectedTierCount(ts) >= 1
  {
    if ts[0] != t {
      CountOfMember(ts[1..], t);
    }
  }

  // ---------------------------------------------------------------------
  // didSelectGroup

  /** The `map` shared by `didSelectGroup` and `didSelectQuantity`: every
      element keeps its place and gets its flag set, by `withFlag`, to
      whether it equals `x`. */
  function Flagged<T(==)>(s: seq<T>, x: T, withFlag: (T, bool) -> T): (r: seq<T>)
    ensures |r| == |s|
    ensures forall i :: 0 <= i < |s| ==> r[i] == withFlag(s[i], s[i] == x)
  {
    seq(|s|, i requires 0 <= i < |s| => withFlag(s[i], s[i] == x))
  }

  function WithFocus(g: MutableCompositionGroup, focused: bool): MutableCompositionGroup
  {
    g.(isSelected := focused)
  }

  function WithTierFlag(t: MutableQuantity, selected: bool): MutableQuantity
  {
    t.(isSelected := selected)
  }

  /** Focus moves to the groups equal to the event's snapshot. */
  function SelectGroup(gs: seq<MutableCompositionGroup>, target: MutableCompositionGroup): (r: seq<MutableCompositionGroup>)
    ensures |r| == |gs|
    ensures forall i :: 0 <= i < |gs| ==> r[i] == gs[i].(isSelected := gs[i] == target)
  {
    Flagged(gs, target, WithFocus)
  }

  /** A group holds the focus afterwards iff it was equal to the event's
      snapshot; nothing but focus changes, so a stale snapshot (one that
      equals no group) leaves no group focused. */
  lemma SelectGroupSpec(gs: seq<MutableCompositionGroup>, target: MutableCompositionGroup)
    ensures forall i :: 0 <= i < |gs| ==>
      (SelectGroup(gs, target)[i].isSelected <==> gs[i] == target) &&
      SelectGroup(gs, target)[i].group == gs[i].group &&
      SelectGroup(gs, target)[i].quantities == gs[i].quantities &&
      SelectGroup(gs, target)[i].ingredients == gs[i].ingredients
    ensures target !in gs ==> forall g :: g in SelectGroup(gs, target) ==> !g.isSelected
    ensures target in gs ==> exists g :: g in SelectGroup(gs, target) && g.isSelected
  {
    var r := SelectGroup(gs, target);
    if target in gs {
      var i :| 0 <= i < |gs| && gs[i] == target;
      assert r[i] in r;
    }
  }

  /** Selecting the group that already holds the focus, when it is the only
      focused one, changes nothing. */
  lemma SelectFocusedGroupIdempotent(gs: seq<MutableCompositionGroup>, k: nat)
    requires k < |gs| && gs[k].isSelected
    requires forall i :: 0 <= i < |gs| && i != k ==> !gs[i].isSelected
    ensures SelectGroup(gs, gs[k]) == gs
  {
    var r := SelectGroup(gs, gs[k]);
    forall i | 0 <= i < |gs|
      ensures r[i] == gs[i]
    {
    }
  }

  /** The invariant does not mention focus: selecting a group keeps it. */
  lemma SelectGroupKeepsWellFormed(gs: seq<MutableCompositionGroup>, target: MutableCompositionGroup)
    requires forall g :: g in gs ==> WellFormed(g)
    ensures forall g :: g in SelectGroup(gs, target) ==> WellFormed(g)
  {
    var r := SelectGroup(gs, target);
    forall g | g in r
      ensures WellFormed(g)
    {
      var i :| 0 <= i < |r| && r[i] == g;
      assert WellFormed(gs[i]);
    }
  }

  // ---------------------------------------------------------------------
  // didSelectIngredient

  /** The event's member with its flag toggled. */
  function Toggled(m: MutableIngredient): MutableIngredient
  {
    m.(isSelected := !m.isSelected)
  }

  /** One group's closure: toggle the first member equal to the event's
      snapshot, then revalidate with the toggled member as the hint; a
      group with no equal member is returned as it is. */
  function SelectIngredientInGroup(g: MutableCompositionGroup, e: MutableIngredient): MutableCompositionGroup
  {
    match FirstIndexOf(g.ingredients, e)
    case None => g
    case Some(i) =>
      var u := g.(ingredients := g.ingredients[i := Toggled(g.ingredients[i])]);
      ValidGroupState(u, Some(u.ingredients[i]))
  }

  /** `didSelectIngredient`: the closure over every group. */
  function SelectIngredient(gs: seq<MutableCompositionGroup>, e: MutableIngredient): (r: seq<MutableCompositionGroup>)
    ensures |r| == |gs|
    ensures forall i :: 0 <= i < |gs| ==> r[i] == SelectIngredientInGroup(gs[i], e)
  {
    seq(|gs|, i requires 0 <= i < |gs| => SelectIngredientInGroup(gs[i], e))
  }

  /** A group with no member equal to the event's snapshot is unchanged, so
      an event from a stale snapshot changes nothing at all. */
  lemma StaleIngredientIsNoOp(gs: seq<MutableCompositionGroup>, e: MutableIngredient)
    requires forall g :: g in gs ==> e !in g.ingredients
    ensures SelectIngredient(gs, e) == gs
  {
    var r := SelectIngredient(gs, e);
    forall i | 0 <= i < |gs|
      ensures r[i] == gs[i]
    {
      assert gs[i] in gs;
    }
  }

  /** The pass touches only member flags: the catalog group, tiers, focus
      and every member's ingredient, variation and availability are kept. */
  lemma SelectIngredientFrame(g: MutableCompositionGroup, e: MutableIngredient)
    ensures var r := SelectIngredientInGroup(g, e);
      r.group == g.group && r.quantities == g.quantities && r.isSelected == g.isSelected &&
      SameMembersUpToSelection(g.ingredients, r.ingredients)
  {
    match FirstIndexOf(g.ingredients, e)
    case None =>
    case Some(i) =>
      var u := g.(ingredients := g.ingredients[i := Toggled(g.ingredients[i])]);
      var r := ValidGroupState(u, Some(u.ingredients[i]));
      assert SameMembersUpToSelection(u.ingredients, r.ingredients);
  }

  /** Tapping a member of a non-empty Single group leaves exactly one member
      selected, and the selected one carries the tapped ingredient and
      variation; tapping the selected member again therefore keeps it. */
  lemma SingleTapSelectsTapped(g: MutableCompositionGroup, e: MutableIngredient)
    requires g.group.choiceType == Single && e in g.ingredients
    ensures SelectedCount(SelectIngredientInGroup(g, e).ingredients) == 1
    ensures exists m :: (m in SelectIngredientInGroup(g, e).ingredients && m.isSelected &&
                         m.ingredient == e.ingredient && m.quantity == e.quantity)
  {
    var i := FirstIndexOf(g.ingredients, e).value;
    var u := g.(ingredients := g.ingredients[i := Toggled(g.ingredients[i])]);
    var hint := Some(u.ingredients[i]);
    var r := ValidGroupState(u, hint);
    SingleSelectsExactlyOne(u, hint);
    var k := FirstIndexOf(u.ingredients, u.ingredients[i]).value;
    SingleSelectsChosenMember(u, hint, k);
    assert r.ingredients[k] in r.ingredients;
  }

  /** Tapping a member of a None group leaves nothing selected. */
  lemma NoneTapSelectsNothing(g: MutableCompositionGroup, e: MutableIngredient)
    requires g.group.choiceType == NoChoice && e in g.ingredients
    ensures SelectedCount(SelectIngredientInGroup(g, e).ingredients) == 0
  {
    var i := FirstIndexOf(g.ingredients, e).value;
    var u := g.(ingredients := g.ingredients[i := Toggled(g.ingredients[i])]);
    NoneLeavesNothingSelected(u, Some(u.ingredients[i]));
  }

  /** Tapping a member of a Multi group: within the cap only the tapped flag
      flips; over the cap the tapped member keeps its new flag and every
      other member is deselected. */
  lemma MultiTap(g: MutableCompositionGroup, e: MutableIngredient, j: nat)
    requires g.group.choiceType == Multi && e in g.ingredients && j < |g.ingredients|
    ensures var i := FirstIndexOf(g.ingredients, e).value;
      var u := g.ingredients[i := Toggled(g.ingredients[i])];
      var r := SelectIngredientInGroup(g, e).ingredients;
      (SelectedQuantity(u) <= g.group.totalQuantityMax ==> r == u) &&
      (SelectedQuantity(u) > g.group.totalQuantityMax ==>
        (r[j].isSelected <==> u[j].isSelected && u[j] == u[i]))
  {
    var i := FirstIndexOf(g.ingredients, e).value;
    var u := g.(ingredients := g.ingredients[i := Toggled(g.ingredients[i])]);
    if SelectedQuantity(u.ingredients) > g.group.totalQuantityMax {
      MultiOverCap(u, Some(u.ingredients[i]), j);
    }
  }

  /** Revalidating after a tap keeps the invariant. */
  lemma SelectIngredientKeepsWellFormed(gs: seq<MutableCompositionGroup>, e: MutableIngredient)
    requires forall g :: g in gs ==> WellFormed(g)
    ensures forall g :: g in SelectIngredient(gs, e) ==> WellFormed(g)
  {
    var r := SelectIngredient(gs, e);
    forall g | g in r
      ensures WellFormed(g)
    {
      var k :| 0 <= k < |r| && r[k] == g;
      var old_ := gs[k];
      assert WellFormed(old_);
      match FirstIndexOf(old_.ingredients, e)
      case None =>
      case Some(i) =>
        var u := old_.(ingredients := old_.ingredients[i := Toggled(old_.ingredients[i])]);
        forall t, m | t in u.quantities && t.isSelected && m in u.ingredients
          ensures FirstVariationAt(m.ingredient.quantityVariations, t.quantityValue) == Some(m.quantity)
        {
          var j :| 0 <= j < |u.ingredients| && u.ingredients[j] == m;
          assert old_.ingredients[j] in old_.ingredients;
        }
        ValidGroupStateKeepsWellFormed(u, Some(u.ingredients[i]));
    }
  }

  // ---------------------------------------------------------------------
  // didSelectQuantity

  /** A member moved to the variation it offers at `value`, if any. */
  function Retiered(m: MutableIngredient, value: int): Option<MutableIngredient>
  {
    match FirstVariationAt(m.ingredient.quantityVariations, value)
    case None => None
    case Some(v) => Some(m.(quantity := v))
  }

  /** The members' `compactMap` of a tier switch. */
  function RetierMembers(ms: seq<MutableIngredient>, value: int): seq<MutableIngredient>
  {
    if ms == [] then []
    else
      var rest := RetierMembers(ms[1..], value);
      match Retiered(ms[0], value)
      case None => rest
      case Some(m) => [m] + rest
  }

  /** One group's closure: an unfocused group is unchanged; a focused one
      has each tier's flag set to whether it equals the chosen tier, and its
      members moved to the chosen value (dropping those that have none). */
  function SelectQuantityInGroup(g: MutableCompositionGroup, q: MutableQuantity): MutableCompositionGroup
  {
    if !g.isSelected then g
    else
      g.(quantities := Flagged(g.quantities, q, WithTierFlag),
         ingredients := RetierMembers(g.ingredients, q.quantityValue))
  }

  /** `didSelectQuantity`: the closure over every group. */
  function SelectQuantity(gs: seq<MutableCompositionGroup>, q: MutableQuantity): (r: seq<MutableCompositionGroup>)
    ensures |r| == |gs|
    ensures forall i :: 0 <= i < |gs| ==> r[i] == SelectQuantityInGroup(gs[i], q)
  {
    seq(|gs|, i requires 0 <= i < |gs| => SelectQuantityInGroup(gs[i], q))
  }

  /** The members that have a variation at `value`, in their order. */
  function OfferingMembers(ms: seq<MutableIngredient>, value: int): (r: seq<MutableIngredient>)
    ensures |r| <= |ms|
    ensures forall m :: m in r <==>
      m in ms && FirstVariationAt(m.ingredient.quantityVariations, value).Some?
  {
    if ms == [] then []
    else
      var rest := OfferingMembers(ms[1..], value);
      assert forall m :: m in ms <==> m == ms[0] || m in ms[1..];
      if FirstVariationAt(ms[0].ingredient.quantityVariations, value).Some? then [ms[0]] + rest
      else rest
  }

  /** The members after a tier switch are, position by position, the old
      members that offer the chosen value, each moved to its first variation
      at that value with its selection and availability kept; the list never
      grows. */
  lemma {:induction false} RetierMembersSpec(ms: seq<MutableIngredient>, value: int)
    ensures |RetierMembers(ms, value)| <= |ms|
    ensures |RetierMembers(ms, value)| == |OfferingMembers(ms, value)|
    ensures forall i :: 0 <= i < |RetierMembers(ms, value)| ==>
      Retiered(OfferingMembers(ms, value)[i], value) == Some(RetierMembers(ms, value)[i])
    ensures forall m' :: m' in RetierMembers(ms, value) <==>
      exists m :: m in ms && Retiered(m, value) == Some(m')
    ensures forall m' :: m' in RetierMembers(ms, value) ==>
      m'.quantity.quantity == value &&
      Some(m'.quantity) == FirstVariationAt(m'.ingredient.quantityVariations, value)
  {
    if ms != [] {
      RetierMembersSpec(ms[1..], value);
      assert forall m :: m in ms <==> m == ms[0] || m in ms[1..];
      var r := RetierMembers(ms, value);
      var o := OfferingMembers(ms, value);
      var rest := RetierMembers(ms[1..], value);
      var orest := OfferingMembers(ms[1..], value);
      if Retiered(ms[0], value).Some? {
        assert r == [Retiered(ms[0], value).value] + rest;
        assert o == [ms[0]] + orest;
        forall i | 0 <= i < |r|
          ensures Retiered(o[i], value) == Some(r[i])
        {
          if i > 0 {
            assert o[i] == orest[i - 1] && r[i] == rest[i - 1];
          }
        }
      } else {
        assert r == rest && o == orest;
      }
    }
  }

  /** A tier switch reaches only the focused groups; in a focused group a
      tier is selected iff it equals the chosen one, names and values of
      the tiers stay, and the catalog group and focus are kept. */
  lemma SelectQuantitySpec(g: MutableCompositionGroup, q: MutableQuantity)
    ensures !g.isSelected ==> SelectQuantityInGroup(g, q) == g
    ensures var r := SelectQuantityInGroup(g, q);
      r.group == g.group && r.isSelected == g.isSelected && |r.quantities| == |g.quantities| &&
      forall i :: 0 <= i < |g.quantities| ==>
        r.quantities[i].quantityName == g.quantities[i].quantityName &&
        r.quantities[i].quantityValue == g.quantities[i].quantityValue &&
        (g.isSelected ==> (r.quantities[i].isSelected <==> g.quantities[i] == q))
    ensures g.isSelected ==> SelectQuantityInGroup(g, q).ingredients == RetierMembers(g.ingredients, q.quantityValue)
  {
  }

  /** The tier switch keeps the invariant (it never revalidates, so this is
      all it keeps: see the Single and Multi witnesses elsewhere). */
  lemma SelectQuantityKeepsWellFormed(gs: seq<MutableCompositionGroup>, q: MutableQuantity)
    requires forall g :: g in gs ==> WellFormed(g)
    ensures forall g :: g in SelectQuantity(gs, q) ==> WellFormed(g)
  {
    var r := SelectQuantity(gs, q);
    forall g | g in r
      ensures WellFormed(g)
    {
      var k :| 0 <= k < |r| && r[k] == g;
      var old_ := gs[k];
      assert WellFormed(old_);
      if old_.isSelected {
        SelectQuantityInGroupKeepsWellFormed(old_, q);
      }
    }
  }

  lemma SelectQuantityInGroupKeepsWellFormed(g: MutableCompositionGroup, q: MutableQuantity)
    requires WellFormed(g) && g.isSelected
    ensures WellFormed(SelectQuantityInGroup(g, q))
  {
    var r := SelectQuantityInGroup(g, q);
    RetierMembersSpec(g.ingredients, q.quantityValue);
    TierFlagsForChoice(g.quantities, q);
    forall t, m | t in r.quantities && t.isSelected && m in r.ingredients
      ensures FirstVariationAt(m.ingredient.quantityVariations, t.quantityValue) == Some(m.quantity)
    {
      var i :| 0 <= i < |r.quantities| && r.quantities[i] == t;
    }
    if g.group.choiceType == NoChoice {
      forall i | 0 <= i < |r.ingredients|
        ensures !r.ingredients[i].isSelected
      {
        assert r.ingredients[i] in r.ingredients;
        var m :| m in g.ingredients && Retiered(m, q.quantityValue) == Some(r.ingredients[i]);
        var j :| 0 <= j < |g.ingredients| && g.ingredients[j] == m;
      }
    }
  }

  /** Setting each tier's flag to "equals the chosen tier" on tiers distinct
      by (name, value) selects at most one. */
  lemma {:induction false} TierFlagsForChoice(ts: seq<MutableQuantity>, q: MutableQuantity)
    requires TiersDistinct(ts)
    ensures TiersDistinct(Flagged(ts, q, WithTierFlag)) && SelectedTierCount(Flagged(ts, q, WithTierFlag)) <= 1
  {
    var r := Flagged(ts, q, WithTierFlag);
    if ts != [] {
      TierFlagsForChoice(ts[1..], q);
      var rest := Flagged(ts[1..], q, WithTierFlag);
      assert r[1..] == rest;
      if ts[0] == q {
        forall i | 0 <= i < |rest|
          ensures !rest[i].isSelected
        {
          assert ts[1 + i] != q;
        }
        NoneSelectedCountsZero(rest);
      }
    }
  }

  lemma {:induction false} NoneSelectedCountsZero(ts: seq<MutableQuantity>)
    requires forall i :: 0 <= i < |ts| ==> !ts[i].isSelected
    ensures SelectedTierCount(ts) == 0
  {
    if ts != [] {
      NoneSelectedCountsZero(ts[1..]);
    }
  }
}
