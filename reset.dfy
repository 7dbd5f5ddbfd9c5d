/** `reset(withGroups:)`: the selection state rebuilt from a product's
    catalog groups, carrying over what can be carried over from the state
    it replaces (the focused group's code, the selected ingredients). */
module Reset {
  import opened Wrappers
  import opened MenuModel
  import opened Selection
  import opened Validity
  import opened Projection

  // ---------------------------------------------------------------------
  // Tiers

  /** One unselected tier per variation of an ingredient. */
  function TiersOf(ing: Ingredient): (r: seq<MutableQuantity>)
    ensures |r| == |ing.quantityVariations|
    ensures forall i :: 0 <= i < |r| ==>
      r[i] == MutableQuantity(ing.quantityVariations[i].name, ing.quantityVariations[i].quantity, false)
  {
    var vs := ing.quantityVariations;
    seq(|vs|, i requires 0 <= i < |vs| => MutableQuantity(vs[i].name, vs[i].quantity, false))
  }

  /** `ingredients.flatMap { $0.quantityVariations }.map { MutableQuantity(..., isSelected: false) }`. */
  function AllTiers(ings: seq<Ingredient>): seq<MutableQuantity>
  {
    if ings == [] then [] else TiersOf(ings[0]) + AllTiers(ings[1..])
  }

  /** Which tiers the flattened list holds: one per variation of a member. */
  lemma {:induction false} AllTiersIn(ings: seq<Ingredient>, t: MutableQuantity)
    ensures t in AllTiers(ings) <==>
      !t.isSelected &&
      exists ing, v :: (ing in ings && v in ing.quantityVariations &&
                        t.quantityName == v.name && t.quantityValue == v.quantity)
  {
    if ings != [] {
      AllTiersIn(ings[1..], t);
      assert forall x :: x in ings <==> x == ings[0] || x in ings[1..];
      var vs := ings[0].quantityVariations;
      if t in TiersOf(ings[0]) {
        var i :| 0 <= i < |vs| && TiersOf(ings[0])[i] == t;
        assert vs[i] in vs;
      }
      if !t.isSelected && exists v :: v in vs && t.quantityName == v.name && t.quantityValue == v.quantity {
        var v :| v in vs && t.quantityName == v.name && t.quantityValue == v.quantity;
        var i :| 0 <= i < |vs| && vs[i] == v;
        assert TiersOf(ings[0])[i] == t;
      }
    }
  }

  /** The source's `forEach` that appends a tier unless an equal one is
      already present, as a function of the list it walks. */
  function Dedup(xs: seq<MutableQuantity>): seq<MutableQuantity>
    decreases |xs|
  {
    if xs == [] then []
    else
      var r := Dedup(xs[..|xs| - 1]);
      var x := xs[|xs| - 1];
      if x in r then r else r + [x]
  }

  /** Position of the first occurrence of `x` in `xs`. */
  function FirstSeen(xs: seq<MutableQuantity>, x: MutableQuantity): nat
    requires x in xs
  {
    FirstIndexOf(xs, x).value
  }

  lemma FirstSeenInPrefix(init: seq<MutableQuantity>, x: MutableQuantity, y: MutableQuantity)
    requires y in init
    ensures y in init + [x] && FirstSeen(init + [x], y) == FirstSeen(init, y)
  {
    var s := init + [x];
    var p := FirstSeen(s, y);
    var q := FirstSeen(init, y);
    assert s[q] == y;
  }

  /** De-duplication keeps one copy of each element, nothing else, in the
      order of first appearance. */
  lemma {:induction false} DedupSpec(xs: seq<MutableQuantity>)
    ensures NoDuplicates(Dedup(xs))
    ensures forall x :: x in Dedup(xs) <==> x in xs
    ensures forall i, j :: 0 <= i < j < |Dedup(xs)| ==>
              FirstSeen(xs, Dedup(xs)[i]) < FirstSeen(xs, Dedup(xs)[j])
    decreases |xs|
  {
    if xs != [] {
      var n := |xs| - 1;
      var init := xs[..n];
      var x := xs[n];
      assert xs == init + [x];
      DedupSpec(init);
      var r0 := Dedup(init);
      forall y | y in r0
        ensures FirstSeen(xs, y) == FirstSeen(init, y)
      {
        FirstSeenInPrefix(init, x, y);
      }
      if x !in r0 {
        assert x !in init;
        assert FirstSeen(xs, x) == n;
        forall y | y in r0
          ensures FirstSeen(init, y) < n
        {
        }
      }
    }
  }

  /** `filter { $0.quantityValue > 0 }`. */
  function PositiveTiers(ts: seq<MutableQuantity>): (r: seq<MutableQuantity>)
    ensures forall t :: t in r <==> t in ts && t.quantityValue > 0
    ensures NoDuplicates(ts) ==> NoDuplicates(r)
  {
    if ts == [] then []
    else
      var rest := PositiveTiers(ts[1..]);
      assert NoDuplicates(ts) ==> NoDuplicates(ts[1..]) && ts[0] !in ts[1..];
      if ts[0].quantityValue > 0 then [ts[0]] + rest else rest
  }

  /** In a list without duplicates an element is first seen where it is. */
  lemma FirstSeenOfDistinct(ts: seq<MutableQuantity>, k: nat)
    requires NoDuplicates(ts) && k < |ts|
    ensures FirstSeen(ts, ts[k]) == k
  {
  }

  /** Without duplicates, dropping the head shifts every later element's
      first position down by one. */
  lemma FirstSeenInTail(ts: seq<MutableQuantity>, y: MutableQuantity)
    requires NoDuplicates(ts) && |ts| > 0 && y in ts[1..]
    ensures FirstSeen(ts, y) == 1 + FirstSeen(ts[1..], y)
  {
    var k := FirstSeen(ts[1..], y);
    assert ts[1..][k] == ts[k + 1];
    FirstSeenOfDistinct(ts, k + 1);
  }

  /** The head of a list without duplicates is first seen before any later element. */
  lemma HeadSeenFirst(ts: seq<MutableQuantity>, y: MutableQuantity)
    requires NoDuplicates(ts) && |ts| > 0 && y in ts[1..]
    ensures FirstSeen(ts, ts[0]) < FirstSeen(ts, y)
  {
    FirstSeenInTail(ts, y);
    FirstSeenOfDistinct(ts, 0);
  }

  /** Order of first sightings in the tail carries over to the whole list. */
  lemma TailOrderKept(ts: seq<MutableQuantity>, x: MutableQuantity, y: MutableQuantity)
    requires NoDuplicates(ts) && |ts| > 0 && x in ts[1..] && y in ts[1..]
    requires FirstSeen(ts[1..], x) < FirstSeen(ts[1..], y)
    ensures FirstSeen(ts, x) < FirstSeen(ts, y)
  {
    FirstSeenInTail(ts, x);
    FirstSeenInTail(ts, y);
  }

  /** Keeping the head in front of an order-kept selection of the tail
      keeps the order. */
  lemma KeptWithHead(ts: seq<MutableQuantity>, rest: seq<MutableQuantity>)
    requires NoDuplicates(ts) && |ts| > 0
    requires forall t :: t in rest ==> t in ts[1..] && t in ts
    requires forall i, j :: 0 <= i < j < |rest| ==> FirstSeen(ts[1..], rest[i]) < FirstSeen(ts[1..], rest[j])
    ensures forall i, j :: 0 <= i < j < |[ts[0]] + rest| ==>
              FirstSeen(ts, ([ts[0]] + rest)[i]) < FirstSeen(ts, ([ts[0]] + rest)[j])
  {
    var r := [ts[0]] + rest;
    assert forall k :: 1 <= k < |r| ==> r[k] == rest[k - 1];
    forall j | 0 < j < |r|
      ensures FirstSeen(ts, r[0]) < FirstSeen(ts, r[j])
    {
      HeadSeenFirst(ts, rest[j - 1]);
    }
    forall i, j | 0 < i < j < |r|
      ensures FirstSeen(ts, r[i]) < FirstSeen(ts, r[j])
    {
      TailOrderKept(ts, rest[i - 1], rest[j - 1]);
    }
  }

  /** An order-kept selection of the tail is order-kept in the whole list. */
  lemma KeptWithoutHead(ts: seq<MutableQuantity>, rest: seq<MutableQuantity>)
    requires NoDuplicates(ts) && |ts| > 0
    requires forall t :: t in rest ==> t in ts[1..] && t in ts
    requires forall i, j :: 0 <= i < j < |rest| ==> FirstSeen(ts[1..], rest[i]) < FirstSeen(ts[1..], rest[j])
    ensures forall i, j :: 0 <= i < j < |rest| ==> FirstSeen(ts, rest[i]) < FirstSeen(ts, rest[j])
  {
    forall i, j | 0 <= i < j < |rest|
      ensures FirstSeen(ts, rest[i]) < FirstSeen(ts, rest[j])
    {
      TailOrderKept(ts, rest[i], rest[j]);
    }
  }

  /** The filter keeps the order of the tiers it keeps. */
  lemma {:induction false} PositiveTiersOrder(ts: seq<MutableQuantity>)
    requires NoDuplicates(ts)
    ensures forall t :: t in PositiveTiers(ts) ==> t in ts
    ensures forall i, j :: 0 <= i < j < |PositiveTiers(ts)| ==>
              FirstSeen(ts, PositiveTiers(ts)[i]) < FirstSeen(ts, PositiveTiers(ts)[j])
  {
    if ts != [] {
      assert NoDuplicates(ts[1..]);
      PositiveTiersOrder(ts[1..]);
      if ts[0].quantityValue > 0 {
        KeptWithHead(ts, PositiveTiers(ts[1..]));
      } else {
        KeptWithoutHead(ts, PositiveTiers(ts[1..]));
      }
    }
  }

  /** The tiers a group offers: variations de-duplicated by full value
      (name, value and the still-false flag), then, if more than one is
      left, only those with a positive value. */
  function CandidateTiers(group: Group): seq<MutableQuantity>
  {
    var unique := Dedup(AllTiers(group.ingredients));
    if |unique| > 1 then PositiveTiers(unique) else unique
  }

  /** No two tiers share both name and value. */
  predicate TiersDistinct(ts: seq<MutableQuantity>)
  {
    forall i, j :: 0 <= i < j < |ts| ==>
      ts[i].quantityName != ts[j].quantityName || ts[i].quantityValue != ts[j].quantityValue
  }

  /** The candidate tiers are unselected, distinct by (name, value), offered
      by some member, and cover every (name, value) a member offers unless
      the zero filter removed it. */
  lemma CandidateTiersSpec(group: Group)
    ensures TiersDistinct(CandidateTiers(group))
    ensures forall t :: t in CandidateTiers(group) ==> !t.isSelected
    ensures forall t :: t in CandidateTiers(group) <==>
      t in AllTiers(group.ingredients) && (|Dedup(AllTiers(group.ingredients))| > 1 ==> t.quantityValue > 0)
    ensures |CandidateTiers(group)| > 1 ==> forall t :: t in CandidateTiers(group) ==> t.quantityValue > 0
    ensures AllTiers(group.ingredients) == [] ==> CandidateTiers(group) == []
  {
    var all := AllTiers(group.ingredients);
    DedupSpec(all);
    var c := CandidateTiers(group);
    forall t | t in all
      ensures !t.isSelected
    {
      AllTiersIn(group.ingredients, t);
    }
    assert NoDuplicates(c);
    forall i, j | 0 <= i < j < |c|
      ensures c[i].quantityName != c[j].quantityName || c[i].quantityValue != c[j].quantityValue
    {
      assert c[i] in all && c[j] in all;
    }
  }

  /** The candidate tiers keep the order in which the members' variations
      first list them, so tier 0 is the first one listed that survives. */
  lemma CandidateTiersOrder(group: Group)
    ensures forall t :: t in CandidateTiers(group) ==> t in AllTiers(group.ingredients)
    ensures forall i, j :: 0 <= i < j < |CandidateTiers(group)| ==>
      FirstSeen(AllTiers(group.ingredients), CandidateTiers(group)[i]) <
      FirstSeen(AllTiers(group.ingredients), CandidateTiers(group)[j])
  {
    var all := AllTiers(group.ingredients);
    DedupSpec(all);
    var unique := Dedup(all);
    var c := CandidateTiers(group);
    if |unique| > 1 {
      PositiveTiersOrder(unique);
      forall i, j | 0 <= i < j < |c|
        ensures FirstSeen(all, c[i]) < FirstSeen(all, c[j])
      {
        var a := FirstSeen(unique, c[i]);
        var b := FirstSeen(unique, c[j]);
        assert unique[a] == c[i] && unique[b] == c[j];
      }
    }
  }

  // ---------------------------------------------------------------------
  // Members

  /** Whether an ingredient with this id was selected anywhere before the
      reset (`selectedIngredients.contains { $0.key.id == ingredient.id }`). */
  predicate PreviouslySelected(ing: Ingredient, prev: map<Ingredient, QuantityVariation>)
  {
    exists k :: k in prev && k.id == ing.id
  }

  /** A catalog ingredient's member at a tier value, if it offers one. */
  function MemberAt(ing: Ingredient, value: int, prev: map<Ingredient, QuantityVariation>): Option<MutableIngredient>
  {
    match FirstVariationAt(ing.quantityVariations, value)
    case None => None
    case Some(v) => Some(MutableIngredient(ing, v, PreviouslySelected(ing, prev), true))
  }

  /** The `compactMap` that builds a group's members. */
  function Members(ings: seq<Ingredient>, value: int, prev: map<Ingredient, QuantityVariation>): seq<MutableIngredient>
  {
    if ings == [] then []
    else
      var rest := Members(ings[1..], value, prev);
      match MemberAt(ings[0], value, prev)
      case None => rest
      case Some(m) => [m] + rest
  }

  /** The catalog ingredients that offer a variation at `value`, in catalog order. */
  function OfferingAt(ings: seq<Ingredient>, value: int): seq<Ingredient>
  {
    if ings == [] then []
    else
      var rest := OfferingAt(ings[1..], value);
      if FirstVariationAt(ings[0].quantityVariations, value).Some? then [ings[0]] + rest else rest
  }

  /** What the member built for a catalog ingredient holds. */
  predicate MemberFor(m: MutableIngredient, ing: Ingredient, value: int, prev: map<Ingredient, QuantityVariation>)
  {
    m.ingredient == ing && Some(m.quantity) == FirstVariationAt(ing.quantityVariations, value) &&
    m.quantity.quantity == value &&
    (m.isSelected <==> PreviouslySelected(ing, prev)) && m.isAvailable
  }

  /** The members are exactly the ingredients offering the tier value, in
      catalog order, each carrying its first variation at that value,
      selected iff an ingredient with the same id was selected before, and
      marked available. */
  lemma {:induction false} MembersSpec(ings: seq<Ingredient>, value: int, prev: map<Ingredient, QuantityVariation>)
    ensures |Members(ings, value, prev)| == |OfferingAt(ings, value)|
    ensures forall i :: 0 <= i < |Members(ings, value, prev)| ==>
      MemberFor(Members(ings, value, prev)[i], OfferingAt(ings, value)[i], value, prev)
  {
    if ings != [] {
      MembersSpec(ings[1..], value, prev);
      var rest := Members(ings[1..], value, prev);
      var off := OfferingAt(ings[1..], value);
      var ms := Members(ings, value, prev);
      var os := OfferingAt(ings, value);
      match MemberAt(ings[0], value, prev)
      case None =>
        assert ms == rest && os == off;
      case Some(m) =>
        assert ms == [m] + rest && os == [ings[0]] + off;
        forall i | 0 <= i < |ms|
          ensures MemberFor(ms[i], os[i], value, prev)
        {
          if i > 0 {
            assert ms[i] == rest[i - 1] && os[i] == off[i - 1];
          }
        }
    }
  }

  lemma {:induction false} OfferingAtIn(ings: seq<Ingredient>, value: int, x: Ingredient)
    ensures x in OfferingAt(ings, value) <==> x in ings && FirstVariationAt(x.quantityVariations, value).Some?
  {
    if ings != [] {
      OfferingAtIn(ings[1..], value, x);
    }
  }

  // ---------------------------------------------------------------------
  // One group

  /** A tier matches the previous selection when some previously selected
      ingredient of this catalog group was at that tier's value. */
  predicate MatchesPreviousSelection(t: MutableQuantity, group: Group, prev: map<Ingredient, QuantityVariation>)
  {
    exists k :: k in prev && k in group.ingredients && prev[k].quantity == t.quantityValue
  }

  /** Index of the tier to select: the first matching the previous
      selection, else 0. */
  function SelectedTierIndex(ts: seq<MutableQuantity>, group: Group, prev: map<Ingredient, QuantityVariation>): nat
  {
    match FirstWhere(ts, (t: MutableQuantity) => MatchesPreviousSelection(t, group, prev))
    case Some(i) => i
    case None => 0
  }

  /** The `compactMap` closure of `reset` for one catalog group, before the
      validity pass: `None` when the group offers no tier. */
  function BuiltGroup(group: Group, focusedCode: Option<string>, prev: map<Ingredient, QuantityVariation>)
    : Option<MutableCompositionGroup>
  {
    var tiers := CandidateTiers(group);
    if tiers == [] then None
    else
      var k := SelectedTierIndex(tiers, group, prev);
      var chosen := tiers[k].(isSelected := true);
      Some(MutableCompositionGroup(
        group,
        tiers[k := chosen],
        Members(group.ingredients, chosen.quantityValue, prev),
        Some(group.Id()) == focusedCode))
  }

  /** Number of selected tiers. */
  function SelectedTierCount(ts: seq<MutableQuantity>): nat
  {
    CountWhere(ts, (t: MutableQuantity) => t.isSelected)
  }

  lemma {:induction false} OneTierSelected(ts: seq<MutableQuantity>, k: nat)
    requires k < |ts| && forall t :: t in ts ==> !t.isSelected
    ensures SelectedTierCount(ts[k := ts[k].(isSelected := true)]) == 1
  {
    var s := ts[k := ts[k].(isSelected := true)];
    if k == 0 {
      assert s[1..] == ts[1..];
      assert forall i :: 0 <= i < |ts[1..]| ==> !ts[1..][i].isSelected;
    } else {
      OneTierSelected(ts[1..], k - 1);
      assert s[1..] == ts[1..][k - 1 := ts[1..][k - 1].(isSelected := true)];
    }
  }

  /** A built group: it exists iff the group offers a tier; its tiers are the
      candidate tiers with exactly one selected, the first that matches the
      previous selection or else the first; its members are those offering
      that tier; it holds the focus iff its code is the focused code. */
  lemma BuiltGroupSpec(group: Group, focusedCode: Option<string>, prev: map<Ingredient, QuantityVariation>)
    ensures BuiltGroup(group, focusedCode, prev).None? <==> CandidateTiers(group) == []
    ensures BuiltGroup(group, focusedCode, prev).Some? ==>
      var b := BuiltGroup(group, focusedCode, prev).value;
      var c := CandidateTiers(group);
      b.group == group &&
      |b.quantities| == |c| && TiersDistinct(b.quantities) && SelectedTierCount(b.quantities) == 1 &&
      (forall i :: 0 <= i < |c| ==> b.quantities[i] == c[i].(isSelected := b.quantities[i].isSelected)) &&
      (forall i :: 0 <= i < |c| ==>
        (b.quantities[i].isSelected <==>
          if exists j :: 0 <= j < |c| && MatchesPreviousSelection(c[j], group, prev)
          then MatchesPreviousSelection(c[i], group, prev) &&
               forall j :: 0 <= j < i ==> !MatchesPreviousSelection(c[j], group, prev)
          else i == 0)) &&
      (exists t :: t in b.quantities && t.isSelected &&
         b.ingredients == Members(group.ingredients, t.quantityValue, prev)) &&
      (b.isSelected <==> focusedCode == Some(group.code))
  {
    var c := CandidateTiers(group);
    CandidateTiersSpec(group);
    if c != [] {
      var k := SelectedTierIndex(c, group, prev);
      OneTierSelected(c, k);
      var b := BuiltGroup(group, focusedCode, prev).value;
      assert b.quantities[k] in b.quantities;
    }
  }

  // ---------------------------------------------------------------------
  // All groups

  /** The `compactMap` over the catalog groups. */
  function BuiltGroups(catalog: seq<Group>, focusedCode: Option<string>, prev: map<Ingredient, QuantityVariation>)
    : seq<MutableCompositionGroup>
  {
    CompactMap(catalog, (c: Group) => BuiltGroup(c, focusedCode, prev))
  }

  /** The code of the first focused group, if any. */
  function FocusedCode(current: seq<MutableCompositionGroup>): Option<string>
  {
    match FirstWhere(current, (g: MutableCompositionGroup) => g.isSelected)
    case None => None
    case Some(i) => Some(current[i].group.Id())
  }

  /** The state after `reset(withGroups: catalog)` when the state was `current`. */
  function ResetGroups(catalog: seq<Group>, current: seq<MutableCompositionGroup>): seq<MutableCompositionGroup>
  {
    var built := BuiltGroups(catalog, FocusedCode(current), SelectedIngredients(current));
    seq(|built|, i requires 0 <= i < |built| => ValidGroupState(built[i], None))
  }

  lemma BuiltGroupsIn(catalog: seq<Group>, focusedCode: Option<string>,
                      prev: map<Ingredient, QuantityVariation>, b: MutableCompositionGroup)
    ensures b in BuiltGroups(catalog, focusedCode, prev) <==>
      exists c :: c in catalog && BuiltGroup(c, focusedCode, prev) == Some(b)
  {
    CompactMapIn(catalog, (c: Group) => BuiltGroup(c, focusedCode, prev), b);
  }

  /** The catalog positions whose group survives the build, in order. */
  function BuiltIndices(catalog: seq<Group>, focusedCode: Option<string>, prev: map<Ingredient, QuantityVariation>)
    : seq<nat>
  {
    KeptIndices(catalog, (c: Group) => BuiltGroup(c, focusedCode, prev))
  }

  /** The built groups follow the catalog: entry `i` is built from catalog
      position `BuiltIndices[i]`, those positions increase, and every catalog
      group that offers a tier has exactly one entry. */
  lemma BuiltGroupsOrder(catalog: seq<Group>, focusedCode: Option<string>, prev: map<Ingredient, QuantityVariation>)
    ensures |BuiltIndices(catalog, focusedCode, prev)| == |BuiltGroups(catalog, focusedCode, prev)|
    ensures forall i :: 0 <= i < |BuiltIndices(catalog, focusedCode, prev)| ==>
      BuiltIndices(catalog, focusedCode, prev)[i] < |catalog| &&
      BuiltGroup(catalog[BuiltIndices(catalog, focusedCode, prev)[i]], focusedCode, prev) ==
        Some(BuiltGroups(catalog, focusedCode, prev)[i])
    ensures forall i, j :: 0 <= i < j < |BuiltIndices(catalog, focusedCode, prev)| ==>
      BuiltIndices(catalog, focusedCode, prev)[i] < BuiltIndices(catalog, focusedCode, prev)[j]
    ensures forall k :: 0 <= k < |catalog| && CandidateTiers(catalog[k]) != [] ==>
      k in BuiltIndices(catalog, focusedCode, prev)
  {
    CompactMapOrder(catalog, (c: Group) => BuiltGroup(c, focusedCode, prev));
    forall k | 0 <= k < |catalog| && CandidateTiers(catalog[k]) != []
      ensures BuiltGroup(catalog[k], focusedCode, prev).Some?
    {
      BuiltGroupSpec(catalog[k], focusedCode, prev);
    }
  }

  /** The groups after a reset are in catalog order, one per catalog group
      that offers a tier: group `i` is the validity pass, with no hint, of
      the group built from catalog position `BuiltIndices[i]`. */
  lemma ResetGroupsOrder(catalog: seq<Group>, current: seq<MutableCompositionGroup>)
    ensures var idx := BuiltIndices(catalog, FocusedCode(current), SelectedIngredients(current));
      |ResetGroups(catalog, current)| == |idx| &&
      (forall i :: 0 <= i < |idx| ==>
        idx[i] < |catalog| &&
        BuiltGroup(catalog[idx[i]], FocusedCode(current), SelectedIngredients(current)).Some? &&
        ResetGroups(catalog, current)[i] ==
          ValidGroupState(BuiltGroup(catalog[idx[i]], FocusedCode(current), SelectedIngredients(current)).value, None)) &&
      (forall i, j :: 0 <= i < j < |idx| ==> idx[i] < idx[j]) &&
      (forall k :: 0 <= k < |catalog| && CandidateTiers(catalog[k]) != [] ==> k in idx)
  {
    BuiltGroupsOrder(catalog, FocusedCode(current), SelectedIngredients(current));
  }

  /** Every group of the new state comes from a catalog group that offers a
      tier, passed through the validity pass with no hint; every catalog
      group that offers a tier is there. */
  lemma ResetGroupsSpec(catalog: seq<Group>, current: seq<MutableCompositionGroup>)
    ensures forall r :: r in ResetGroups(catalog, current) ==>
      exists c, b :: c in catalog && CandidateTiers(c) != [] &&
        BuiltGroup(c, FocusedCode(current), SelectedIngredients(current)) == Some(b) &&
        r == ValidGroupState(b, None)
    ensures forall c :: c in catalog && CandidateTiers(c) != [] ==>
      exists r :: r in ResetGroups(catalog, current) && r.group == c
  {
    var fc := FocusedCode(current);
    var prev := SelectedIngredients(current);
    var built := BuiltGroups(catalog, fc, prev);
    var reset := ResetGroups(catalog, current);
    forall r | r in reset
      ensures exists c, b :: (c in catalog && CandidateTiers(c) != [] &&
                              BuiltGroup(c, fc, prev) == Some(b) && r == ValidGroupState(b, None))
    {
      var i :| 0 <= i < |reset| && reset[i] == r;
      BuiltGroupsIn(catalog, fc, prev, built[i]);
      var c :| c in catalog && BuiltGroup(c, fc, prev) == Some(built[i]);
      BuiltGroupSpec(c, fc, prev);
    }
    forall c | c in catalog && CandidateTiers(c) != []
      ensures exists r :: r in reset && r.group == c
    {
      BuiltGroupSpec(c, fc, prev);
      var b := BuiltGroup(c, fc, prev).value;
      BuiltGroupsIn(catalog, fc, prev, b);
      var i :| 0 <= i < |built| && built[i] == b;
      assert reset[i] in reset;
    }
  }

  /** After a reset every group obeys its choice rule: None has nothing
      selected, a non-empty Single exactly one member, and a Multi group is
      within its cap or has nothing selected. */
  lemma ResetObeysChoiceRules(catalog: seq<Group>, current: seq<MutableCompositionGroup>, r: MutableCompositionGroup)
    requires r in ResetGroups(catalog, current)
    ensures r.group.choiceType == NoChoice ==> SelectedCount(r.ingredients) == 0
    ensures r.group.choiceType == Single && r.ingredients != [] ==> SelectedCount(r.ingredients) == 1
    ensures r.group.choiceType == Multi ==>
      SelectedQuantity(r.ingredients) <= r.group.totalQuantityMax || SelectedCount(r.ingredients) == 0
  {
    ResetGroupsSpec(catalog, current);
    var c, b :| c in catalog && CandidateTiers(c) != [] &&
      BuiltGroup(c, FocusedCode(current), SelectedIngredients(current)) == Some(b) &&
      r == ValidGroupState(b, None);
    BuiltGroupSpec(c, FocusedCode(current), SelectedIngredients(current));
    match b.group.choiceType
    case NoChoice => NoneLeavesNothingSelected(b, None);
    case Single => if b.ingredients != [] { SingleSelectsExactlyOne(b, None); }
    case Multi => MultiWithinCapOrStuck(b, None);
  }

  // ---------------------------------------------------------------------
  // The procedure

  /** The tier-collecting `forEach`: append each tier unless an equal one
      is already there. */
  method UniqueQuantities(group: Group) returns (tiers: seq<MutableQuantity>)
    ensures tiers == Dedup(AllTiers(group.ingredients))
  {
    var all := AllTiers(group.ingredients);
    tiers := [];
    for i := 0 to |all|
      invariant tiers == Dedup(all[..i])
    {
      assert all[..i + 1][..i] == all[..i];
      if all[i] !in tiers {
        tiers := tiers + [all[i]];
      }
    }
    assert all[..|all|] == all;
  }

  /** The `compactMap` closure for one catalog group. */
  method BuildGroup(group: Group, focusedCode: Option<string>, prev: map<Ingredient, QuantityVariation>)
    returns (r: Option<MutableCompositionGroup>)
    ensures r == BuiltGroup(group, focusedCode, prev)
  {
    var tiers := UniqueQuantities(group);
    if |tiers| > 1 {
      tiers := PositiveTiers(tiers);
    }
    if tiers == [] {
      return None;
    }
    var k := SelectedTierIndex(tiers, group, prev);
    tiers := tiers[k := tiers[k].(isSelected := true)];
    var chosen := tiers[k];
    var members := Members(group.ingredients, chosen.quantityValue, prev);
    r := Some(MutableCompositionGroup(group, tiers, members, Some(group.Id()) == focusedCode));
  }

  /** The `compactMap` over the catalog groups. */
  method BuildGroups(catalog: seq<Group>, focusedCode: Option<string>, prev: map<Ingredient, QuantityVariation>)
    returns (built: seq<MutableCompositionGroup>)
    ensures built == BuiltGroups(catalog, focusedCode, prev)
  {
    built := [];
    for i := 0 to |catalog|
      invariant built == BuiltGroups(catalog[..i], focusedCode, prev)
    {
      assert catalog[..i + 1][..i] == catalog[..i];
      var b := BuildGroup(catalog[i], focusedCode, prev);
      if b.Some? {
        built := built + [b.value];
      }
    }
    assert catalog[..|catalog|] == catalog;
  }

  /** `updatedGroups.map { buildValidGroupState(group: $0, afterSelectionOf: nil) }`. */
  method ValidateAll(built: seq<MutableCompositionGroup>) returns (groups: seq<MutableCompositionGroup>)
    ensures |groups| == |built|
    ensures forall j :: 0 <= j < |built| ==> groups[j] == ValidGroupState(built[j], None)
  {
    groups := [];
    for i := 0 to |built|
      invariant |groups| == i
      invariant forall j :: 0 <= j < i ==> groups[j] == ValidGroupState(built[j], None)
    {
      var valid;
      ghost var rounds;
      valid, rounds := BuildValidGroupState(built[i], None);
      groups := groups + [valid];
    }
  }

  /** The body of `reset`: build every group, then run the validity pass
      over each with no hint. */
  method ResetState(catalog: seq<Group>, current: seq<MutableCompositionGroup>)
    returns (groups: seq<MutableCompositionGroup>)
    ensures groups == ResetGroups(catalog, current)
  {
    var built := BuildGroups(catalog, FocusedCode(current), SelectedIngredients(current));
    groups := ValidateAll(built);
  }
}
