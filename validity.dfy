/** `buildValidGroupState(group:afterSelectionOf:)`: the per-choice-type rule
    every event applies to a group. The rule for each choice type is first
    stated as a function on values; `BuildValidGroupState` is the source's
    procedure (a `while` loop for Multi) proved equal to it. */
module Validity {
  import opened Wrappers
  import opened MenuModel
  import opened Selection

  /** None: every member is deselected. */
  function ClearSelection(g: MutableCompositionGroup): MutableCompositionGroup
  {
    g.(ingredients := seq(|g.ingredients|, i requires 0 <= i < |g.ingredients| =>
                            g.ingredients[i].(isSelected := false)))
  }

  /** Only the member at index `k` stays (or becomes) selected. */
  function SelectOnly(ms: seq<MutableIngredient>, k: nat): seq<MutableIngredient>
  {
    seq(|ms|, i requires 0 <= i < |ms| => ms[i].(isSelected := i == k))
  }

  /** The index a Single group ends up selecting: the position of the hint
      when there is one (nil when it is missing), otherwise the first
      selected member; index 0 when that search came back nil. */
  function SingleIndex(ms: seq<MutableIngredient>, hint: Option<MutableIngredient>): nat
  {
    var found :=
      if hint.Some? then FirstIndexOf(ms, hint.value)
      else FirstWhere(ms, (m: MutableIngredient) => m.isSelected);
    if found.Some? then found.value else 0
  }

  /** Single: an empty group is returned as it is; otherwise exactly the
      member at `SingleIndex` is selected. */
  function SingleRule(g: MutableCompositionGroup, hint: Option<MutableIngredient>): MutableCompositionGroup
  {
    if g.ingredients == [] then g
    else g.(ingredients := SelectOnly(g.ingredients, SingleIndex(g.ingredients, hint)))
  }

  /** A member the Multi loop may deselect: a selected one that is not equal
      to the recently changed ingredient. */
  predicate Deselectable(m: MutableIngredient, hint: Option<MutableIngredient>)
  {
    m.isSelected && hint != Some(m)
  }

  /** What the Multi loop leaves of one member once it has run to the end. */
  function KeepOnlyHint(m: MutableIngredient, hint: Option<MutableIngredient>): MutableIngredient
  {
    m.(isSelected := m.isSelected && hint == Some(m))
  }

  /** Multi, in closed form. The loop guard reads the unmodified input
      group, so once the input is over the cap the loop only stops when no
      member is left to deselect: every selected member other than the
      hint is deselected. Under the cap nothing changes. */
  function MultiRule(g: MutableCompositionGroup, hint: Option<MutableIngredient>): MutableCompositionGroup
  {
    if SelectedQuantity(g.ingredients) > g.group.totalQuantityMax then
      g.(ingredients := seq(|g.ingredients|, i requires 0 <= i < |g.ingredients| =>
                              KeepOnlyHint(g.ingredients[i], hint)))
    else g
  }

  /** The validity pass as a function of the input group and the hint. It
      touches nothing but the members' selection flags. */
  function ValidGroupState(g: MutableCompositionGroup, hint: Option<MutableIngredient>): (r: MutableCompositionGroup)
    ensures r.group == g.group && r.quantities == g.quantities && r.isSelected == g.isSelected
    ensures SameMembersUpToSelection(g.ingredients, r.ingredients)
  {
    match g.group.choiceType
    case NoChoice => ClearSelection(g)
    case Multi => MultiRule(g, hint)
    case Single => SingleRule(g, hint)
  }

  /** The source's procedure. `iterations` counts the Multi loop's rounds,
      which never exceed the member count. */
  method BuildValidGroupState(g: MutableCompositionGroup, hint: Option<MutableIngredient>)
    returns (r: MutableCompositionGroup, ghost iterations: nat)
    ensures r == ValidGroupState(g, hint)
    ensures iterations <= |g.ingredients|
  {
    r := g;
    iterations := 0;
    if g.group.choiceType == NoChoice {
      r := ClearSelection(g);
      return;
    }
    if g.group.choiceType == Multi {
      var n := |g.ingredients|;
      ghost var k := 0;
      while SelectedQuantity(g.ingredients) > r.group.totalQuantityMax
        invariant r.group == g.group && r.quantities == g.quantities && r.isSelected == g.isSelected
        invariant 0 <= iterations <= k <= n == |r.ingredients|
        invariant forall i :: 0 <= i < k ==> r.ingredients[i] == KeepOnlyHint(g.ingredients[i], hint)
        invariant forall i :: k <= i < n ==> r.ingredients[i] == g.ingredients[i]
        invariant SelectedQuantity(g.ingredients) <= g.group.totalQuantityMax ==> r == g
        decreases n - k
      {
        var next := FirstWhere(r.ingredients, (m: MutableIngredient) => Deselectable(m, hint));
        if next.None? {
          break;
        }
        var j := next.value;
        assert j >= k;
        r := r.(ingredients := r.ingredients[j := r.ingredients[j].(isSelected := false)]);
        k := j + 1;
        iterations := iterations + 1;
      }
      if SelectedQuantity(g.ingredients) > g.group.totalQuantityMax {
        assert forall i :: 0 <= i < n ==> r.ingredients[i] == KeepOnlyHint(g.ingredients[i], hint) by {
          forall i | k <= i < n
            ensures r.ingredients[i] == KeepOnlyHint(g.ingredients[i], hint)
          {
            assert !Deselectable(r.ingredients[i], hint);
          }
        }
        assert r.ingredients == MultiRule(g, hint).ingredients;
      }
      return;
    }
    r := SingleRule(g, hint);
  }

  // ---------------------------------------------------------------------
  // What each rule promises.

  /** None: no member is selected afterwards. */
  lemma NoneLeavesNothingSelected(g: MutableCompositionGroup, hint: Option<MutableIngredient>)
    requires g.group.choiceType == NoChoice
    ensures forall i :: 0 <= i < |ValidGroupState(g, hint).ingredients| ==>
              !ValidGroupState(g, hint).ingredients[i].isSelected
    ensures SelectedCount(ValidGroupState(g, hint).ingredients) == 0
  {
  }

  lemma {:induction false} SelectOnlyCount(ms: seq<MutableIngredient>, k: nat)
    requires k < |ms|
    ensures SelectedCount(SelectOnly(ms, k)) == 1
  {
    var s := SelectOnly(ms, k);
    if k == 0 {
      assert s[0].isSelected;
      assert forall i :: 0 <= i < |s[1..]| ==> !s[1..][i].isSelected;
    } else {
      SelectOnlyCount(ms[1..], k - 1);
      assert SelectOnly(ms[1..], k - 1) == s[1..];
    }
  }

  /** Single with at least one member: exactly one member is selected. */
  lemma SingleSelectsExactlyOne(g: MutableCompositionGroup, hint: Option<MutableIngredient>)
    requires g.group.choiceType == Single && |g.ingredients| > 0
    ensures SelectedCount(ValidGroupState(g, hint).ingredients) == 1
  {
    var ms := g.ingredients;
    var k := SingleIndex(ms, hint);
    assert k < |ms|;
    SelectOnlyCount(ms, k);
  }

  /** Single: which member it is. The hint's first position when the hint
      is a member; index 0 when the hint is not found; without a hint the
      first already-selected member, else index 0. */
  lemma SingleSelectsChosenMember(g: MutableCompositionGroup, hint: Option<MutableIngredient>, i: nat)
    requires g.group.choiceType == Single && i < |g.ingredients|
    ensures ValidGroupState(g, hint).ingredients[i].isSelected <==>
      if hint.Some? then
        (if hint.value in g.ingredients then g.ingredients[i] == hint.value && hint.value !in g.ingredients[..i]
         else i == 0)
      else
        (if exists j :: 0 <= j < |g.ingredients| && g.ingredients[j].isSelected
         then g.ingredients[i].isSelected && forall j :: 0 <= j < i ==> !g.ingredients[j].isSelected
         else i == 0)
  {
    var ms := g.ingredients;
    if hint.Some? && hint.value in ms {
      var k := FirstIndexOf(ms, hint.value).value;
      if ms[i] == hint.value && i > k {
        assert ms[..i][k] == hint.value;
      }
    }
  }

  /** An empty Single group is returned unchanged. */
  lemma SingleEmptyUnchanged(g: MutableCompositionGroup, hint: Option<MutableIngredient>)
    requires g.group.choiceType == Single && g.ingredients == []
    ensures ValidGroupState(g, hint) == g
  {
  }

  /** Multi under (or at) the cap: nothing changes. */
  lemma MultiUnderCapUnchanged(g: MutableCompositionGroup, hint: Option<MutableIngredient>)
    requires g.group.choiceType == Multi
    requires SelectedQuantity(g.ingredients) <= g.group.totalQuantityMax
    ensures ValidGroupState(g, hint) == g
  {
  }

  /** Multi over the cap: a member stays selected iff it was selected and is
      equal to the hint, so no member is left to deselect. */
  lemma MultiOverCap(g: MutableCompositionGroup, hint: Option<MutableIngredient>, i: nat)
    requires g.group.choiceType == Multi && i < |g.ingredients|
    requires SelectedQuantity(g.ingredients) > g.group.totalQuantityMax
    ensures ValidGroupState(g, hint).ingredients[i].isSelected <==>
              g.ingredients[i].isSelected && hint == Some(g.ingredients[i])
    ensures !Deselectable(ValidGroupState(g, hint).ingredients[i], hint)
  {
  }

  lemma {:induction false} NothingSelectedSumsToZero(ms: seq<MutableIngredient>)
    requires forall i :: 0 <= i < |ms| ==> !ms[i].isSelected
    ensures SelectedQuantity(ms) == 0
  {
    if ms != [] {
      NothingSelectedSumsToZero(ms[1..]);
    }
  }

  /** The Multi cap after a pass: either the selected quantity is within
      the cap, or no member is left that the loop could deselect. Without a
      hint (as on reset) an over-cap group ends with no member selected. */
  lemma MultiWithinCapOrStuck(g: MutableCompositionGroup, hint: Option<MutableIngredient>)
    requires g.group.choiceType == Multi
    ensures var r := ValidGroupState(g, hint);
      SelectedQuantity(r.ingredients) <= g.group.totalQuantityMax ||
      forall i :: 0 <= i < |r.ingredients| ==> !Deselectable(r.ingredients[i], hint)
    ensures hint.None? && SelectedQuantity(g.ingredients) > g.group.totalQuantityMax ==>
      SelectedCount(ValidGroupState(g, hint).ingredients) == 0 &&
      SelectedQuantity(ValidGroupState(g, hint).ingredients) == 0
  {
    var r := ValidGroupState(g, hint);
    if SelectedQuantity(g.ingredients) > g.group.totalQuantityMax {
      forall i | 0 <= i < |r.ingredients|
        ensures !Deselectable(r.ingredients[i], hint)
      {
        MultiOverCap(g, hint, i);
      }
      if hint.None? {
        forall i | 0 <= i < |r.ingredients|
          ensures !r.ingredients[i].isSelected
        {
          MultiOverCap(g, hint, i);
        }
        NothingSelectedSumsToZero(r.ingredients);
      }
    }
  }
}
