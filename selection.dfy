/** The resolver's per-session values: a tier of a group, a member
    ingredient with its active variation and flags, and a group's whole
    selection state. They are Swift value types; an "update" is a copy with
    one field changed, and every event locates its target by `==`. */
module Selection {
  import opened Wrappers
  import opened MenuModel

  /** `MutableQuantity`: a tier of a group. Name and value are `let`;
      only `isSelected` is ever changed. Equality is synthesized. */
  datatype MutableQuantity = MutableQuantity(quantityName: string, quantityValue: int, isSelected: bool)

  /** `MutableIngredient`: a member of a group. `ingredient` is `let`;
      `quantity` (the active variation), `isSelected` and `isAvailable`
      are the mutable fields. The image-loading closure is not part of
      the value here: it is never compared nor hashed. */
  datatype MutableIngredient = MutableIngredient(
    ingredient: Ingredient,
    quantity: QuantityVariation,
    isSelected: bool,
    isAvailable: bool)

  /** `MutableCompositionGroup`: the catalog group (`let`), its tiers,
      its members and whether it holds the focus. Equality is synthesized
      over all four fields. */
  datatype MutableCompositionGroup = MutableCompositionGroup(
    group: Group,
    quantities: seq<MutableQuantity>,
    ingredients: seq<MutableIngredient>,
    isSelected: bool)

  /** The hand-written `MutableIngredient.==`: a chain of guards, one per
      compared field. */
  function IngredientEquals(lhs: MutableIngredient, rhs: MutableIngredient): (r: bool)
    ensures r <==> lhs == rhs
  {
    if lhs.ingredient != rhs.ingredient then false
    else if lhs.quantity != rhs.quantity then false
    else if lhs.isSelected != rhs.isSelected then false
    else if lhs.isAvailable != rhs.isAvailable then false
    else true
  }

  /** What `hash(into:)` feeds the hasher, in order. */
  datatype HashInput = HashInput(ingredient: Ingredient, quantity: QuantityVariation, isSelected: bool, isAvailable: bool)

  function HashInputs(m: MutableIngredient): HashInput
  {
    HashInput(m.ingredient, m.quantity, m.isSelected, m.isAvailable)
  }

  /** `hash` combines exactly the compared fields: values are equal iff they
      feed the hasher the same input, so equal values hash equally. */
  lemma HashAgreesWithEquality(a: MutableIngredient, b: MutableIngredient)
    ensures IngredientEquals(a, b) <==> HashInputs(a) == HashInputs(b)
  {
  }

  /** The same catalog ingredient with another selection flag or another
      active variation is a different value: an event built from an older
      snapshot of it no longer matches. */
  lemma IngredientSnapshotsDiffer(m: MutableIngredient, v: QuantityVariation)
    ensures !IngredientEquals(m, m.(isSelected := !m.isSelected))
    ensures v != m.quantity ==> !IngredientEquals(m, m.(quantity := v))
  {
  }

  /** Tiers with the same value but different names are distinct, and a
      tier with its flag flipped is unequal to itself. */
  lemma QuantitySnapshotsDiffer(q: MutableQuantity, name: string)
    ensures name != q.quantityName ==> q != q.(quantityName := name)
    ensures q != q.(isSelected := !q.isSelected)
  {
  }

  /** A group differs from its earlier snapshot once any member flag, any
      tier flag or the focus flag changed. */
  lemma GroupSnapshotsDiffer(g: MutableCompositionGroup, i: nat, j: nat)
    ensures g != g.(isSelected := !g.isSelected)
    ensures i < |g.ingredients| ==>
      g != g.(ingredients := g.ingredients[i := g.ingredients[i].(isSelected := !g.ingredients[i].isSelected)])
    ensures j < |g.quantities| ==>
      g != g.(quantities := g.quantities[j := g.quantities[j].(isSelected := !g.quantities[j].isSelected)])
  {
    if i < |g.ingredients| {
      var g' := g.(ingredients := g.ingredients[i := g.ingredients[i].(isSelected := !g.ingredients[i].isSelected)]);
      assert g'.ingredients[i] != g.ingredients[i];
    }
    if j < |g.quantities| {
      var g' := g.(quantities := g.quantities[j := g.quantities[j].(isSelected := !g.quantities[j].isSelected)]);
      assert g'.quantities[j] != g.quantities[j];
    }
  }

  /** Number of selected members. */
  function SelectedCount(ms: seq<MutableIngredient>): nat
  {
    CountWhere(ms, (m: MutableIngredient) => m.isSelected)
  }

  /** `reduce(into: 0) { $0 += isSelected ? quantity.quantity : 0 }`:
      the tier quantities of the selected members, summed. */
  function SelectedQuantity(ms: seq<MutableIngredient>): int
  {
    SumOf(ms, (m: MutableIngredient) => if m.isSelected then m.quantity.quantity else 0)
  }

  /** A copy of each member with only its selection flag replaced: the
      shape every validity rule has. */
  predicate SameMembersUpToSelection(a: seq<MutableIngredient>, b: seq<MutableIngredient>)
  {
    |a| == |b| &&
    forall i :: 0 <= i < |a| ==>
      a[i].ingredient == b[i].ingredient && a[i].quantity == b[i].quantity && a[i].isAvailable == b[i].isAvailable
  }

  /** `quantityVariations.first(where: { $0.quantity == value })`: the
      variation an ingredient contributes at a tier value. */
  function FirstVariationAt(vs: seq<QuantityVariation>, value: int): (r: Option<QuantityVariation>)
    ensures r.Some? ==> exists i :: 0 <= i < |vs| && vs[i] == r.value && r.value.quantity == value &&
                          forall j :: 0 <= j < i ==> vs[j].quantity != value
    ensures r.None? <==> forall i :: 0 <= i < |vs| ==> vs[i].quantity != value
  {
    match FirstWhere(vs, (v: QuantityVariation) => v.quantity == value)
    case None => None
    case Some(i) => Some(vs[i])
  }
}
