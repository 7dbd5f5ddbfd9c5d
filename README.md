# Drinkie product customisation and menu logic, in Dafny

This project models the decision-making core of the Drinkie coffee-ordering
app and proves what that core promises. It covers four parts:

- **The product customisation resolver** (`CustomiseProductViewModel`). It holds
  the composition groups of the product being customised. It handles five
  events: reset on a new product, focusing a group, tapping an ingredient,
  switching the quantity tier, and receiving the currency. After a reset and
  after an ingredient tap it applies the choice-type rules: a `none` group has
  nothing selected, a `single` group has exactly one member selected, and a
  `multi` group is brought within its quantity cap or, when it cannot be, left
  with only the tapped member selected. Focusing a group, switching the tier
  and receiving the currency do not re-apply them. It publishes a map from each selected catalog
  ingredient to its active quantity variation.
- **The product-details totals** (`ProductDetailsViewModel`). The total price
  is the base price plus every selected variation's price. The total food
  value is the product's food value combined, field by optional field, with
  every selected variation's food value. This part also includes `FoodValue +`.
- **The store list** (`ListSelectionView`). Store units are grouped by city,
  each group's units are sorted by alias, and the groups are sorted by title.
- **The menu view model** (`MenuViewModel`). It covers:
  - promotion detection in a menu view;
  - product availability from the stop list and stock list;
  - product and promotion link lookups;
  - the choice of promotion image;
  - the guards on menu loading.

Modules, one file each:

- `wrappers.dfy` (`Wrappers`): `Option` and the sequence helpers that Swift's
  `first(where:)`, `firstIndex`, `filter`, `compactMap`, `flatMap` and `reduce`
  stand for.
- `menu_model.dfy` (`MenuModel`): the catalog types of `GetMenu` and
  `Group.id`.
- `food_value.dfy` (`FoodValueSum`): `FoodValue +` and its algebra.
- `selection.dfy` (`Selection`): `MutableQuantity`, `MutableIngredient` with its
  custom `==` and `hash`, and `MutableCompositionGroup`.
- `validity.dfy` (`Validity`): `buildValidGroupState`, both as a function and
  as the method with the `multi` loop.
- `projection.dfy` (`Projection`): the selected-ingredients output.
- `reset.dfy` (`Reset`): `reset(withGroups:)`, covering tier de-duplication,
  tier choice, members and focus.
- `events.dfy` (`Events`): the other events and the well-formedness invariant
  they keep.
- `customise.dfy` (`Customise`): the resolver as a class with one method per
  event, plus the cell texts.
- `display.dfy` (`Decimal`): the decimal text of an `Int`, which the cell texts
  interpolate.
- `aggregation.dfy` (`Aggregation`): the totals and the `ProductDetails` class.
- `store_list.dfy` (`StoreList`): `ListSelectionView.init`.
- `menu.dfy` (`Menu`): the menu-view, stop-list and promotion types, the
  lookups, and the `MenuLoader` class.
- `surprises.dfy` (`Surprises`): small concrete catalogs that show the
  resolver's less obvious behaviour. See "Notable behaviour" below.

Swift dictionaries have no defined iteration order. Wherever the code iterates
one (the selected-ingredients map in the totals, the city map in the store
list), the model takes the enumeration order as a parameter. It then proves
that the result does not depend on that order, or it leaves the order among
equal keys unspecified.

## Model

| member | source | states |
|---|---|---|
| MenuModel.Group.Id | DrinkieModules/Sources/DRAPI/Models/Model.swift:11-13 | a group's identity is its code |
| MenuModel.CompositionGroups | DrinkieModules/Sources/ProductDetails/CustomiseProduct/CustomiseProductViewModel.swift:50 | a product event resets with the product's composition groups, or with no groups when there is no product or no composition |
| FoodValueSum.AddField | DrinkieModules/Sources/DRAPI/Models/Model.swift:18-23 | one optional field sum: absent + absent is absent, a present value plus an absent one keeps the present value on either side, and two present values add |
| FoodValueSum.PlusFieldwise | DrinkieModules/Sources/DRAPI/Models/Model.swift:17-58 | each of the five fields of a sum depends only on that field of the two operands |
| FoodValueSum.PlusAbsentIff | DrinkieModules/Sources/DRAPI/Models/Model.swift:18-54 | a field of a sum is absent exactly when it is absent in both operands |
| FoodValueSum.PlusIdentity | DrinkieModules/Sources/DRAPI/Models/Model.swift:17-58 | the all-absent food value is a left and a right identity |
| FoodValueSum.PlusCommutative | DrinkieModules/Sources/DRAPI/Models/Model.swift:17-58 | `+` is commutative |
| FoodValueSum.PlusAssociative | DrinkieModules/Sources/DRAPI/Models/Model.swift:17-58 | `+` is associative over exact reals |
| FoodValueSum.ReduceIsPlusTotal | DrinkieModules/Sources/ProductDetails/ProductDetails/ProductDetailsViewModel.swift:38 | folding `+` from an initial value over mapped values equals the initial value plus the total of those values |
| FoodValueSum.TotalOfPermutation | DrinkieModules/Sources/ProductDetails/ProductDetails/ProductDetailsViewModel.swift:38 | the food total over a sequence does not depend on its order |
| FoodValueSum.ReducePermutation | DrinkieModules/Sources/ProductDetails/ProductDetails/ProductDetailsViewModel.swift:38 | the `reduce(foodValue, +)` fold gives the same value for any order of the same entries |
| Selection.IngredientEquals | DrinkieModules/Sources/ProductDetails/CustomiseProduct/Models/MutableIngredient.swift:15-21 | two members are equal exactly when ingredient, variation, selection and availability all agree; the image loader plays no part |
| Selection.HashAgreesWithEquality | DrinkieModules/Sources/ProductDetails/CustomiseProduct/Models/MutableIngredient.swift:23-28 | the hash combines exactly the four compared fields, so it agrees with `==` |
| Selection.IngredientSnapshotsDiffer | DrinkieModules/Sources/ProductDetails/CustomiseProduct/Models/MutableIngredient.swift:17-18 | the same ingredient with its selection flipped, or with a different variation, is a different value |
| Selection.QuantitySnapshotsDiffer | DrinkieModules/Sources/ProductDetails/CustomiseProduct/Models/MutableQuantity.swift:4-6 | tiers with the same value and different names differ, and a tier with its flag flipped differs from itself |
| Selection.GroupSnapshotsDiffer | DrinkieModules/Sources/ProductDetails/CustomiseProduct/Models/MutableCompositionGroup.swift:5-7 | flipping the focus, a member's flag or a tier's flag gives a group unequal to the earlier snapshot |
| Selection.FirstVariationAt | DrinkieModules/Sources/ProductDetails/CustomiseProduct/CustomiseProductViewModel.swift:106 | the first variation whose quantity equals the value, or none exactly when no variation has that quantity |
| Validity.ValidGroupState | DrinkieModules/Sources/ProductDetails/CustomiseProduct/CustomiseProductViewModel.swift:200-251 | the validity pass changes only member selection flags: catalog group, tiers, focus and the members' other fields are kept |
| Validity.BuildValidGroupState | DrinkieModules/Sources/ProductDetails/CustomiseProduct/CustomiseProductViewModel.swift:200-251 | the imperative pass with the `multi` while loop computes the validity function and runs at most once per member |
| Validity.NoneLeavesNothingSelected | DrinkieModules/Sources/ProductDetails/CustomiseProduct/CustomiseProductViewModel.swift:204-211 | a `none` group ends with no member selected |
| Validity.SingleSelectsExactlyOne | DrinkieModules/Sources/ProductDetails/CustomiseProduct/CustomiseProductViewModel.swift:232-248 | a non-empty `single` group ends with exactly one member selected |
| Validity.SingleSelectsChosenMember | DrinkieModules/Sources/ProductDetails/CustomiseProduct/CustomiseProductViewModel.swift:233-246 | the selected member is the first occurrence of the hint when the hint is a member; otherwise index 0 when a hint is given; without a hint it is the first selected member, else index 0 |
| Validity.SingleEmptyUnchanged | DrinkieModules/Sources/ProductDetails/CustomiseProduct/CustomiseProductViewModel.swift:233 | an empty `single` group is returned unchanged |
| Validity.MultiUnderCapUnchanged | DrinkieModules/Sources/ProductDetails/CustomiseProduct/CustomiseProductViewModel.swift:213-230 | a `multi` group whose selected total is within its cap is returned unchanged |
| Validity.MultiOverCap | DrinkieModules/Sources/ProductDetails/CustomiseProduct/CustomiseProductViewModel.swift:213-230 | when the input total exceeds the cap, a member stays selected exactly when it was selected and equals the hint; nothing deselectable remains |
| Validity.MultiWithinCapOrStuck | DrinkieModules/Sources/ProductDetails/CustomiseProduct/CustomiseProductViewModel.swift:220-227 | after the pass a `multi` group is within its cap or no member can be deselected; without a hint an over-cap group ends with no member selected and total 0 |
| Validity.SelectOnlyCount | DrinkieModules/Sources/ProductDetails/CustomiseProduct/CustomiseProductViewModel.swift:242-246 | selecting one index of a non-empty list leaves exactly one member selected |
| Projection.SelectedOf | DrinkieModules/Sources/ProductDetails/CustomiseProduct/CustomiseProductViewModel.swift:57 | the filter keeps exactly the selected members |
| Projection.SelectedMembersIn | DrinkieModules/Sources/ProductDetails/CustomiseProduct/CustomiseProductViewModel.swift:57 | a member is in the flattened output exactly when it is selected in some group |
| Projection.ToDictionaryEntries | DrinkieModules/Sources/ProductDetails/CustomiseProduct/CustomiseProductViewModel.swift:58-60 | the dictionary has a key exactly for each member's ingredient, and the value is the variation of the last member with that ingredient |
| Projection.SelectedIngredientsSpec | DrinkieModules/Sources/ProductDetails/CustomiseProduct/CustomiseProductViewModel.swift:56-62 | the output maps exactly the ingredients selected in some group, each to the variation of a selected member carrying it; unselected members never contribute |
| Reset.TiersOf | DrinkieModules/Sources/ProductDetails/CustomiseProduct/CustomiseProductViewModel.swift:77-78 | one unselected tier per variation, with the variation's name and value |
| Reset.AllTiersIn | DrinkieModules/Sources/ProductDetails/CustomiseProduct/CustomiseProductViewModel.swift:75-78 | the raw tier list holds exactly the unselected (name, value) pairs of the group's variations |
| Reset.DedupSpec | DrinkieModules/Sources/ProductDetails/CustomiseProduct/CustomiseProductViewModel.swift:74-82 | de-duplication keeps each tier once, keeps every tier, and keeps first-seen order |
| Reset.PositiveTiers | DrinkieModules/Sources/ProductDetails/CustomiseProduct/CustomiseProductViewModel.swift:85-87 | the filter keeps exactly the tiers with a positive value and keeps them distinct |
| Reset.PositiveTiersOrder | DrinkieModules/Sources/ProductDetails/CustomiseProduct/CustomiseProductViewModel.swift:85-87 | the filter keeps only tiers of its input, in the order the input lists them |
| Reset.CandidateTiersSpec | DrinkieModules/Sources/ProductDetails/CustomiseProduct/CustomiseProductViewModel.swift:74-88 | the candidate tiers are the distinct tiers with zero-value tiers dropped when more than one tier exists; all are unselected, and a group with no variations has none |
| Reset.CandidateTiersOrder | DrinkieModules/Sources/ProductDetails/CustomiseProduct/CustomiseProductViewModel.swift:74-88 | the candidate tiers are tiers the members offer, listed in the order the members' variations first list them |
| Reset.OfferingAtIn | DrinkieModules/Sources/ProductDetails/CustomiseProduct/CustomiseProductViewModel.swift:103-106 | an ingredient is offered at a value exactly when some variation of it has that quantity |
| Reset.MembersSpec | DrinkieModules/Sources/ProductDetails/CustomiseProduct/CustomiseProductViewModel.swift:103-117 | members are the offering ingredients in catalog order, each with its first variation at the tier's value, selected exactly when a previously selected ingredient has the same id, and available |
| Reset.OneTierSelected | DrinkieModules/Sources/ProductDetails/CustomiseProduct/CustomiseProductViewModel.swift:96-99 | marking one tier of an unselected list leaves exactly one tier selected |
| Reset.BuiltGroupSpec | DrinkieModules/Sources/ProductDetails/CustomiseProduct/CustomiseProductViewModel.swift:88-119 | a group is dropped exactly when it has no candidate tiers; otherwise exactly one tier is selected (the first matching a previous selection's quantity, else tier 0), members follow that tier, and focus is kept exactly for the previously focused code |
| Reset.BuiltGroupsIn | DrinkieModules/Sources/ProductDetails/CustomiseProduct/CustomiseProductViewModel.swift:70 | the rebuilt list holds exactly the catalog groups that are not dropped |
| Wrappers.CompactMapOrder | DrinkieModules/Sources/ProductDetails/CustomiseProduct/CustomiseProductViewModel.swift:70 | a `compactMap` is, position by position, the images of the kept elements in input order: one entry per kept element, none repeated or reordered |
| Reset.BuiltGroupsOrder | DrinkieModules/Sources/ProductDetails/CustomiseProduct/CustomiseProductViewModel.swift:70-119 | the rebuilt list follows catalog order, with entry `i` built from an increasing catalog position and exactly one entry for each catalog group that offers a tier |
| Reset.ResetGroupsSpec | DrinkieModules/Sources/ProductDetails/CustomiseProduct/CustomiseProductViewModel.swift:65-124 | every group after a reset is a rebuilt catalog group passed through the validity pass without a hint, and every catalog group with tiers appears |
| Reset.ResetGroupsOrder | DrinkieModules/Sources/ProductDetails/CustomiseProduct/CustomiseProductViewModel.swift:65-124 | the groups after a reset are in catalog order, one per catalog group with tiers, group `i` being the validity pass without a hint of the group built from its catalog position |
| Reset.ResetObeysChoiceRules | DrinkieModules/Sources/ProductDetails/CustomiseProduct/CustomiseProductViewModel.swift:65-124 | after a reset, `none` groups have nothing selected, non-empty `single` groups have exactly one member selected, and `multi` groups are within their cap or have no member selected |
| Reset.UniqueQuantities | DrinkieModules/Sources/ProductDetails/CustomiseProduct/CustomiseProductViewModel.swift:74-82 | the `forEach` append loop computes the first-seen de-duplication |
| Reset.BuildGroup | DrinkieModules/Sources/ProductDetails/CustomiseProduct/CustomiseProductViewModel.swift:70-120 | the imperative tier-marking step computes the rebuilt group |
| Reset.BuildGroups | DrinkieModules/Sources/ProductDetails/CustomiseProduct/CustomiseProductViewModel.swift:70-120 | the `compactMap` loop computes the rebuilt list |
| Reset.ValidateAll | DrinkieModules/Sources/ProductDetails/CustomiseProduct/CustomiseProductViewModel.swift:122 | every rebuilt group is passed through the validity pass without a hint |
| Reset.ResetState | DrinkieModules/Sources/ProductDetails/CustomiseProduct/CustomiseProductViewModel.swift:65-124 | the reset routine computes the reset specification |
| Events.ValidGroupStateKeepsWellFormed | DrinkieModules/Sources/ProductDetails/CustomiseProduct/CustomiseProductViewModel.swift:200-251 | from tiers consistent with the members, the validity pass yields a well-formed group |
| Events.BuiltGroupConsistent | DrinkieModules/Sources/ProductDetails/CustomiseProduct/CustomiseProductViewModel.swift:88-119 | a rebuilt group has distinct tiers, at most one selected, and members at the selected tier's value |
| Events.ResetEstablishesWellFormed | DrinkieModules/Sources/ProductDetails/CustomiseProduct/CustomiseProductViewModel.swift:65-124 | every group after a reset is well formed |
| Events.OnlySelectedTier | DrinkieModules/Sources/ProductDetails/CustomiseProduct/CustomiseProductViewModel.swift:96-99 | with at most one tier selected, any two selected tiers are the same |
| Events.CountOfMember | DrinkieModules/Sources/ProductDetails/CustomiseProduct/CustomiseProductViewModel.swift:96-99 | a list containing a selected tier counts at least one |
| Events.SelectGroup | DrinkieModules/Sources/ProductDetails/CustomiseProduct/CustomiseProductViewModel.swift:126-135 | each group keeps its place, and its focus becomes whether it equals the event's group |
| Events.SelectGroupSpec | DrinkieModules/Sources/ProductDetails/CustomiseProduct/CustomiseProductViewModel.swift:126-135 | focus is true exactly on groups equal to the event's group; tiers and members are unchanged; a stale snapshot unfocuses every group |
| Events.SelectFocusedGroupIdempotent | DrinkieModules/Sources/ProductDetails/CustomiseProduct/CustomiseProductViewModel.swift:128-132 | selecting the only focused group again changes nothing |
| Events.SelectGroupKeepsWellFormed | DrinkieModules/Sources/ProductDetails/CustomiseProduct/CustomiseProductViewModel.swift:126-135 | focusing keeps every group well formed |
| Events.SelectIngredient | DrinkieModules/Sources/ProductDetails/CustomiseProduct/CustomiseProductViewModel.swift:137-153 | every group is processed by the per-group tap rule |
| Events.StaleIngredientIsNoOp | DrinkieModules/Sources/ProductDetails/CustomiseProduct/CustomiseProductViewModel.swift:142-143 | an ingredient snapshot equal to no member leaves every group unchanged |
| Events.SelectIngredientFrame | DrinkieModules/Sources/ProductDetails/CustomiseProduct/CustomiseProductViewModel.swift:137-153 | a tap changes only member selection flags of the group |
| Events.SingleTapSelectsTapped | DrinkieModules/Sources/ProductDetails/CustomiseProduct/CustomiseProductViewModel.swift:146-147 | tapping a member of a `single` group leaves exactly that ingredient selected, even when the tap turned it off |
| Events.NoneTapSelectsNothing | DrinkieModules/Sources/ProductDetails/CustomiseProduct/CustomiseProductViewModel.swift:146-147 | tapping in a `none` group leaves nothing selected |
| Events.MultiTap | DrinkieModules/Sources/ProductDetails/CustomiseProduct/CustomiseProductViewModel.swift:142-147 | in a `multi` group the first equal member is toggled; within the cap that is the result, and over the cap only members equal to the toggled one stay selected |
| Events.SelectIngredientKeepsWellFormed | DrinkieModules/Sources/ProductDetails/CustomiseProduct/CustomiseProductViewModel.swift:137-153 | taps keep every group well formed |
| Events.Flagged | DrinkieModules/Sources/ProductDetails/CustomiseProduct/CustomiseProductViewModel.swift:163-167 | the element-wise `map` of `didSelectGroup` and `didSelectQuantity`: every element keeps its place, and its flag becomes whether it equals the event's value |
| Events.SelectQuantity | DrinkieModules/Sources/ProductDetails/CustomiseProduct/CustomiseProductViewModel.swift:155-181 | every group is processed by the per-group tier switch |
| Events.OfferingMembers | DrinkieModules/Sources/ProductDetails/CustomiseProduct/CustomiseProductViewModel.swift:169-175 | exactly the members that have a variation at the chosen value, never more than there were |
| Events.RetierMembersSpec | DrinkieModules/Sources/ProductDetails/CustomiseProduct/CustomiseProductViewModel.swift:169-175 | position by position, the new members are the old members offering the new value, each carrying its first variation at that value with selection and availability kept; the list never grows |
| Events.SelectQuantitySpec | DrinkieModules/Sources/ProductDetails/CustomiseProduct/CustomiseProductViewModel.swift:155-181 | unfocused groups are unchanged; in the focused group tier flags follow the chosen tier and members are re-tiered, with no validity pass |
| Events.SelectQuantityKeepsWellFormed | DrinkieModules/Sources/ProductDetails/CustomiseProduct/CustomiseProductViewModel.swift:155-181 | a tier switch keeps tiers and members consistent |
| Events.SelectQuantityInGroupKeepsWellFormed | DrinkieModules/Sources/ProductDetails/CustomiseProduct/CustomiseProductViewModel.swift:159-177 | a switch in a focused well-formed group keeps it well formed |
| Events.TierFlagsForChoice | DrinkieModules/Sources/ProductDetails/CustomiseProduct/CustomiseProductViewModel.swift:163-167 | after a switch the tiers stay distinct and at most one is selected |
| Events.NoneSelectedCountsZero | DrinkieModules/Sources/ProductDetails/CustomiseProduct/CustomiseProductViewModel.swift:163-167 | a tier list with no flag set counts zero selected |
| Customise.CustomiseProduct.constructor | DrinkieModules/Sources/ProductDetails/CustomiseProduct/CustomiseProductViewModel.swift:34 | the resolver starts with no groups and no currency |
| Customise.CustomiseProduct.Reset | DrinkieModules/Sources/ProductDetails/CustomiseProduct/CustomiseProductViewModel.swift:65-124 | the stored groups become the reset of the catalog against the old groups; the invariant holds |
| Customise.CustomiseProduct.DidSelectProduct | DrinkieModules/Sources/ProductDetails/CustomiseProduct/CustomiseProductViewModel.swift:50 | a product event resets with the product's composition groups |
| Customise.CustomiseProduct.DidSelectGroup | DrinkieModules/Sources/ProductDetails/CustomiseProduct/CustomiseProductViewModel.swift:126-135 | the stored groups become the focused list and stay well formed |
| Customise.CustomiseProduct.DidSelectIngredient | DrinkieModules/Sources/ProductDetails/CustomiseProduct/CustomiseProductViewModel.swift:137-153 | the stored groups become the tapped list and stay well formed |
| Customise.CustomiseProduct.DidSelectQuantity | DrinkieModules/Sources/ProductDetails/CustomiseProduct/CustomiseProductViewModel.swift:155-181 | the stored groups become the tier-switched list and stay well formed |
| Customise.CustomiseProduct.DidReceiveCurrency | DrinkieModules/Sources/ProductDetails/CustomiseProduct/CustomiseProductViewModel.swift:183-198 | the currency is stored and the groups keep their values |
| Customise.SelectedOfCount | DrinkieModules/Sources/ProductDetails/CustomiseProduct/CustomiseProductViewModel.swift:286-287 | the filtered selection has as many elements as there are selected members |
| Customise.LocalizedTitle | DrinkieModules/Sources/ProductDetails/CustomiseProduct/CustomiseProductViewModel.swift:285-289 | with exactly one member selected the title is its ingredient's name, otherwise the group's name |
| Customise.LocalizedPrice | DrinkieModules/Sources/ProductDetails/CustomiseProduct/CustomiseProductViewModel.swift:291-295 | the price text is empty exactly when the selected members' price sum is not positive |
| Customise.LocalizedPriceShowsTotal | DrinkieModules/Sources/ProductDetails/CustomiseProduct/CustomiseProductViewModel.swift:294 | a non-empty price text ends in a space and the decimal sum, which reads back as that sum |
| Customise.LocalizedSubtitle | DrinkieModules/Sources/ProductDetails/CustomiseProduct/CustomiseProductViewModel.swift:301-304 | a positive price reads `+…`; otherwise the text ends in ` 0` |
| Customise.LocalizedSubtitleShowsPrice | DrinkieModules/Sources/ProductDetails/CustomiseProduct/CustomiseProductViewModel.swift:303 | a positive price's text ends in the decimal price, which reads back as the price |
| Decimal.NatDigitsRoundTrip | DrinkieModules/Sources/ProductDetails/CustomiseProduct/CustomiseProductViewModel.swift:294 | the digits of a natural number parse back to it and have no leading zero |
| Decimal.DecimalRoundTrip | DrinkieModules/Sources/ProductDetails/CustomiseProduct/CustomiseProductViewModel.swift:303 | an `Int`'s decimal text parses back to it and has no leading zero |
| Aggregation.BasePrice | DrinkieModules/Sources/ProductDetails/ProductDetails/ProductDetailsViewModel.swift:44 | the base price is the first price's value, or 0 with no product or no prices |
| Aggregation.EnumerationsArePermutations | DrinkieModules/Sources/ProductDetails/ProductDetails/ProductDetailsViewModel.swift:38-44 | two enumerations of one dictionary are permutations of each other |
| Aggregation.TotalsIndependentOfOrder | DrinkieModules/Sources/ProductDetails/ProductDetails/ProductDetailsViewModel.swift:34-45 | both totals are the same for every enumeration order of the selection |
| Aggregation.TotalPriceAddsEntry | DrinkieModules/Sources/ProductDetails/ProductDetails/ProductDetailsViewModel.swift:44 | each selected entry adds its variation's price to the total |
| Aggregation.NoBaseFoodValueNoTotal | DrinkieModules/Sources/ProductDetails/ProductDetails/ProductDetailsViewModel.swift:37 | with no product or no product food value the total food value is absent, whatever is selected |
| Aggregation.FoodTotalIsBasePlusSelection | DrinkieModules/Sources/ProductDetails/ProductDetails/ProductDetailsViewModel.swift:38 | otherwise the total is the product's food value plus the total of the selected variations' food values |
| Aggregation.EmptySelectionTotals | DrinkieModules/Sources/ProductDetails/ProductDetails/ProductDetailsViewModel.swift:38-44 | with nothing selected the totals are the base price and the product's own food value |
| Aggregation.EnumerateKeys | DrinkieModules/Sources/ProductDetails/ProductDetails/ProductDetailsViewModel.swift:38-44 | the loop enumerates every key of the selection exactly once |
| Aggregation.ProductDetails.constructor | DrinkieModules/Sources/ProductDetails/ProductDetails/ProductDetailsViewModel.swift:20-28 | opening a product resets the resolver with its groups and shows its description and current totals |
| Aggregation.ProductDetails.Refresh | DrinkieModules/Sources/ProductDetails/ProductDetails/ProductDetailsViewModel.swift:54-60 | the displayed totals become those of the current product and selection |
| Aggregation.ProductDetails.SelectProduct | DrinkieModules/Sources/ProductDetails/ProductDetails/ProductDetailsViewModel.swift:47-52 | a product change is forwarded to the resolver as a reset, the description is replaced, the resolver's currency is kept, and the totals are refreshed |
| Aggregation.ProductDetails.SelectIngredient | DrinkieModules/Sources/ProductDetails/ProductDetails/ProductDetailsViewModel.swift:34-45 | a tap updates the resolver's groups and refreshes the totals; product, description and the resolver's currency are kept |
| Aggregation.ProductDetails.SelectQuantity | DrinkieModules/Sources/ProductDetails/ProductDetails/ProductDetailsViewModel.swift:34-45 | a tier switch updates the resolver's groups and refreshes the totals; product, description and the resolver's currency are kept |
| StoreList.SortBySpec | DrinkieModules/Sources/SelectStoreUnit/SelectStoreUnit/ListSelectionView.swift:15-18 | sorting yields a permutation ordered by the key |
| StoreList.CitiesSpec | DrinkieModules/Sources/SelectStoreUnit/SelectStoreUnit/ListSelectionView.swift:11 | the city map has a key exactly for each unit's city, whose value is the name carried by the last unit of that city |
| StoreList.UnitsOfCity | DrinkieModules/Sources/SelectStoreUnit/SelectStoreUnit/ListSelectionView.swift:15 | the filter keeps exactly the units of the city, as many as there are |
| StoreList.UnsortedSpec | DrinkieModules/Sources/SelectStoreUnit/SelectStoreUnit/ListSelectionView.swift:13-17 | one group per enumerated city, built from that city |
| StoreList.GroupHasUnits | DrinkieModules/Sources/SelectStoreUnit/SelectStoreUnit/ListSelectionView.swift:11-17 | every group's city has at least one unit |
| StoreList.UnitHasGroup | DrinkieModules/Sources/SelectStoreUnit/SelectStoreUnit/ListSelectionView.swift:11-17 | every unit's city has a group |
| StoreList.GroupIdsDistinct | DrinkieModules/Sources/SelectStoreUnit/SelectStoreUnit/ListSelectionView.swift:11-18 | no two groups share a city id |
| StoreList.GroupTitleIsLastCityName | DrinkieModules/Sources/SelectStoreUnit/SelectStoreUnit/ListSelectionView.swift:11 | a group's title is the city name of the last unit with its city id |
| StoreList.GroupUnitsAreItsCity | DrinkieModules/Sources/SelectStoreUnit/SelectStoreUnit/ListSelectionView.swift:15 | a group holds exactly the units of its city, sorted by alias |
| StoreList.GroupsSortedByTitle | DrinkieModules/Sources/SelectStoreUnit/SelectStoreUnit/ListSelectionView.swift:18 | the groups are sorted by title and are a permutation of the per-city groups |
| StoreList.UnitCountPreserved | DrinkieModules/Sources/SelectStoreUnit/SelectStoreUnit/ListSelectionView.swift:11-18 | the groups together hold as many units as the input |
| Menu.PromotionBannersIff | DrinkieModules/Sources/Menu/Menu/MenuViewModel.swift:95-98 | the banner list is non-empty exactly when some tab's banner carries a promotion banner |
| Menu.PromotionBlocksIff | DrinkieModules/Sources/Menu/Menu/MenuViewModel.swift:100-104 | the block list is non-empty exactly when some block of some section of some tab carries a promotion list block |
| Menu.ContainsPromotionsIff | DrinkieModules/Sources/Menu/Menu/MenuViewModel.swift:93-107 | the menu view contains promotions exactly when it has a promotion banner or a promotion block |
| Menu.AvailableIff | DrinkieModules/Sources/Menu/Menu/MenuViewModel.swift:116-117 | a product is available exactly when there is no stop response, or it is not stopped and its first stock entry, if any, is not 0 |
| Menu.MissingStockIsUnlimited | DrinkieModules/Sources/Menu/Menu/MenuViewModel.swift:117 | a product with no stock entry has `Int.max` stock and is available exactly when it is not stopped |
| Menu.ProductLinkAttributesSpec | DrinkieModules/Sources/Menu/Menu/MenuViewModel.swift:111-140 | no attributes exactly when there is no menu or no product with the id; otherwise the title is the first such product's name and availability is as above |
| Menu.ActionTitle | DrinkieModules/Sources/Menu/Menu/MenuViewModel.swift:146-151 | the action title is "Sign in & apply" exactly when the action carries a coupon code, and absent otherwise |
| Menu.ImageURLSpec | DrinkieModules/Sources/Menu/Menu/MenuViewModel.swift:154-157 | the image is the first tagged "4x3", else the first, else none |
| Menu.PromotionLinkAttributesSpec | DrinkieModules/Sources/Menu/Menu/MenuViewModel.swift:142-178 | no attributes exactly when there are no promotions or none has the id; otherwise title, description, action title and image follow the first such promotion |
| Menu.MenuLoader.constructor | DrinkieModules/Sources/Menu/Menu/MenuViewModel.swift:35-42 | nothing is requested, loading or stored |
| Menu.MenuLoader.TryLoadMenu | DrinkieModules/Sources/Menu/Menu/MenuViewModel.swift:65-71 | a load starts exactly when none is running and the menu or menu-view response is missing; stored responses are untouched |
| Menu.MenuLoader.FinishLoad | DrinkieModules/Sources/Menu/Menu/MenuViewModel.swift:69-90 | responses are stored only when all three fetches succeed; promotions are stored only when the view contains them; loaded exactly when every needed fetch succeeded, else failed; once the three are stored no further load starts |
| Menu.MenuLoader.Handle | DrinkieModules/Sources/Menu/Menu/MenuViewModel.swift:50-60 | appearance and retry try to load, and a started load is marked loading with state `loading` while a refused one leaves both as they were; link taps change nothing; stored responses are never touched |
| Surprises.TiersSplitByName | DrinkieModules/Sources/ProductDetails/CustomiseProduct/CustomiseProductViewModel.swift:79-81 | two tiers with one value and different names are both kept |
| Surprises.LoneZeroTierKept | DrinkieModules/Sources/ProductDetails/CustomiseProduct/CustomiseProductViewModel.swift:85-88 | a group whose only tier has value 0 keeps it and survives the reset |
| Surprises.ThreeOfTwoWellFormed | DrinkieModules/Sources/ProductDetails/CustomiseProduct/CustomiseProductViewModel.swift:213-230 | the `multi` example starts in a state the resolver can hold, at its cap |
| Surprises.ThirdTapKeepsOnlyTapped | DrinkieModules/Sources/ProductDetails/CustomiseProduct/CustomiseProductViewModel.swift:220-227 | tapping a third member over the cap deselects both earlier members |
| Surprises.TierSwitchEmptiesSingle | DrinkieModules/Sources/ProductDetails/CustomiseProduct/CustomiseProductViewModel.swift:169-175 | a tier switch can leave a `single` group with no member selected |
| Surprises.TierSwitchExceedsCap | DrinkieModules/Sources/ProductDetails/CustomiseProduct/CustomiseProductViewModel.swift:169-175 | a tier switch can push a `multi` group over its cap |

## Left out

- Combine plumbing (`PassthroughSubject`, `CurrentValueSubject`, `sink`, `CombineLatest`) is replaced by explicit method calls on the classes.
- Image and video loading (`getImage`, the `loadImage` and banner loader closures) is not modelled. It is asynchronous I/O, and its URLs use CGFloat formatting.
- Menu.ImageURLSpec: chooses the URL string; `URL(string:)` parsing is not modelled.
- Selection.IngredientEquals: the `loadImage` closure is not a field of the model's member. It takes no part in `==` or `hash`.
- Customise.CustomiseProduct.DidReceiveCurrency: the ISO code is one field of the class rather than a field of every member. The member value shown in the source has no `currency` field, though the view model assigns one. Re-emitting the groups with the new code is therefore modelled as keeping them, and the cell texts take the code as a parameter.
- Customise.LocalizedPrice: takes the currency code as a parameter instead of reading it from the first member. An empty group still shows an empty code.
- Aggregation.TotalFoodValue: food-value fields are exact reals, not `Double`, so associativity holds in the model but not for floating point.
- FoodValueSum.PlusAssociative: holds for exact reals only. `Double` addition is not associative.
- Int overflow is not modelled: prices and quantities are unbounded integers, and `Int.max` is the constant 2^63 - 1.
- StoreList.SortBySpec: string `<` is modelled as lexicographic order on characters, without Unicode normalisation. The sort is an insertion sort, and only "sorted and a permutation" is promised, so the order among groups with equal titles is left unspecified.
- Menu.MenuLoader.FinishLoad: the awaited fetches are parameters, with `None` standing for a thrown error. Error values and cancellation are not modelled. The model takes the three results together and does not capture that a failed fetch skips the later ones.
- Menu.ProductLinkAttributesSpec: the localized price ("RUB" followed by a formatted `Double`) is not modelled.
- Layout, cells, views, animations and Codable key mappings are not modelled, and neither is store opening status, which needs a schedule extension and the clock.
- `DependencyContainer` is not part of this model.

## Notable behaviour

Some of the code's behaviour is easy to miss when reading it. Each case below
is shown on a concrete example in `Surprises`:

- Tiers are compared as whole values (name, value and flag), so two variation
  names at one value give two tiers (`TiersSplitByName`).
- Zero-value tiers are filtered out only when there is more than one tier, so
  a group whose only tier has value 0 is kept (`LoneZeroTierKept`).
- The `multi` loop tests the input group's total, which no iteration lowers.
  Once that total exceeds the cap, every selected member except the tapped one
  is deselected (`ThirdTapKeepsOnlyTapped`).
- `didSelectQuantity` runs no validity pass. A tier switch can leave a
  `single` group with no selection (`TierSwitchEmptiesSingle`) and can push a
  `multi` group over its cap (`TierSwitchExceedsCap`).
- Suppose the menu, menu-view and stops responses are stored but the
  promotions fetch then fails. `tryLoadMenu` then refuses every retry, because
  both guarded responses are present. This is the final clause of
  `Menu.MenuLoader.FinishLoad`.
