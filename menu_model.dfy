/** The catalog ("GetMenu") types the customisation core reads, as plain
    values. Swift's synthesized `Hashable` equality over every stored field
    is Dafny's structural equality on these datatypes, so every field that
    takes part in `==` is kept even where the core never reads it. */
module MenuModel {
  import opened Wrappers

  /** `FoodValue`: five independently optional nutrition facts. The source
      holds `Double`s; they are exact reals here. */
  datatype FoodValue = FoodValue(
    fats: Option<real>,
    proteins: Option<real>,
    carbohydrates: Option<real>,
    kiloCalories: Option<real>,
    weight: Option<real>)

  /** One tier in which an ingredient is offered. */
  datatype QuantityVariation = QuantityVariation(
    name: string,
    quantity: int,
    price: int,
    foodValue: FoodValue)

  datatype SizeType = Large | Medium | NoSize | Small

  datatype Preview = Preview(url: string, sizeType: SizeType, width: int, height: int)

  datatype Ingredient = Ingredient(
    id: string,
    code: int,
    name: string,
    description: Option<string>,
    imageURLTemplate: string,
    images: seq<Preview>,
    quantity: int,
    quantityVariations: seq<QuantityVariation>,
    materialTypeID: string,
    receiptID: Option<string>,
    toppingID: Option<string>)

  /** `ChoiceType`: the raw values are "Multi", "None" and "Single";
      `NoChoice` is the case Swift spells `.none`. */
  datatype ChoiceType = Multi | NoChoice | Single

  /** `Group`: one customisable composition group of a product. */
  datatype Group = Group(
    code: string,
    name: string,
    choiceType: ChoiceType,
    totalQuantityMin: int,
    totalQuantityMax: int,
    ingredients: seq<Ingredient>)
  {
    /** `Identifiable.id` of a group. */
    function Id(): (r: string)
      ensures r == code
    {
      code
    }
  }

  datatype Composition = Composition(groups: seq<Group>)

  datatype Price = Price(level: int, value: int)

  /** `Product`, reduced to the fields the customisation core and the
      product-details totals read. */
  datatype Product = Product(
    id: string,
    code: int,
    name: string,
    description: string,
    prices: seq<Price>,
    foodValue: Option<FoodValue>,
    composition: Option<Composition>)

  /** `product?.composition?.groups ?? []`: the groups the resolver is reset with. */
  function CompositionGroups(product: Option<Product>): (r: seq<Group>)
    ensures product.None? ==> r == []
    ensures product.Some? && product.value.composition.None? ==> r == []
    ensures product.Some? && product.value.composition.Some? ==> r == product.value.composition.value.groups
  {
    match product
    case None => []
    case Some(p) =>
      match p.composition
      case None => []
      case Some(c) => c.groups
  }
}
