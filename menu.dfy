/** `MenuViewModel`: the decision whether a menu view holds promotions, the
    lookups behind a product link's and a promotion link's attributes, and
    the guards of the load task. The network fetches are parameters: each
    is `None` when the call throws. Image and video downloads are not part
    of this model; a promotion's image is the URL its loader would fetch. */
module Menu {
  import opened Wrappers
  import opened MenuModel

  // ---------------------------------------------------------------------
  // `GetMenuView`, reduced to what the view model reads

  datatype ProductLink = ProductLink(id: string, price: real)
  datatype ProductBanner = ProductBanner(productLink: ProductLink)
  datatype PromotionLink = PromotionLink(id: string)
  datatype PromotionBanner = PromotionBanner(promotionLink: PromotionLink)
  datatype Banner = Banner(promotionBanner: Option<PromotionBanner>, productBanner: Option<ProductBanner>)
  datatype ProductListBlock = ProductListBlock(productLinks: seq<ProductLink>)
  datatype PromotionListBlock = PromotionListBlock(promotionLinks: seq<PromotionLink>)
  datatype Block = Block(productListBlock: Option<ProductListBlock>, promotionListBlock: Option<PromotionListBlock>)
  datatype Section = Section(title: Option<string>, blocks: seq<Block>)
  datatype ModularTab = ModularTab(banner: Banner, sections: seq<Section>)
  datatype Tab = Tab(id: string, title: string, modularTab: ModularTab)
  datatype MenuView = MenuView(unitID: string, tabs: seq<Tab>)

  // `GetMenu`, `GetStops` and `GetPromotions`, reduced likewise

  datatype Item = Item(id: string, name: string, products: seq<Product>)
  datatype MenuResponse = MenuResponse(items: seq<Item>)

  datatype StopProduct = StopProduct(productID: string)
  datatype ProductStock = ProductStock(productID: string, quantity: int)
  datatype Stops = Stops(products: seq<StopProduct>, productStocks: seq<ProductStock>)

  datatype PromotionImage = PromotionImage(url: string, tags: Option<seq<string>>)
  datatype PromotionAction = PromotionAction(couponCode: Option<string>)
  datatype Promotion = Promotion(
    id: string,
    title: string,
    description: string,
    images: seq<PromotionImage>,
    action: Option<PromotionAction>)

  // ---------------------------------------------------------------------
  // Promotion detection

  function ModularTabOf(t: Tab): ModularTab
  {
    t.modularTab
  }

  function BannerPromotion(m: ModularTab): Option<PromotionBanner>
  {
    m.banner.promotionBanner
  }

  function TabSections(t: Tab): seq<Section>
  {
    t.modularTab.sections
  }

  function SectionBlocks(s: Section): seq<Block>
  {
    s.blocks
  }

  function BlockPromotions(b: Block): Option<PromotionListBlock>
  {
    b.promotionListBlock
  }

  /** `tabs.map { $0.modularTab }.compactMap { $0.banner.promotionBanner }`. */
  function PromotionBanners(mv: MenuView): seq<PromotionBanner>
  {
    CompactMap(MapSeq(mv.tabs, ModularTabOf), BannerPromotion)
  }

  /** `tabs.flatMap { $0.modularTab.sections }.flatMap { $0.blocks }
      .compactMap { $0.promotionListBlock }`. */
  function PromotionBlocks(mv: MenuView): seq<PromotionListBlock>
  {
    CompactMap(FlatMap(FlatMap(mv.tabs, TabSections), SectionBlocks), BlockPromotions)
  }

  /** `isMenuViewContainsPromotions`. */
  predicate ContainsPromotions(mv: MenuView)
  {
    |PromotionBanners(mv)| > 0 || |PromotionBlocks(mv)| > 0
  }

  /** Some tab's banner is a promotion banner. */
  ghost predicate HasPromotionBanner(mv: MenuView)
  {
    exists t :: t in mv.tabs && t.modularTab.banner.promotionBanner.Some?
  }

  /** Some block of some section of some tab is a promotion list. */
  ghost predicate HasPromotionBlock(mv: MenuView)
  {
    exists t, s, b :: t in mv.tabs && s in t.modularTab.sections && b in s.blocks && b.promotionListBlock.Some?
  }

  lemma PromotionBannersIff(mv: MenuView)
    ensures |PromotionBanners(mv)| > 0 <==> HasPromotionBanner(mv)
  {
    var ms := MapSeq(mv.tabs, ModularTabOf);
    var r := PromotionBanners(mv);
    if |r| > 0 {
      CompactMapIn(ms, BannerPromotion, r[0]);
      var x :| x in ms && BannerPromotion(x) == Some(r[0]);
      var i :| 0 <= i < |ms| && ms[i] == x;
      assert mv.tabs[i] in mv.tabs;
    }
    if HasPromotionBanner(mv) {
      var t :| t in mv.tabs && t.modularTab.banner.promotionBanner.Some?;
      var i :| 0 <= i < |mv.tabs| && mv.tabs[i] == t;
      assert ms[i] in ms;
      CompactMapIn(ms, BannerPromotion, t.modularTab.banner.promotionBanner.value);
    }
  }

  lemma PromotionBlocksIff(mv: MenuView)
    ensures |PromotionBlocks(mv)| > 0 <==> HasPromotionBlock(mv)
  {
    var sections := FlatMap(mv.tabs, TabSections);
    var blocks := FlatMap(sections, SectionBlocks);
    var r := PromotionBlocks(mv);
    if |r| > 0 {
      CompactMapIn(blocks, BlockPromotions, r[0]);
      var b :| b in blocks && BlockPromotions(b) == Some(r[0]);
      FlatMapIn(sections, SectionBlocks, b);
      var s :| s in sections && b in SectionBlocks(s);
      FlatMapIn(mv.tabs, TabSections, s);
      var t :| t in mv.tabs && s in TabSections(t);
      assert t in mv.tabs && s in t.modularTab.sections && b in s.blocks && b.promotionListBlock.Some?;
    }
    if HasPromotionBlock(mv) {
      var t, s, b :| t in mv.tabs && s in t.modularTab.sections && b in s.blocks && b.promotionListBlock.Some?;
      FlatMapIn(mv.tabs, TabSections, s);
      FlatMapIn(sections, SectionBlocks, b);
      CompactMapIn(blocks, BlockPromotions, b.promotionListBlock.value);
    }
  }

  /** A menu view contains promotions iff some tab has a promotion banner
      or some block anywhere in it is a promotion list. */
  lemma ContainsPromotionsIff(mv: MenuView)
    ensures ContainsPromotions(mv) <==> HasPromotionBanner(mv) || HasPromotionBlock(mv)
  {
    PromotionBannersIff(mv);
    PromotionBlocksIff(mv);
  }

  // ---------------------------------------------------------------------
  // Product availability

  /** `Int.max` on a 64-bit platform: the stock of a product with no entry. */
  const IntMax: int := 0x7fff_ffff_ffff_ffff

  function IsStopOf(id: string): StopProduct -> bool
  {
    (p: StopProduct) => p.productID == id
  }

  function IsStockOf(id: string): ProductStock -> bool
  {
    (p: ProductStock) => p.productID == id
  }

  /** `getStopsResponse?.products.first(where: …) != nil`. */
  function InStopList(stops: Option<Stops>, id: string): bool
  {
    stops.Some? && FirstWhere(stops.value.products, IsStopOf(id)).Some?
  }

  /** `getStopsResponse?.productStocks.first(where: …)?.quantity ?? Int.max`. */
  function StocksQuantity(stops: Option<Stops>, id: string): int
  {
    if stops.None? then IntMax
    else match FirstWhere(stops.value.productStocks, IsStockOf(id))
      case None => IntMax
      case Some(i) => stops.value.productStocks[i].quantity
  }

  /** `!(inStopList || stocksQuantity == 0)`. */
  function IsAvailable(stops: Option<Stops>, id: string): bool
  {
    !(InStopList(stops, id) || StocksQuantity(stops, id) == 0)
  }

  /** A product is available iff there is no stops response, or its id is
      not in the stop list and its first stock entry, if any, is not 0. */
  lemma AvailableIff(stops: Option<Stops>, id: string)
    ensures IsAvailable(stops, id) <==>
      stops.None? ||
      ((forall p :: p in stops.value.products ==> p.productID != id) &&
       (forall i :: (0 <= i < |stops.value.productStocks| && stops.value.productStocks[i].productID == id &&
                     (forall j :: 0 <= j < i ==> stops.value.productStocks[j].productID != id)) ==>
          stops.value.productStocks[i].quantity != 0))
  {
    if stops.Some? {
      var ps := stops.value.products;
      if FirstWhere(ps, IsStopOf(id)).None? {
        forall p | p in ps
          ensures p.productID != id
        {
          var k :| 0 <= k < |ps| && ps[k] == p;
          assert !IsStopOf(id)(ps[k]);
        }
      }
      var ss := stops.value.productStocks;
      var first := FirstWhere(ss, IsStockOf(id));
      forall i | 0 <= i < |ss| && ss[i].productID == id && (forall j :: 0 <= j < i ==> ss[j].productID != id)
        ensures first == Some(i)
      {
        assert IsStockOf(id)(ss[i]);
      }
    }
  }

  /** A product with no stock entry is available iff it is not in the stop
      list: a missing entry counts as an unlimited stock. */
  lemma MissingStockIsUnlimited(stops: Stops, id: string)
    requires forall s :: s in stops.productStocks ==> s.productID != id
    ensures StocksQuantity(Some(stops), id) == IntMax
    ensures IsAvailable(Some(stops), id) <==> !InStopList(Some(stops), id)
  {
  }

  // ---------------------------------------------------------------------
  // Link attributes

  /** The part of `ProductLinkAttributes` that is not a loader closure or
      the formatted price. */
  datatype ProductLinkAttributes = ProductLinkAttributes(localizedTitle: string, isAvailable: bool)

  function ItemProducts(it: Item): seq<Product>
  {
    it.products
  }

  function HasId(id: string): Product -> bool
  {
    (p: Product) => p.id == id
  }

  /** `getMenuResponse.items.flatMap { $0.products }`. */
  function AllProducts(menu: MenuResponse): seq<Product>
  {
    FlatMap(menu.items, ItemProducts)
  }

  /** `productLinkAttributes(_:)`. */
  function ProductLinkAttributesOf(menu: Option<MenuResponse>, stops: Option<Stops>, link: ProductLink)
    : Option<ProductLinkAttributes>
  {
    match menu
    case None => None
    case Some(m) =>
      var products := AllProducts(m);
      match FirstWhere(products, HasId(link.id))
      case None => None
      case Some(i) => Some(ProductLinkAttributes(products[i].name, IsAvailable(stops, link.id)))
  }

  /** The attributes are nil iff there is no menu or no item has a product
      with the link's id; otherwise the title is the name of the first such
      product, items taken in order, and the availability is the product's. */
  lemma ProductLinkAttributesSpec(menu: Option<MenuResponse>, stops: Option<Stops>, link: ProductLink)
    ensures var r := ProductLinkAttributesOf(menu, stops, link);
      r.None? <==> menu.None? || forall it, p :: it in menu.value.items && p in it.products ==> p.id != link.id
    ensures var r := ProductLinkAttributesOf(menu, stops, link);
      r.Some? ==>
        r.value.isAvailable == IsAvailable(stops, link.id) &&
        exists i :: (0 <= i < |AllProducts(menu.value)| && AllProducts(menu.value)[i].id == link.id &&
          (forall j :: 0 <= j < i ==> AllProducts(menu.value)[j].id != link.id) &&
          r.value.localizedTitle == AllProducts(menu.value)[i].name)
  {
    if menu.Some? {
      var products := AllProducts(menu.value);
      var found := FirstWhere(products, HasId(link.id));
      if found.Some? {
        var p := products[found.value];
        assert HasId(link.id)(p);
        FlatMapIn(menu.value.items, ItemProducts, p);
      } else {
        forall it, p | it in menu.value.items && p in it.products
          ensures p.id != link.id
        {
          FlatMapIn(menu.value.items, ItemProducts, p);
          var k :| 0 <= k < |products| && products[k] == p;
          assert !HasId(link.id)(products[k]);
        }
      }
    }
  }

  /** The part of `PromotionLinkAttributes` that is not a loader closure;
      `imageURL` is the URL string the image loader fetches. */
  datatype PromotionLinkAttributes = PromotionLinkAttributes(
    localizedTitle: string,
    localizedDescription: string,
    actionLocalizedTitle: Option<string>,
    imageURL: Option<string>)

  const SignInAndApply: string := "Sign in & apply"

  /** The action title: set only when the action carries a coupon code. */
  function ActionTitle(promo: Promotion): (r: Option<string>)
    ensures r == Some(SignInAndApply) <==> promo.action.Some? && promo.action.value.couponCode.Some?
    ensures r.None? <==> promo.action.None? || promo.action.value.couponCode.None?
  {
    match promo.action
    case None => None
    case Some(a) => if a.couponCode.Some? then Some(SignInAndApply) else None
  }

  /** `($0.tags ?? []).contains("4x3")`. */
  predicate Tagged4x3(img: PromotionImage)
  {
    "4x3" in img.tags.GetOr([])
  }

  /** The image loader's choice: the first image tagged "4x3", else the
      first image, else none. */
  function ImageURL(images: seq<PromotionImage>): Option<string>
  {
    match FirstWhere(images, Tagged4x3)
    case Some(i) => Some(images[i].url)
    case None => if images == [] then None else Some(images[0].url)
  }

  lemma ImageURLSpec(images: seq<PromotionImage>)
    ensures ImageURL(images).None? <==> images == []
    ensures (exists i :: 0 <= i < |images| && Tagged4x3(images[i])) ==>
      exists i :: (0 <= i < |images| && Tagged4x3(images[i]) &&
        (forall j :: 0 <= j < i ==> !Tagged4x3(images[j])) && ImageURL(images) == Some(images[i].url))
    ensures images != [] && (forall i :: 0 <= i < |images| ==> !Tagged4x3(images[i])) ==>
      ImageURL(images) == Some(images[0].url)
  {
    var found := FirstWhere(images, Tagged4x3);
    if found.Some? {
      assert Tagged4x3(images[found.value]);
    }
  }

  function PromotionHasId(id: string): Promotion -> bool
  {
    (p: Promotion) => p.id == id
  }

  /** `promotionLinkAttributes(_:)`. */
  function PromotionLinkAttributesOf(promotions: Option<seq<Promotion>>, link: PromotionLink)
    : Option<PromotionLinkAttributes>
  {
    match promotions
    case None => None
    case Some(ps) =>
      match FirstWhere(ps, PromotionHasId(link.id))
      case None => None
      case Some(i) =>
        var promo := ps[i];
        Some(PromotionLinkAttributes(promo.title, promo.description, ActionTitle(promo), ImageURL(promo.images)))
  }

  /** The attributes are nil iff there is no promotions response or no
      promotion has the link's id; otherwise they are the first such
      promotion's title and description, "Sign in & apply" iff its action
      has a coupon code, and its chosen image. */
  lemma PromotionLinkAttributesSpec(promotions: Option<seq<Promotion>>, link: PromotionLink)
    ensures var r := PromotionLinkAttributesOf(promotions, link);
      r.None? <==> promotions.None? || forall p :: p in promotions.value ==> p.id != link.id
    ensures var r := PromotionLinkAttributesOf(promotions, link);
      r.Some? ==>
        exists i :: (0 <= i < |promotions.value| && promotions.value[i].id == link.id &&
          (forall j :: 0 <= j < i ==> promotions.value[j].id != link.id) &&
          r.value.localizedTitle == promotions.value[i].title &&
          r.value.localizedDescription == promotions.value[i].description &&
          (r.value.actionLocalizedTitle == Some(SignInAndApply) <==>
             promotions.value[i].action.Some? && promotions.value[i].action.value.couponCode.Some?) &&
          r.value.imageURL == ImageURL(promotions.value[i].images))
  {
    if promotions.Some? {
      var ps := promotions.value;
      var found := FirstWhere(ps, PromotionHasId(link.id));
      if found.Some? {
        assert PromotionHasId(link.id)(ps[found.value]);
      } else {
        forall p | p in ps
          ensures p.id != link.id
        {
          var k :| 0 <= k < |ps| && ps[k] == p;
          assert !PromotionHasId(link.id)(ps[k]);
        }
      }
    }
  }

  // ---------------------------------------------------------------------
  // Loading

  /** `MenuViewModel.State`; the error of `.failed` is not modelled. */
  datatype State = NotRequested | Loading | Loaded(menuView: MenuView) | Failed

  /** `MenuViewModel.Event`. */
  datatype Event = ViewDidAppear | TryAgainButtonPressed | ProductLinkTap(productLink: ProductLink)
                 | PromotionLinkTap(promotionLink: PromotionLink)

  class MenuLoader {
    /** The last state sent. */
    var state: State
    /** `getMenuTask != nil`. */
    var loading: bool
    var menuViewResponse: Option<MenuView>
    var menuResponse: Option<MenuResponse>
    var stopsResponse: Option<Stops>
    var promotionsResponse: Option<seq<Promotion>>

    constructor()
      ensures state == NotRequested && !loading
      ensures menuViewResponse.None? && menuResponse.None? && stopsResponse.None? && promotionsResponse.None?
    {
      state := NotRequested;
      loading := false;
      menuViewResponse := None;
      menuResponse := None;
      stopsResponse := None;
      promotionsResponse := None;
    }

    /** The two guards of `tryLoadMenu`: no task running, and the menu or
        the menu view still missing. */
    predicate MayLoad()
      reads this
    {
      !loading && (menuResponse.None? || menuViewResponse.None?)
    }

    /** `tryLoadMenu()` up to its first await: when both guards pass, a
        task is started and `.loading` is sent; otherwise nothing changes. */
    method TryLoadMenu() returns (started: bool)
      modifies this
      ensures started == old(MayLoad())
      ensures started ==> loading && state == Loading
      ensures !started ==> loading == old(loading) && state == old(state)
      ensures menuViewResponse == old(menuViewResponse) && menuResponse == old(menuResponse)
      ensures stopsResponse == old(stopsResponse) && promotionsResponse == old(promotionsResponse)
    {
      if loading {
        return false;
      }
      if menuResponse.Some? && menuViewResponse.Some? {
        return false;
      }
      loading := true;
      state := Loading;
      started := true;
    }

    /** The rest of the load task. The fetches run in order and the first
        that throws ends the task with `.failed`; the three responses are
        stored together, and promotions are fetched only when the menu view
        contains them. The task always clears itself on exit. */
    method FinishLoad(menuView: Option<MenuView>, menu: Option<MenuResponse>, stops: Option<Stops>,
                      promotions: Option<seq<Promotion>>)
      requires loading
      modifies this
      ensures !loading
      ensures var fetched := menuView.Some? && menu.Some? && stops.Some?;
        (fetched ==> menuViewResponse == menuView && menuResponse == menu && stopsResponse == stops) &&
        (!fetched ==> menuViewResponse == old(menuViewResponse) && menuResponse == old(menuResponse) &&
                      stopsResponse == old(stopsResponse))
      ensures promotionsResponse ==
        if menuView.Some? && menu.Some? && stops.Some? && ContainsPromotions(menuView.value) && promotions.Some?
        then promotions else old(promotionsResponse)
      ensures state.Loaded? <==>
        menuView.Some? && menu.Some? && stops.Some? && (ContainsPromotions(menuView.value) ==> promotions.Some?)
      ensures state.Loaded? ==> state.menuView == menuView.value
      ensures !state.Loaded? ==> state == Failed
      ensures menuView.Some? && menu.Some? && stops.Some? ==> !MayLoad()
    {
      if menuView.None? || menu.None? || stops.None? {
        state := Failed;
      } else {
        menuViewResponse := menuView;
        menuResponse := menu;
        stopsResponse := stops;
        if ContainsPromotions(menuView.value) {
          if promotions.None? {
            state := Failed;
          } else {
            promotionsResponse := promotions;
            state := Loaded(menuView.value);
          }
        } else {
          state := Loaded(menuView.value);
        }
      }
      loading := false;
    }

    /** The input sink: both load events try a load; link taps do nothing. */
    method Handle(e: Event) returns (started: bool)
      modifies this
      ensures (e.ViewDidAppear? || e.TryAgainButtonPressed?) ==> started == old(MayLoad())
      ensures started ==> loading && state == Loading
      ensures !started ==> loading == old(loading) && state == old(state)
      ensures (e.ProductLinkTap? || e.PromotionLinkTap?) ==> !started && unchanged(this)
      ensures menuViewResponse == old(menuViewResponse) && menuResponse == old(menuResponse)
      ensures stopsResponse == old(stopsResponse) && promotionsResponse == old(promotionsResponse)
    {
      match e
      case ViewDidAppear => started := TryLoadMenu();
      case TryAgainButtonPressed => started := TryLoadMenu();
      case ProductLinkTap(_) => started := false;
      case PromotionLinkTap(_) => started := false;
    }

    /** `productLinkAttributes(_:)` on the stored responses. */
    function ProductAttributes(link: ProductLink): Option<ProductLinkAttributes>
      reads this
    {
      ProductLinkAttributesOf(menuResponse, stopsResponse, link)
    }

    /** `promotionLinkAttributes(_:)` on the stored responses. */
    function PromotionAttributes(link: PromotionLink): Option<PromotionLinkAttributes>
      reads this
    {
      PromotionLinkAttributesOf(promotionsResponse, link)
    }
  }
}
