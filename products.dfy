/** The product section: the tab table, the catalog loader that merges one
    JSON object per tab (an empty object when its fetch fails), the choice of
    product keys for the grid, the Show All / Show Less rule, and the card
    number and image taken from a key. */
module Products {
  import opened Text
  import ProductsModal

  datatype Option<T> = None | Some(value: T)

  /** One entry of the `tabs` table. */
  datatype Tab = Tab(id: string, name: string, nameAr: string, path: string,
                     hasData: bool, isFeatured: bool)

  const Featured := "featured"
  const Kids := "kids"

  /** Number of featured cards, matching the carousel's twelve images. */
  const FeaturedCount: nat := 12
  /** Number of cards the collapsed grid shows at most. */
  const CollapsedLimit: nat := 4

  function Tabs(): (tabs: seq<Tab>)
    ensures |tabs| == 5
    ensures tabs[0].id == Featured && tabs[0].isFeatured && !tabs[0].hasData
    ensures forall i :: 1 <= i < |tabs| ==> tabs[i].hasData && !tabs[i].isFeatured
    ensures forall i :: 0 <= i < |tabs| ==> tabs[i].path == tabs[i].id
  {
    [ Tab("featured", "Featured Products", "المنتجات المميزة", "featured", false, true),
      Tab("bone", "Bone Health", "صحة العظام", "bone", true, false),
      Tab("fertility", "Fertility Health", "صحة الخصوبة", "fertility", true, false),
      Tab("general", "General Health", "الصحة العامة", "general", true, false),
      Tab("kids", "Kids Health", "صحة الأطفال", "kids", true, false) ]
  }

  function TabIds(): (ids: seq<string>)
    ensures |ids| == |Tabs()|
    ensures forall i :: 0 <= i < |ids| ==> ids[i] == Tabs()[i].id
  {
    seq(|Tabs()|, i requires 0 <= i < |Tabs()| => Tabs()[i].id)
  }

  predicate Distinct<T(==)>(s: seq<T>) {
    forall i, j :: 0 <= i < j < |s| ==> s[i] != s[j]
  }

  /** The five tab ids, in order, are pairwise different. */
  lemma TabIdsDistinct()
    ensures TabIds() == ["featured", "bone", "fertility", "general", "kids"]
    ensures Distinct(TabIds())
  {
    var ids := TabIds();
    assert ids == ["featured", "bone", "fertility", "general", "kids"];
    assert ids[0][0] == 'f' && ids[1][0] == 'b' && ids[2][0] == 'f' && ids[3][0] == 'g' && ids[4][0] == 'k';
    assert ids[0][2] != ids[2][2];
  }

  /** A product record as it appears in a category's `info.json`. */
  datatype Product = Product(name: string, description: string, price: real, currency: string,
                             category: string, tags: seq<string>, availability: string,
                             imageUrl: string)

  datatype Entry = Entry(key: string, product: Product)

  function Keys(data: seq<Entry>): (keys: seq<string>)
    ensures |keys| == |data|
    ensures forall i :: 0 <= i < |data| ==> keys[i] == data[i].key
  {
    seq(|data|, i requires 0 <= i < |data| => data[i].key)
  }

  /** An object has each key once. */
  predicate WellFormed(data: seq<Entry>) {
    Distinct(Keys(data))
  }

  /** A parsed `info.json` object: its entries in `Object.keys` order, each key
      once (a key repeated in the file has already collapsed into one entry). */
  type ProductData = d: seq<Entry> | WellFormed(d)

  /** `data[key]`, undefined when the key is absent. */
  function Lookup(data: seq<Entry>, key: string): (r: Option<Product>)
    ensures r.None? <==> key !in Keys(data)
    ensures r.Some? ==> exists i :: 0 <= i < |data| && data[i] == Entry(key, r.value)
    decreases |data|
  {
    if data == [] then None
    else if data[0].key == key then Some(data[0].product)
    else
      var r := Lookup(data[1..], key);
      assert Keys(data) == [data[0].key] + Keys(data[1..]);
      assert r.Some? ==> exists i :: 0 <= i < |data| && data[i] == Entry(key, r.value) by {
        if r.Some? {
          var i :| 0 <= i < |data[1..]| && data[1..][i] == Entry(key, r.value);
          assert data[i + 1] == Entry(key, r.value);
        }
      }
      r
  }

  /** `allProducts`: one parsed object per tab id. */
  type Catalog = map<string, ProductData>

  /** How one tab's fetch and JSON parse ended. */
  datatype FetchOutcome = Loaded(data: ProductData) | Failed

  function DataOf(outcome: FetchOutcome): (data: ProductData)
    ensures outcome.Failed? ==> data == []
  {
    match outcome
    case Loaded(d) => d
    case Failed => []
  }

  /** `{ [tab.id]: data }`, or `{ [tab.id]: {} }` from the catch. */
  function TabResult(tab: Tab, outcome: FetchOutcome): (r: Catalog)
    ensures r.Keys == {tab.id} && r[tab.id] == DataOf(outcome)
  {
    map[tab.id := DataOf(outcome)]
  }

  /** `reduce((acc, curr) => ({ ...acc, ...curr }), acc)`: later keys win. */
  function MergeAll(acc: Catalog, results: seq<Catalog>): (merged: Catalog)
    ensures forall k :: k in acc ==> k in merged
    ensures forall j, k :: 0 <= j < |results| && k in results[j] ==> k in merged
    ensures forall k :: k in merged ==> k in acc || exists j :: 0 <= j < |results| && k in results[j]
    decreases |results|
  {
    if results == [] then acc
    else
      var merged := MergeAll(acc + results[0], results[1..]);
      assert forall j, k :: 1 <= j < |results| && k in results[j] ==> k in results[1..][j - 1];
      assert forall k :: k in merged ==> k in acc || exists j :: 0 <= j < |results| && k in results[j] by {
        forall k | k in merged && k !in acc && k !in results[0]
          ensures exists j :: 0 <= j < |results| && k in results[j]
        {
          var j :| 0 <= j < |results[1..]| && k in results[1..][j];
          assert k in results[j + 1];
        }
      }
      merged
  }

  /** The catalog `loadAllProducts` stores, given each tab's outcome in table order. */
  function MergedCatalog(outcomes: seq<FetchOutcome>): (catalog: Catalog)
    requires |outcomes| == |Tabs()|
    ensures forall i :: 0 <= i < |Tabs()| ==> Tabs()[i].id in catalog
    ensures forall k :: k in catalog ==> k in TabIds()
  {
    var results := seq(|Tabs()|, i requires 0 <= i < |Tabs()| => TabResult(Tabs()[i], outcomes[i]));
    assert forall i :: 0 <= i < |Tabs()| ==> Tabs()[i].id in results[i];
    assert forall i, k :: 0 <= i < |Tabs()| && k in results[i] ==> k in TabIds() by {
      forall i, k | 0 <= i < |Tabs()| && k in results[i] ensures k in TabIds() {
        assert k == TabIds()[i];
      }
    }
    MergeAll(map[], results)
  }

  /** Merging one-key results with distinct keys adds each key with its own value. */
  lemma {:induction false} MergeSingletons(acc: Catalog, results: seq<Catalog>,
                                           ids: seq<string>, vals: seq<ProductData>)
    requires |results| == |ids| == |vals|
    requires forall j :: 0 <= j < |results| ==> results[j] == map[ids[j] := vals[j]]
    requires Distinct(ids)
    ensures forall k :: k in MergeAll(acc, results) <==> k in acc || k in ids
    ensures forall j :: 0 <= j < |ids| ==> MergeAll(acc, results)[ids[j]] == vals[j]
    ensures forall k :: k in acc && k !in ids ==> MergeAll(acc, results)[k] == acc[k]
    decreases |results|
  {
    if results != [] {
      var acc' := acc + results[0];
      assert acc' == acc[ids[0] := vals[0]];
      MergeSingletons(acc', results[1..], ids[1..], vals[1..]);
      var m := MergeAll(acc, results);
      assert m == MergeAll(acc', results[1..]);
      forall k ensures k in ids <==> k == ids[0] || k in ids[1..] {
        assert ids == [ids[0]] + ids[1..];
      }
      forall j | 0 <= j < |ids| ensures m[ids[j]] == vals[j] {
        if j == 0 {
          assert ids[0] !in ids[1..] by {
            forall t | 0 <= t < |ids[1..]| ensures ids[1..][t] != ids[0] {
              assert ids[1..][t] == ids[t + 1];
            }
          }
        } else {
          assert ids[1..][j - 1] == ids[j];
        }
      }
    }
  }

  /** The loaded catalog has exactly one entry per tab, holding that tab's
      parsed object, or `{}` when its fetch failed. */
  lemma MergedCatalogSpec(outcomes: seq<FetchOutcome>)
    requires |outcomes| == |Tabs()|
    ensures MergedCatalog(outcomes).Keys == set i | 0 <= i < |Tabs()| :: Tabs()[i].id
    ensures forall i :: 0 <= i < |Tabs()| ==> MergedCatalog(outcomes)[Tabs()[i].id] == DataOf(outcomes[i])
  {
    var results := seq(|Tabs()|, i requires 0 <= i < |Tabs()| => TabResult(Tabs()[i], outcomes[i]));
    var vals := seq(|Tabs()|, i requires 0 <= i < |Tabs()| => DataOf(outcomes[i]));
    TabIdsDistinct();
    MergeSingletons(map[], results, TabIds(), vals);
    var m := MergedCatalog(outcomes);
    forall k ensures k in m.Keys <==> k in set i | 0 <= i < |Tabs()| :: Tabs()[i].id {
      if k in TabIds() {
        var i :| 0 <= i < |TabIds()| && TabIds()[i] == k;
        assert Tabs()[i].id == k;
      }
    }
  }

  /** A failed fetch empties its own tab and no other. */
  lemma FailureIsolated(outcomes: seq<FetchOutcome>, j: nat)
    requires |outcomes| == |Tabs()| && j < |Tabs()|
    ensures MergedCatalog(outcomes[j := Failed])[Tabs()[j].id] == []
    ensures forall i :: 0 <= i < |Tabs()| && i != j ==>
      MergedCatalog(outcomes[j := Failed])[Tabs()[i].id] == MergedCatalog(outcomes)[Tabs()[i].id]
  {
    MergedCatalogSpec(outcomes);
    MergedCatalogSpec(outcomes[j := Failed]);
  }

  function Min(a: nat, b: nat): nat {
    if a < b then a else b
  }

  /** `Array.from({ length: n }, (_, i) => prefix + (i + 1))`. */
  function NumberedKeys(prefix: string, n: nat): (keys: seq<string>)
    ensures |keys| == n
    ensures forall i :: 0 <= i < n ==> keys[i] == prefix + NatToString(i + 1)
  {
    seq(n, i requires 0 <= i < n => prefix + NatToString(i + 1))
  }

  /** Cards a category without data falls back to. */
  function FallbackCount(tabId: string): (n: nat)
    ensures n == 3 || n == 8
    ensures n == 3 <==> tabId == Kids
  {
    if tabId == Kids then 3 else 8
  }

  /** The tab's data is present and is a non-empty object. */
  predicate HasProducts(tabId: string, catalog: Catalog)
    ensures HasProducts(tabId, catalog) <==> tabId in catalog && Keys(catalog[tabId]) != []
  {
    tabId in catalog && |catalog[tabId]| > 0
  }

  /** `getProductsToShow()` for the given `activeTab`, `showAll` and `allProducts`. */
  function ProductsToShow(activeTab: string, showAll: bool, catalog: Catalog): (keys: seq<string>)
    ensures |keys| == if showAll then ProductCount(activeTab, catalog)
                      else Min(CollapsedLimit, ProductCount(activeTab, catalog))
  {
    if activeTab == Featured then
      NumberedKeys("featured-", if showAll then FeaturedCount else Min(CollapsedLimit, FeaturedCount))
    else if HasProducts(activeTab, catalog) then
      var productKeys := Keys(catalog[activeTab]);
      if showAll then productKeys else productKeys[..Min(CollapsedLimit, |productKeys|)]
    else
      var count := FallbackCount(activeTab);
      NumberedKeys("product-", if showAll then count else Min(CollapsedLimit, count))
  }

  /** `productCount` of the Show All button block. */
  function ProductCount(activeTab: string, catalog: Catalog): (n: nat)
    ensures activeTab != Featured && !HasProducts(activeTab, catalog) ==> n == FallbackCount(activeTab)
    ensures n > 0
  {
    if activeTab == Featured then FeaturedCount
    else if HasProducts(activeTab, catalog) then |catalog[activeTab]|
    else FallbackCount(activeTab)
  }

  /** The Show All / Show Less button is rendered. */
  predicate ShowToggle(activeTab: string, catalog: Catalog)
    ensures activeTab == Featured ==> ShowToggle(activeTab, catalog)
    ensures activeTab != Featured && !HasProducts(activeTab, catalog) ==>
      (ShowToggle(activeTab, catalog) <==> activeTab != Kids)
    ensures activeTab != Featured && HasProducts(activeTab, catalog) ==>
      (ShowToggle(activeTab, catalog) <==> |Keys(catalog[activeTab])| > CollapsedLimit)
  {
    ProductCount(activeTab, catalog) > CollapsedLimit
  }

  /** The featured tab shows `featured-1` .. `featured-12` expanded and
      `featured-1` .. `featured-4` collapsed, whatever was loaded. */
  lemma FeaturedView(showAll: bool, catalog: Catalog)
    ensures ProductsToShow(Featured, showAll, catalog) ==
            NumberedKeys("featured-", if showAll then 12 else 4)
    ensures ShowToggle(Featured, catalog)
  {}

  /** A tab with data shows all its keys in order when expanded and their
      first min(4, n) when collapsed. */
  lemma DataView(activeTab: string, catalog: Catalog)
    requires activeTab != Featured && HasProducts(activeTab, catalog)
    ensures ProductsToShow(activeTab, true, catalog) == Keys(catalog[activeTab])
    ensures ProductsToShow(activeTab, false, catalog) ==
            Keys(catalog[activeTab])[..Min(4, |catalog[activeTab]|)]
  {}

  /** A tab with missing or empty data shows `product-1` .. `product-n`, with
      n = 3 for kids and 8 otherwise, cut to four when collapsed. */
  lemma FallbackView(activeTab: string, showAll: bool, catalog: Catalog)
    requires activeTab != Featured && !HasProducts(activeTab, catalog)
    ensures var n := if activeTab == Kids then 3 else 8;
      ProductsToShow(activeTab, showAll, catalog) ==
      NumberedKeys("product-", if showAll then n else Min(4, n))
  {}

  lemma NumberedKeysPrefix(prefix: string, m: nat, n: nat)
    requires m <= n
    ensures NumberedKeys(prefix, m) == NumberedKeys(prefix, n)[..m]
  {
    assert forall i :: 0 <= i < m ==> NumberedKeys(prefix, m)[i] == NumberedKeys(prefix, n)[..m][i];
  }

  /** Collapsing only hides cards from the end: the collapsed list is a prefix
      of the expanded one, at most four long, and shorter exactly when the
      button is shown. */
  lemma CollapsedIsPrefix(activeTab: string, catalog: Catalog)
    ensures var short, full := ProductsToShow(activeTab, false, catalog), ProductsToShow(activeTab, true, catalog);
      short == full[..|short|] && |short| <= CollapsedLimit &&
      (ShowToggle(activeTab, catalog) <==> |short| < |full|) &&
      |full| == ProductCount(activeTab, catalog)
  {
    if activeTab == Featured {
      NumberedKeysPrefix("featured-", Min(CollapsedLimit, FeaturedCount), FeaturedCount);
    } else if !HasProducts(activeTab, catalog) {
      var count := FallbackCount(activeTab);
      NumberedKeysPrefix("product-", Min(CollapsedLimit, count), count);
    }
  }

  lemma NumberedKeysDistinct(prefix: string, n: nat)
    ensures Distinct(NumberedKeys(prefix, n))
  {
    var keys := NumberedKeys(prefix, n);
    forall i, j | 0 <= i < j < n ensures keys[i] != keys[j] {
      if keys[i] == keys[j] {
        FramedInjective(prefix, NatToString(i + 1), NatToString(j + 1), "");
        NatToStringInjective(i + 1, j + 1);
      }
    }
  }

  /** The grid never shows the same key twice (each card's React key is unique),
      provided the loaded objects have each key once. */
  lemma ShownKeysDistinct(activeTab: string, showAll: bool, catalog: Catalog)
    ensures Distinct(ProductsToShow(activeTab, showAll, catalog))
  {
    if activeTab == Featured {
      NumberedKeysDistinct("featured-", if showAll then FeaturedCount else Min(CollapsedLimit, FeaturedCount));
    } else if HasProducts(activeTab, catalog) {
      var keys := Keys(catalog[activeTab]);
      var shown := ProductsToShow(activeTab, showAll, catalog);
      assert forall i :: 0 <= i < |shown| ==> shown[i] == keys[i];
    } else {
      var count := FallbackCount(activeTab);
      NumberedKeysDistinct("product-", if showAll then count else Min(CollapsedLimit, count));
    }
  }

  /** The product a card shows: `allProducts[activeTab][productKey]`, if any. */
  function CardProduct(activeTab: string, key: string, catalog: Catalog): (r: Option<Product>)
    ensures r.Some? <==> activeTab in catalog && key in Keys(catalog[activeTab])
    ensures r.Some? ==> Entry(key, r.value) in catalog[activeTab]
  {
    if activeTab in catalog then Lookup(catalog[activeTab], key) else None
  }

  /** Every card of a tab with data finds its product; every card of a tab
      without data is a numbered placeholder with no product behind it. */
  lemma CardsFindTheirProduct(activeTab: string, showAll: bool, catalog: Catalog, k: nat)
    requires activeTab != Featured
    requires k < |ProductsToShow(activeTab, showAll, catalog)|
    ensures HasProducts(activeTab, catalog) ==>
      CardProduct(activeTab, ProductsToShow(activeTab, showAll, catalog)[k], catalog).Some?
    ensures !HasProducts(activeTab, catalog) ==>
      CardProduct(activeTab, ProductsToShow(activeTab, showAll, catalog)[k], catalog).None?
  {
    var key := ProductsToShow(activeTab, showAll, catalog)[k];
    if HasProducts(activeTab, catalog) {
      assert key == Keys(catalog[activeTab])[k];
    }
  }

  /** `productKey.startsWith('featured-')`. */
  predicate IsFeaturedKey(key: string)
    ensures IsFeaturedKey(key) <==> |key| >= 9 && key == "featured-" + key[9..]
  {
    StartsWith(key, "featured-")
  }

  /** `productNumber`: the key with its first `featured-`, or else its first
      `product-`, removed. */
  function ProductNumber(key: string): (num: string)
    ensures |num| <= |key|
  {
    if IsFeaturedKey(key) then ReplaceFirst(key, "featured-", "")
    else ReplaceFirst(key, "product-", "")
  }

  lemma ProductKeyNotFeatured(rest: string)
    ensures !IsFeaturedKey("product-" + rest)
  {
    var key := "product-" + rest;
    assert key[0] == 'p';
    if |key| >= 9 {
      assert key[..9][0] == key[0];
    }
  }

  /** The generated keys give back the number they were made from. */
  lemma ProductNumberOfNumberedKey(n: nat)
    ensures ProductNumber("featured-" + NatToString(n)) == NatToString(n)
    ensures ProductNumber("product-" + NatToString(n)) == NatToString(n)
    ensures ParseDecimal(ProductNumber("product-" + NatToString(n))) == n
  {
    StripLeadingPrefix("featured-", NatToString(n));
    assert IsFeaturedKey("featured-" + NatToString(n)) by {
      assert ("featured-" + NatToString(n))[..9] == "featured-";
    }
    StripLeadingPrefix("product-", NatToString(n));
    ProductKeyNotFeatured(NatToString(n));
    ParseNatToString(n);
  }

  /** A key that contains neither marker is its own number. */
  lemma ProductNumberOfPlainKey(key: string)
    requires IndexOf(key, "featured-") < 0 && IndexOf(key, "product-") < 0
    ensures ProductNumber(key) == key
  {}

  /** The card image: `/products/{n}.jpg` for a featured key, else
      `/products/{activeTab}/product-{n}.webp`. */
  function CardImage(activeTab: string, key: string): (src: string)
    ensures StartsWith(src, "/products/")
  {
    if IsFeaturedKey(key) then "/products/" + ProductNumber(key) + ".jpg"
    else "/products/" + activeTab + "/product-" + ProductNumber(key) + ".webp"
  }

  /** Placeholder card k of a category shows `/products/{tab}/product-{k}.webp`. */
  lemma CategoryCardImage(activeTab: string, k: nat)
    ensures CardImage(activeTab, "product-" + NatToString(k)) ==
            "/products/" + activeTab + "/product-" + NatToString(k) + ".webp"
  {
    ProductNumberOfNumberedKey(k);
    ProductKeyNotFeatured(NatToString(k));
  }

  /** Featured card k shows the same image as carousel item k. */
  lemma FeaturedCardMatchesCarousel(showAll: bool, catalog: Catalog, k: nat)
    requires k < |ProductsToShow(Featured, showAll, catalog)|
    ensures CardImage(Featured, ProductsToShow(Featured, showAll, catalog)[k]) ==
            ProductsModal.Products()[k].src
  {
    var key := ProductsToShow(Featured, showAll, catalog)[k];
    assert key == "featured-" + NatToString(k + 1);
    ProductNumberOfNumberedKey(k + 1);
    assert IsFeaturedKey(key) by { assert key[..9] == "featured-"; }
  }

  /** The component's state: `activeTab`, `showAll`, `allProducts`, `loading`. */
  class ProductGrid {
    var activeTab: string
    var showAll: bool
    var allProducts: Catalog
    var loading: bool

    constructor ()
      ensures activeTab == Featured && !showAll && allProducts == map[] && loading
    {
      activeTab := Featured;
      showAll := false;
      allProducts := map[];
      loading := true;
    }

    /** `loadAllProducts` once every tab's fetch has settled. */
    method LoadAllProducts(outcomes: seq<FetchOutcome>)
      requires |outcomes| == |Tabs()|
      modifies this
      ensures allProducts == MergedCatalog(outcomes) && !loading
      ensures activeTab == old(activeTab) && showAll == old(showAll)
      ensures allProducts.Keys == set t | t in Tabs() :: t.id
      ensures forall i :: 0 <= i < |Tabs()| ==> Tabs()[i].id in allProducts && allProducts[Tabs()[i].id] == DataOf(outcomes[i])
    {
      var results := seq(|Tabs()|, i requires 0 <= i < |Tabs()| => TabResult(Tabs()[i], outcomes[i]));
      allProducts := MergeAll(map[], results);
      loading := false;
      MergedCatalogSpec(outcomes);
    }

    /** A tab button: select the tab and collapse the grid. */
    method ResetShowAll(tabId: string)
      modifies this
      ensures activeTab == tabId && !showAll
      ensures allProducts == old(allProducts) && loading == old(loading)
      ensures |Shown()| <= CollapsedLimit
    {
      activeTab := tabId;
      showAll := false;
    }

    /** The Show All / Show Less button. */
    method ToggleShowAll()
      modifies this
      ensures showAll == !old(showAll)
      ensures activeTab == old(activeTab) && allProducts == old(allProducts) && loading == old(loading)
    {
      showAll := !showAll;
    }

    /** The keys of the cards on the grid. */
    function Shown(): (keys: seq<string>)
      reads this
      ensures !showAll ==> |keys| <= CollapsedLimit
    {
      ProductsToShow(activeTab, showAll, allProducts)
    }
  }

  /** Two presses of Show All / Show Less bring back the same grid. */
  method ToggleTwice(g: ProductGrid)
    modifies g
    ensures g.showAll == old(g.showAll) && g.Shown() == old(g.Shown())
  {
    g.ToggleShowAll();
    g.ToggleShowAll();
  }
}
