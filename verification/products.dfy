/** The catalog reader of the storefront backend: lookup of products and
    variants by id, and the query filter behind the product listing. The catalog
    itself is an abstract sequence of product records. */
module ProductsService {
  import opened Wrappers
  import opened Seqs
  import opened Text

  /** A purchasable variant of a product; its price and stock, when present,
      override the product's. A missing name is the empty string. */
  datatype Variant = Variant(id: string, name: string, price: Option<int>, stock: Option<int>)

  /** A catalog record. `variants` is absent when the record has no variants
      array; `stock` is absent when the product has no stock ceiling. */
  datatype Product = Product(
    id: string,
    name: string,
    price: Option<int>,
    stock: Option<int>,
    imageUrl: string,
    variants: Option<seq<Variant>>,
    category: string,
    brand: string,
    sizes: Option<seq<int>>,
    isNew: bool,
    isBest: bool,
    isSale: bool)

  type Catalog = seq<Product>

  /** `products.find(p => p.id === id)`: the first product with that id. */
  function GetProductById(c: Catalog, id: string): (r: Option<Product>)
    ensures r.None? <==> forall i :: 0 <= i < |c| ==> c[i].id != id
    ensures r.Some? ==> r.value.id == id
    ensures r.Some? ==>
      exists k :: 0 <= k < |c| && c[k] == r.value && forall j :: 0 <= j < k ==> c[j].id != id
  {
    var k := FindIndex(c, (q: Product) => q.id == id);
    if k < |c| then Some(c[k]) else None
  }

  /** `getVariantById`: nothing when the product is absent or has no variants
      array, otherwise the first variant with that id. */
  function GetVariantById(p: Option<Product>, id: string): (r: Option<Variant>)
    ensures (p.None? || p.value.variants.None?) ==> r.None?
    ensures p.Some? && p.value.variants.Some? ==>
      var vs := p.value.variants.value;
      && (r.None? <==> forall i :: 0 <= i < |vs| ==> vs[i].id != id)
      && (r.Some? ==>
            exists k :: 0 <= k < |vs| && vs[k] == r.value && vs[k].id == id
                        && forall j :: 0 <= j < k ==> vs[j].id != id)
  {
    if p.None? || p.value.variants.None? then None
    else
      var vs := p.value.variants.value;
      var k := FindIndex(vs, (v: Variant) => v.id == id);
      if k < |vs| then Some(vs[k]) else None
  }

  // ---------------------------------------------------------------------------
  // filterProducts

  /** A listing query with its numeric fields already parsed. The text fields are
      the empty string when absent; `size` is the parsed size when one is given. */
  datatype Query = Query(
    tag: string,
    category: string,
    brand: string,
    size: Option<int>,
    priceMin: Option<int>,
    priceMax: Option<int>)

  const EmptyQuery := Query("", "", "", None, None, None)

  /** The price the filter compares: a missing price counts as 0. */
  function ListPrice(p: Product): int {
    p.price.GetOr(0)
  }

  /** One step `if (active) items = items.filter(keep)` of the filter pipeline. */
  datatype Stage = Stage(active: bool, keep: Product -> bool)

  function Apply(s: seq<Product>, st: Stage): seq<Product> {
    if st.active then Filter(s, st.keep) else s
  }

  /** Runs the stages in order, each on the output of the previous one. */
  function RunStages(s: seq<Product>, stages: seq<Stage>): seq<Product>
    decreases |stages|
  {
    if stages == [] then s else RunStages(Apply(s, stages[0]), stages[1..])
  }

  /** The stages of `filterProducts`, in source order. Tag, category and brand are
      lower-cased on the query side only. */
  function Stages(q: Query): seq<Stage> {
    var tag := Lower(q.tag);
    var category := Lower(q.category);
    var brand := Lower(q.brand);
    [ Stage(tag == "new", (p: Product) => p.isNew),
      Stage(tag == "best", (p: Product) => p.isBest),
      Stage(tag == "sale", (p: Product) => p.isSale),
      Stage(category != "" && category != "all", (p: Product) => p.category == category),
      Stage(brand != "", (p: Product) => p.brand == brand),
      Stage(q.size.Some?,
            (p: Product) => q.size.Some? && p.sizes.Some? && q.size.value in p.sizes.value),
      Stage(q.priceMin.Some?, (p: Product) => q.priceMin.Some? && ListPrice(p) >= q.priceMin.value),
      Stage(q.priceMax.Some?, (p: Product) => q.priceMax.Some? && ListPrice(p) <= q.priceMax.value) ]
  }

  /** `filterProducts(query)` over the catalog `c`. */
  function FilterProducts(c: Catalog, q: Query): seq<Product> {
    RunStages(c, Stages(q))
  }

  /** The reference meaning of a query: the conditions a product must meet, one
      conjunct per filter. */
  predicate Matches(q: Query, p: Product) {
    var tag := Lower(q.tag);
    var category := Lower(q.category);
    var brand := Lower(q.brand);
    && (tag == "new" ==> p.isNew)
    && (tag == "best" ==> p.isBest)
    && (tag == "sale" ==> p.isSale)
    && (category != "" && category != "all" ==> p.category == category)
    && (brand != "" ==> p.brand == brand)
    && (q.size.Some? ==> p.sizes.Some? && q.size.value in p.sizes.value)
    && (q.priceMin.Some? ==> ListPrice(p) >= q.priceMin.value)
    && (q.priceMax.Some? ==> ListPrice(p) <= q.priceMax.value)
  }

  /** A product passes a stage list when every active stage keeps it. */
  predicate Passes(stages: seq<Stage>, p: Product) {
    forall i :: 0 <= i < |stages| ==> stages[i].active ==> stages[i].keep(p)
  }

  /** Passing a non-empty stage list is passing its first stage and the rest. */
  lemma PassesCons(stages: seq<Stage>, p: Product)
    requires stages != []
    ensures Passes(stages, p) ==
      ((stages[0].active ==> stages[0].keep(p)) && Passes(stages[1..], p))
  {
    if (stages[0].active ==> stages[0].keep(p)) && Passes(stages[1..], p) {
      forall i | 1 <= i < |stages| ensures stages[i].active ==> stages[i].keep(p) {
        assert stages[i] == stages[1..][i - 1];
      }
    }
  }

  /** A pipeline of filters is one filter by the conjunction of its active stages. */
  lemma {:induction false} RunStagesIsFilter(s: seq<Product>, stages: seq<Stage>)
    ensures RunStages(s, stages) == Filter(s, (p: Product) => Passes(stages, p))
    decreases |stages|
  {
    var all := (p: Product) => Passes(stages, p);
    if stages == [] {
      FilterAll(s, all);
    } else {
      var st := stages[0];
      var rest := (p: Product) => Passes(stages[1..], p);
      RunStagesIsFilter(Apply(s, st), stages[1..]);
      forall p ensures all(p) == ((st.active ==> st.keep(p)) && rest(p)) {
        PassesCons(stages, p);
      }
      if st.active {
        FilterFuse(s, st.keep, rest, all);
      } else {
        FilterExt(s, rest, all);
      }
    }
  }

  /** The stages of a query keep exactly the products the query matches. */
  lemma StagesMeanMatches(q: Query, p: Product)
    ensures Passes(Stages(q), p) == Matches(q, p)
  {
    var stages := Stages(q);
    if Matches(q, p) {
      forall i | 0 <= i < |stages| ensures stages[i].active ==> stages[i].keep(p) {
      }
    }
    if Passes(stages, p) {
      assert stages[0].active ==> stages[0].keep(p);
      assert stages[1].active ==> stages[1].keep(p);
      assert stages[2].active ==> stages[2].keep(p);
      assert stages[3].active ==> stages[3].keep(p);
      assert stages[4].active ==> stages[4].keep(p);
      assert stages[5].active ==> stages[5].keep(p);
      assert stages[6].active ==> stages[6].keep(p);
      assert stages[7].active ==> stages[7].keep(p);
    }
  }

  /** `filterProducts` keeps, in catalog order, exactly the products the query
      matches; so its result is a subsequence of the catalog. */
  lemma FilterProductsSpec(c: Catalog, q: Query)
    ensures FilterProducts(c, q) == Filter(c, (p: Product) => Matches(q, p))
    ensures IsSubsequence(FilterProducts(c, q), c)
    ensures forall i :: 0 <= i < |FilterProducts(c, q)| ==>
      FilterProducts(c, q)[i] in c && Matches(q, FilterProducts(c, q)[i])
    ensures forall i :: 0 <= i < |c| && Matches(q, c[i]) ==> c[i] in FilterProducts(c, q)
  {
    RunStagesIsFilter(c, Stages(q));
    forall p ensures Passes(Stages(q), p) == Matches(q, p) {
      StagesMeanMatches(q, p);
    }
    FilterExt(c, (p: Product) => Passes(Stages(q), p), (p: Product) => Matches(q, p));
    FilterIsSubsequence(c, (p: Product) => Matches(q, p));
  }

  /** The tag filters: `new`, `best` and `sale` keep only flagged products. */
  lemma FilterProductsTag(c: Catalog, q: Query)
    ensures Lower(q.tag) == "new" ==> forall p :: p in FilterProducts(c, q) ==> p.isNew
    ensures Lower(q.tag) == "best" ==> forall p :: p in FilterProducts(c, q) ==> p.isBest
    ensures Lower(q.tag) == "sale" ==> forall p :: p in FilterProducts(c, q) ==> p.isSale
  {
    FilterProductsSpec(c, q);
  }

  /** A tag other than new/best/sale (after lower-casing) applies no tag filter,
      whatever the other parameters are. */
  lemma FilterProductsIgnoredTag(c: Catalog, q: Query)
    requires Lower(q.tag) !in {"new", "best", "sale"}
    ensures FilterProducts(c, q) == FilterProducts(c, q.(tag := ""))
  {
    var q' := q.(tag := "");
    assert Lower("") == "";
    FilterProductsSpec(c, q);
    FilterProductsSpec(c, q');
    forall p: Product
      ensures Matches(q, p) == Matches(q', p)
    {
    }
    FilterExt(c, (p: Product) => Matches(q, p), (p: Product) => Matches(q', p));
  }

  /** Category "" or "all" (after lower-casing) applies no category filter,
      whatever the other parameters are. */
  lemma FilterProductsIgnoredCategory(c: Catalog, q: Query)
    requires Lower(q.category) in {"", "all"}
    ensures FilterProducts(c, q) == FilterProducts(c, q.(category := ""))
  {
    var q' := q.(category := "");
    assert Lower("") == "";
    FilterProductsSpec(c, q);
    FilterProductsSpec(c, q');
    forall p: Product
      ensures Matches(q, p) == Matches(q', p)
    {
    }
    FilterExt(c, (p: Product) => Matches(q, p), (p: Product) => Matches(q', p));
  }

  /** A specific category or brand keeps only exact matches of its lower-cased form. */
  lemma FilterProductsCategoryBrand(c: Catalog, q: Query)
    ensures Lower(q.category) != "" && Lower(q.category) != "all" ==>
      forall p :: p in FilterProducts(c, q) ==> p.category == Lower(q.category)
    ensures Lower(q.brand) != "" ==>
      forall p :: p in FilterProducts(c, q) ==> p.brand == Lower(q.brand)
  {
    FilterProductsSpec(c, q);
  }

  /** Every result lies within the given price bounds. */
  lemma FilterProductsPrice(c: Catalog, q: Query)
    ensures q.priceMin.Some? ==> forall p :: p in FilterProducts(c, q) ==> ListPrice(p) >= q.priceMin.value
    ensures q.priceMax.Some? ==> forall p :: p in FilterProducts(c, q) ==> ListPrice(p) <= q.priceMax.value
  {
    FilterProductsSpec(c, q);
  }

  /** The empty query lists the whole catalog. */
  lemma FilterProductsEmptyQuery(c: Catalog)
    ensures FilterProducts(c, EmptyQuery) == c
  {
    FilterProductsSpec(c, EmptyQuery);
    FilterAll(c, (p: Product) => Matches(EmptyQuery, p));
  }
}
