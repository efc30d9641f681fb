/**
 * The product catalogue page: which products are listed for the search term, the selected
 * categories and the featured switch, in which order, and the operations on those filters.
 */
module Catalogue {
  import opened Wrappers
  import opened JsText
  import opened Schema
  import opened Lists

  /** The page's filter state. sortBy holds the sort menu's value. */
  datatype Filters = Filters(searchTerm: string, categories: seq<string>, featuredOnly: bool, sortBy: string)

  /** The address may preselect one category (categoria) and the featured switch (destaque=true). */
  function Initial(categoria: Option<string>, destaque: Option<string>): (r: Filters)
    ensures r.searchTerm == "" && r.sortBy == "newest"
    ensures |r.categories| <= 1 && (r.categories != [] <==> categoria.Some? && categoria.value != "")
    ensures r.featuredOnly <==> destaque == Some("true")
  {
    var slug := OrEmpty(categoria);
    Filters("", if slug != "" then [slug] else [], destaque == Some("true"), "newest")
  }

  /** The fetched category whose id is the product's category, if there is one. */
  function CategoryOf(categories: seq<Category>, p: Product): (r: Option<Category>)
    ensures r.Some? ==> r.value in categories && p.categoryId == Some(r.value.id)
    ensures p.categoryId.None? ==> r.None?
  {
    Find(categories, (c: Category) => p.categoryId == Some(c.id))
  }

  /** The page's filter condition for one product. Categories not yet fetched count as none. */
  predicate Shown(categories: seq<Category>, f: Filters, p: Product) {
    && p.active == Some(true)
    && (f.searchTerm == "" || Includes(LowerCase(p.name), LowerCase(f.searchTerm)))
    && (|f.categories| > 0 ==>
          var c := CategoryOf(categories, p); c.Some? && c.value.slug in f.categories)
    && (f.featuredOnly ==> p.featured == Some(true))
  }

  /** The fetched products that pass the filters, in fetched order. */
  function Visible(products: seq<Product>, categories: seq<Category>, f: Filters): (r: seq<Product>)
    ensures forall i :: 0 <= i < |r| ==> r[i] in products && Shown(categories, f, r[i])
    ensures forall i :: 0 <= i < |products| && Shown(categories, f, products[i]) ==> products[i] in r
  {
    Filter(products, (p: Product) => Shown(categories, f, p))
  }

  // ---- what each filter guarantees

  /** Every listed product is active, and a non-empty search term occurs in its name, ignoring case. */
  lemma ListedMatchSearch(products: seq<Product>, categories: seq<Category>, f: Filters, i: nat)
    requires i < |Visible(products, categories, f)|
    ensures var p := Visible(products, categories, f)[i];
      && p.active == Some(true)
      && (f.searchTerm != "" ==> Includes(LowerCase(p.name), LowerCase(f.searchTerm)))
      && (f.featuredOnly ==> p.featured == Some(true))
  {
  }

  /** With categories selected, a listed product has a fetched category whose slug is selected. */
  lemma ListedInSelectedCategory(products: seq<Product>, categories: seq<Category>, f: Filters, i: nat)
    requires |f.categories| > 0 && i < |Visible(products, categories, f)|
    ensures var p := Visible(products, categories, f)[i];
      exists c :: c in categories && p.categoryId == Some(c.id) && c.slug in f.categories
  {
    var p := Visible(products, categories, f)[i];
    var c := CategoryOf(categories, p).value;
    assert c in categories && p.categoryId == Some(c.id) && c.slug in f.categories;
  }

  /** The search ignores case: lower-casing the product's name or the search term lists the same products. */
  lemma SearchIgnoresCase(categories: seq<Category>, f: Filters, p: Product)
    ensures Shown(categories, f, p) <==> Shown(categories, f, p.(name := LowerCase(p.name)))
    ensures Shown(categories, f, p) <==> Shown(categories, f.(searchTerm := LowerCase(f.searchTerm)), p)
  {
    LowerCaseIdempotent(p.name);
    LowerCaseIdempotent(f.searchTerm);
  }

  /** An accented capital matches its small letter: "\U{D3}culos de Sol" is found by "\U{F3}culos". */
  lemma AccentedCapitalMatches(categories: seq<Category>, f: Filters, p: Product)
    requires p.active == Some(true) && p.name == "\U{D3}culos de Sol"
    requires f.searchTerm == "\U{F3}culos" && f.categories == [] && !f.featuredOnly
    ensures Shown(categories, f, p)
  {
    assert LowerCase(p.name)[0..6] == LowerCase(f.searchTerm);
    assert OccursAt(LowerCase(p.name), LowerCase(f.searchTerm), 0);
  }

  /** With categories selected, a product without a category is never listed. */
  lemma UncategorisedHidden(categories: seq<Category>, f: Filters, p: Product)
    requires |f.categories| > 0 && p.categoryId.None?
    ensures !Shown(categories, f, p)
  {
  }

  /** An empty search term filters nothing: the listing is the same as with the term left out. */
  lemma EmptyTermFiltersNothing(categories: seq<Category>, f: Filters, p: Product)
    requires f.searchTerm == ""
    ensures Shown(categories, f, p) <==>
      && p.active == Some(true)
      && (|f.categories| > 0 ==>
            var c := CategoryOf(categories, p); c.Some? && c.value.slug in f.categories)
      && (f.featuredOnly ==> p.featured == Some(true))
  {
  }

  // ---- the order of the listing

  datatype SortMode = PriceAsc | PriceDesc | ByName | Newest

  /** The sort menu's value; anything unrecognised sorts by date, newest first. */
  function ModeOf(sortBy: string): (m: SortMode)
    ensures m == PriceAsc <==> sortBy == "price-asc"
    ensures m == PriceDesc <==> sortBy == "price-desc"
    ensures m == ByName <==> sortBy == "name"
  {
    if sortBy == "price-asc" then PriceAsc
    else if sortBy == "price-desc" then PriceDesc
    else if sortBy == "name" then ByName
    else Newest
  }

  /** Creation time in milliseconds; a product without one counts as created at the epoch. */
  function CreatedTime(p: Product): int { if p.createdAt.Some? then p.createdAt.value else 0 }

  /**
   * The key each comparator subtracts. Prices are exact cents here; nameRank is a name's place in
   * the browser's collation order, which is not modelled.
   */
  function SortKey(m: SortMode, nameRank: string -> int): Product -> int {
    match m
    case PriceAsc => (p: Product) => p.price
    case PriceDesc => (p: Product) => -p.price
    case ByName => (p: Product) => nameRank(p.name)
    case Newest => (p: Product) => -CreatedTime(p)
  }

  /** The list the page shows: the visible products, stably sorted by the selected order. */
  function Listing(products: seq<Product>, categories: seq<Category>, f: Filters, nameRank: string -> int)
    : (r: seq<Product>)
    ensures multiset(r) == multiset(Visible(products, categories, f))
  {
    SortByKey(Visible(products, categories, f), SortKey(ModeOf(f.sortBy), nameRank))
  }

  /** The listing holds exactly the products that pass the filters, each as often as fetched. */
  lemma ListingContents(products: seq<Product>, categories: seq<Category>, f: Filters,
                        nameRank: string -> int, p: Product)
    ensures p in Listing(products, categories, f, nameRank) <==> p in products && Shown(categories, f, p)
  {
    var v := Visible(products, categories, f);
    assert p in Listing(products, categories, f, nameRank) <==> p in multiset(v);
    if p in products && Shown(categories, f, p) {
      var i :| 0 <= i < |products| && products[i] == p;
    }
    if p in v {
      var i :| 0 <= i < |v| && v[i] == p;
    }
  }

  /** Sorted by ascending price, prices never decrease down the list. */
  lemma PriceAscending(products: seq<Product>, categories: seq<Category>, f: Filters, nameRank: string -> int)
    requires ModeOf(f.sortBy) == PriceAsc
    ensures var r := Listing(products, categories, f, nameRank);
      forall i, j :: 0 <= i < j < |r| ==> r[i].price <= r[j].price
  {
    SortSorted(Visible(products, categories, f), SortKey(PriceAsc, nameRank));
  }

  /** Sorted by descending price, prices never increase down the list. */
  lemma PriceDescending(products: seq<Product>, categories: seq<Category>, f: Filters, nameRank: string -> int)
    requires ModeOf(f.sortBy) == PriceDesc
    ensures var r := Listing(products, categories, f, nameRank);
      forall i, j :: 0 <= i < j < |r| ==> r[i].price >= r[j].price
  {
    var r := Listing(products, categories, f, nameRank);
    SortSorted(Visible(products, categories, f), SortKey(PriceDesc, nameRank));
    forall i, j | 0 <= i < j < |r|
      ensures r[i].price >= r[j].price
    {
      assert SortKey(PriceDesc, nameRank)(r[i]) <= SortKey(PriceDesc, nameRank)(r[j]);
    }
  }

  /** By default the newest products come first. */
  lemma NewestFirst(products: seq<Product>, categories: seq<Category>, f: Filters, nameRank: string -> int)
    requires ModeOf(f.sortBy) == Newest
    ensures var r := Listing(products, categories, f, nameRank);
      forall i, j :: 0 <= i < j < |r| ==> CreatedTime(r[i]) >= CreatedTime(r[j])
  {
    var r := Listing(products, categories, f, nameRank);
    SortSorted(Visible(products, categories, f), SortKey(Newest, nameRank));
    forall i, j | 0 <= i < j < |r|
      ensures CreatedTime(r[i]) >= CreatedTime(r[j])
    {
      assert SortKey(Newest, nameRank)(r[i]) <= SortKey(Newest, nameRank)(r[j]);
    }
  }

  /** Sorted by name, names never go back in the collation order. */
  lemma NameOrdered(products: seq<Product>, categories: seq<Category>, f: Filters, nameRank: string -> int)
    requires ModeOf(f.sortBy) == ByName
    ensures var r := Listing(products, categories, f, nameRank);
      forall i, j :: 0 <= i < j < |r| ==> nameRank(r[i].name) <= nameRank(r[j].name)
  {
    var r := Listing(products, categories, f, nameRank);
    SortSorted(Visible(products, categories, f), SortKey(ByName, nameRank));
    forall i, j | 0 <= i < j < |r|
      ensures nameRank(r[i].name) <= nameRank(r[j].name)
    {
      assert SortKey(ByName, nameRank)(r[i]) <= SortKey(ByName, nameRank)(r[j]);
    }
  }

  /** Products that tie on the sort key keep the order they were fetched in. */
  lemma TiesKeepFetchedOrder(products: seq<Product>, categories: seq<Category>, f: Filters,
                             nameRank: string -> int, k: int)
    ensures var key := SortKey(ModeOf(f.sortBy), nameRank);
      Filter(Listing(products, categories, f, nameRank), HasKey(key, k))
        == Filter(Visible(products, categories, f), HasKey(key, k))
  {
    SortStable(Visible(products, categories, f), SortKey(ModeOf(f.sortBy), nameRank), k);
  }

  // ---- changing the filters

  /** Ticking a category: removed when selected, appended otherwise. */
  function Toggle(selected: seq<string>, slug: string): (r: seq<string>)
    ensures slug in r <==> slug !in selected
    ensures forall s :: s != slug ==> (s in r <==> s in selected)
    ensures slug !in selected ==> r == selected + [slug]
    ensures slug in selected ==> |r| < |selected| && forall i :: 0 <= i < |r| ==> r[i] in selected
  {
    if slug in selected then
      var p := (s: string) => s != slug;
      var i :| 0 <= i < |selected| && selected[i] == slug;
      FilterShorter(selected, p, i);
      Filter(selected, p)
    else selected + [slug]
  }

  /** Unticking a slug that is selected once takes out that one entry; the other slugs keep their order. */
  lemma ToggleRemovesInPlace(selected: seq<string>, slug: string, i: nat)
    requires i < |selected| && selected[i] == slug
    requires slug !in selected[..i] && slug !in selected[i + 1..]
    ensures Toggle(selected, slug) == selected[..i] + selected[i + 1..]
  {
    var p := (s: string) => s != slug;
    assert selected == selected[..i] + ([slug] + selected[i + 1..]);
    FilterAppend(selected[..i], [slug] + selected[i + 1..], p);
    FilterAppend([slug], selected[i + 1..], p);
    FilterAll(selected[..i], p);
    FilterAll(selected[i + 1..], p);
    assert Filter([slug], p) == [];
  }

  /** No slug is selected twice. */
  predicate NoRepeats(selected: seq<string>) {
    forall i, j :: 0 <= i < j < |selected| ==> selected[i] != selected[j]
  }

  /** Toggling keeps a selection free of repeats, so ToggleRemovesInPlace applies to every selection the
      page builds from the initial one. */
  lemma ToggleNoRepeats(selected: seq<string>, slug: string)
    requires NoRepeats(selected)
    ensures NoRepeats(Toggle(selected, slug))
  {
    if slug in selected {
      var i :| 0 <= i < |selected| && selected[i] == slug;
      OnlyAt(selected, i);
      ToggleRemovesInPlace(selected, slug, i);
      DropNoRepeats(selected, i);
    }
  }

  lemma OnlyAt(xs: seq<string>, i: nat)
    requires NoRepeats(xs) && i < |xs|
    ensures xs[i] !in xs[..i] && xs[i] !in xs[i + 1..]
  {
    var front, back := xs[..i], xs[i + 1..];
    forall j | 0 <= j < |front| ensures front[j] != xs[i] {
      assert front[j] == xs[j];
    }
    forall j | 0 <= j < |back| ensures back[j] != xs[i] {
      assert back[j] == xs[i + 1 + j];
    }
  }

  lemma DropNoRepeats(xs: seq<string>, i: nat)
    requires NoRepeats(xs) && i < |xs|
    ensures NoRepeats(xs[..i] + xs[i + 1..])
  {
    var r := xs[..i] + xs[i + 1..];
    forall a, b | 0 <= a < b < |r| ensures r[a] != r[b] {
      var a' := if a < i then a else a + 1;
      var b' := if b < i then b else b + 1;
      assert r[a] == xs[a'] && r[b] == xs[b'];
    }
  }

  /** Ticking a category that was not selected, twice, gives back the same selection. */
  lemma ToggleTwice(selected: seq<string>, slug: string)
    requires slug !in selected
    ensures Toggle(Toggle(selected, slug), slug) == selected
  {
    var p := (s: string) => s != slug;
    FilterAppend(selected, [slug], p);
    FilterAll(selected, p);
    assert [slug][1..] == [];
  }

  /** Any difference from the cleared state shows as an active filter. */
  predicate HasActiveFilters(f: Filters) {
    f.searchTerm != "" || |f.categories| > 0 || f.featuredOnly
  }

  /** The clear button: everything back to its default, the order to newest first. */
  function Cleared(f: Filters): (r: Filters)
    ensures !HasActiveFilters(r) && ModeOf(r.sortBy) == Newest
  {
    Filters("", [], false, "newest")
  }

  /** With no active filter the page lists exactly the active products, in fetched order. */
  lemma NoFilterListsActive(products: seq<Product>, categories: seq<Category>, f: Filters)
    requires !HasActiveFilters(f)
    ensures Visible(products, categories, f) == Filter(products, (p: Product) => p.active == Some(true))
  {
    FilterSame(products, (p: Product) => Shown(categories, f, p), (p: Product) => p.active == Some(true));
  }
}
