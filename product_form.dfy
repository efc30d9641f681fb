/**
 * The admin product form: its validation rules, the request body built from it, the form filled in
 * from a stored product on the edit page, and which page is the edit page.
 */
module ProductForm {
  import opened Wrappers
  import opened Digits
  import opened Json
  import opened JsText
  import opened Money
  import opened Schema
  import opened OrderSchema
  import opened Slug

  /** The form's fields; every one is a text input's value except the two switches. */
  datatype ProductFields = ProductFields(
    name: string, slug: string, description: string, price: string, originalPrice: string,
    imageUrl: string, categoryId: string, stock: string, featured: bool, active: bool)

  const NameTooShort := "Nome deve ter pelo menos 3 caracteres"
  const SlugTooShort := "Slug deve ter pelo menos 3 caracteres"
  const PriceRequired := "Preço é obrigatório"

  /** The form a create page starts from. */
  const Blank := ProductFields("", "", "", "", "", "", "", "0", false, true)

  predicate FormValid(f: ProductFields, isUrl: string -> bool) {
    && |f.name| >= 3 && |f.slug| >= 3 && MatchesSlugPattern(f.slug) && |f.price| >= 1
    && (isUrl(f.imageUrl) || f.imageUrl == "")
  }

  /** productSchema: the failing checks in field order; the URL test is the validator's own. */
  function ProductIssues(f: ProductFields, isUrl: string -> bool): (r: seq<Issue>)
    ensures r == [] <==> FormValid(f, isUrl)
    ensures |f.name| < 3 ==> r[0] == Issue(["name"], NameTooShort)
    ensures |f.name| >= 3 && |f.slug| < 3 ==> r[0] == Issue(["slug"], SlugTooShort)
  {
    MinIssue("name", f.name, 3, NameTooShort) + SlugIssues(f.slug, 3, SlugTooShort)
    + MinIssue("price", f.price, 1, PriceRequired) + UrlOrEmptyIssues("imageUrl", f.imageUrl, isUrl)
  }

  /** A name whose generated slug has at least three characters never fails on its slug. */
  lemma GeneratedSlugAccepted(f: ProductFields, isUrl: string -> bool)
    requires |f.name| >= 3 && |f.price| >= 1 && f.imageUrl == ""
    requires f.slug == GenerateSlug(f.name) && |f.slug| >= 3
    ensures ProductIssues(f, isUrl) == []
  {
    GeneratedPasses(f.name, 3, SlugTooShort);
  }

  /** The request body. None is a JSON null, which is also what a NaN from parseInt is sent as. */
  datatype ProductPayload = ProductPayload(
    name: string, slug: string, description: string, price: string, originalPrice: Option<string>,
    imageUrl: Option<string>, categoryId: Option<int>, stock: Option<int>, featured: bool, active: bool)

  /** The form's values with the category and stock read as integers and empty texts as null. */
  function Payload(f: ProductFields): ProductPayload {
    ProductPayload(
      f.name, f.slug, f.description, f.price, NullIfEmpty(f.originalPrice), NullIfEmpty(f.imageUrl),
      if f.categoryId == "" then None else ParseInt(f.categoryId), ParseInt(f.stock),
      f.featured, f.active)
  }

  /** An empty category choice, an empty original price and an empty image are all sent as null. */
  lemma PayloadNulls(f: ProductFields)
    ensures Payload(f).categoryId.None? <==> f.categoryId == "" || ParseInt(f.categoryId).None?
    ensures Payload(f).originalPrice.None? <==> f.originalPrice == ""
    ensures Payload(f).imageUrl.None? <==> f.imageUrl == ""
    ensures Payload(f).stock == ParseInt(f.stock)
  {
  }

  /** The edit page's form, filled in from the stored product as the page received it. */
  function FormOf(p: Product): ProductFields {
    ProductFields(
      p.name, p.slug, OrEmpty(p.description), FormatCents(p.price),
      if p.originalPrice.Some? then FormatCents(p.originalPrice.value) else "",
      OrEmpty(p.imageUrl),
      if p.categoryId.Some? then ShowInt(p.categoryId.value) else "",
      if p.stock.Some? then ShowInt(p.stock.value) else "0",
      p.featured == Some(true), p.active != Some(false))
  }

  /** parseInt reads back what String wrote for an integer. */
  lemma ParseIntShowInt(i: int)
    ensures ParseInt(ShowInt(i)) == Some(i)
  {
    if i >= 0 {
      ParseIntShowNat(i, []);
      assert ShowNat(i) + [] == ShowNat(i);
    } else {
      var s := ShowInt(i);
      assert s == "-" + ShowNat(-i);
      assert TrimStart(s) == s;
      assert s[1..] == ShowNat(-i) + [];
      ReadShowNat(-i, []);
    }
  }

  /**
   * Saving an edit page without touching it sends the stored product back: the same category, the
   * stock (0 when it had none), the prices as two-decimal text that reads back as the amounts, and
   * an empty image or a missing original price as null.
   */
  lemma EditRoundTrip(p: Product)
    ensures var q := Payload(FormOf(p));
      && q.name == p.name && q.slug == p.slug && q.description == OrEmpty(p.description)
      && ParseCents(q.price) == Some(p.price)
      && (q.originalPrice.Some? <==> p.originalPrice.Some?)
      && (p.originalPrice.Some? ==> ParseCents(q.originalPrice.value) == Some(p.originalPrice.value))
      && q.imageUrl == (if p.imageUrl == Some("") then None else p.imageUrl)
      && q.categoryId == p.categoryId
      && q.stock == Some(if p.stock.Some? then p.stock.value else 0)
      && q.featured == (p.featured == Some(true)) && q.active == (p.active != Some(false))
  {
    FormatParse(p.price);
    if p.originalPrice.Some? {
      FormatParse(p.originalPrice.value);
    }
    CategoryReadsBack(p.categoryId);
    StockReadsBack(p.stock);
  }

  lemma CategoryReadsBack(c: Option<int>)
    ensures var t := if c.Some? then ShowInt(c.value) else ""; (if t == "" then None else ParseInt(t)) == c
  {
    if c.Some? {
      ParseIntShowInt(c.value);
    }
  }

  lemma StockReadsBack(s: Option<int>)
    ensures ParseInt(if s.Some? then ShowInt(s.value) else "0") == Some(if s.Some? then s.value else 0)
  {
    if s.Some? {
      ParseIntShowInt(s.value);
    } else {
      ParseIntShowNat(0, []);
      assert ShowNat(0) + [] == "0";
    }
  }

  /** The page is the edit page when an id is in the address and it is not the create marker. */
  predicate IsEditing(id: Option<string>) { id.Some? && id.value != "" && id.value != "novo" }

  /** The create page and the bare address create; a numeric id edits. */
  lemma EditingPages(n: nat)
    ensures !IsEditing(None) && !IsEditing(Some("novo"))
    ensures IsEditing(Some(ShowNat(n)))
  {
    assert ShowNat(n)[0] != 'n';
  }
}
