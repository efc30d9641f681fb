/**
 * The admin category form: its validation rules, the request body built from it, the form filled
 * in from a stored category on the edit page, and which page is the edit page.
 */
module CategoryForm {
  import opened Wrappers
  import opened Digits
  import opened JsText
  import opened Schema
  import opened OrderSchema
  import opened Slug

  datatype CategoryFields = CategoryFields(name: string, slug: string, description: string, imageUrl: string)

  const NameTooShort := "Nome deve ter pelo menos 2 caracteres"
  const SlugTooShort := "Slug deve ter pelo menos 2 caracteres"

  /** The form a create page starts from. */
  const Blank := CategoryFields("", "", "", "")

  predicate FormValid(f: CategoryFields, isUrl: string -> bool) {
    |f.name| >= 2 && |f.slug| >= 2 && MatchesSlugPattern(f.slug) && (isUrl(f.imageUrl) || f.imageUrl == "")
  }

  /** categorySchema: the failing checks in field order; the URL test is the validator's own. */
  function CategoryIssues(f: CategoryFields, isUrl: string -> bool): (r: seq<Issue>)
    ensures r == [] <==> FormValid(f, isUrl)
    ensures |f.name| < 2 ==> r[0] == Issue(["name"], NameTooShort)
    ensures |f.name| >= 2 && |f.slug| < 2 ==> r[0] == Issue(["slug"], SlugTooShort)
  {
    MinIssue("name", f.name, 2, NameTooShort) + SlugIssues(f.slug, 2, SlugTooShort)
    + UrlOrEmptyIssues("imageUrl", f.imageUrl, isUrl)
  }

  /** A name whose generated slug has at least two characters never fails on its slug. */
  lemma GeneratedSlugAccepted(f: CategoryFields, isUrl: string -> bool)
    requires |f.name| >= 2 && f.imageUrl == ""
    requires f.slug == GenerateSlug(f.name) && |f.slug| >= 2
    ensures CategoryIssues(f, isUrl) == []
  {
    GeneratedPasses(f.name, 2, SlugTooShort);
  }

  /** The request body: the form's values with an empty image sent as null. */
  datatype CategoryPayload = CategoryPayload(name: string, slug: string, description: string, imageUrl: Option<string>)

  function Payload(f: CategoryFields): CategoryPayload {
    CategoryPayload(f.name, f.slug, f.description, NullIfEmpty(f.imageUrl))
  }

  /** The edit page's form, filled in from the stored category. */
  function FormOf(c: Category): CategoryFields {
    CategoryFields(c.name, c.slug, OrEmpty(c.description), OrEmpty(c.imageUrl))
  }

  /** Only an empty image becomes null; the other fields pass through as typed. */
  lemma PayloadFields(f: CategoryFields)
    ensures Payload(f).imageUrl.None? <==> f.imageUrl == ""
    ensures Payload(f).imageUrl.Some? ==> Payload(f).imageUrl.value == f.imageUrl
    ensures Payload(f).name == f.name && Payload(f).slug == f.slug && Payload(f).description == f.description
  {
  }

  /** Saving an edit page without touching it sends the stored category back, an empty image as null. */
  lemma EditRoundTrip(c: Category)
    ensures var q := Payload(FormOf(c));
      && q.name == c.name && q.slug == c.slug && q.description == OrEmpty(c.description)
      && q.imageUrl == (if c.imageUrl == Some("") then None else c.imageUrl)
  {
  }

  /** The page is the edit page when an id is in the address and it is not the create marker. */
  predicate IsEditing(id: Option<string>) { id.Some? && id.value != "" && id.value != "nova" }

  /** The create page and the bare address create; a numeric id edits. */
  lemma EditingPages(n: nat)
    ensures !IsEditing(None) && !IsEditing(Some("nova"))
    ensures IsEditing(Some(ShowNat(n)))
  {
    assert ShowNat(n)[0] != 'n';
  }
}
