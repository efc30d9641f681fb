/**
 * Turning a product or category name into a URL slug, and the slug rule both admin forms enforce.
 * The two forms carry the same generator; it is modelled once.
 */
module Slug {
  import opened JsText
  import opened Lists
  import opened OrderSchema

  predicate IsAlnum(c: char) { 'a' <= c <= 'z' || '0' <= c <= '9' }

  predicate IsSlugChar(c: char) { IsAlnum(c) || c == '-' }

  /** The combining diacritical marks block, U+0300 to U+036F. */
  predicate NotMark(c: char) { !('\U{0300}' <= c <= '\U{036F}') }

  /** The pattern ^[a-z0-9-]+$. */
  predicate MatchesSlugPattern(s: string) {
    |s| >= 1 && forall i :: 0 <= i < |s| ==> IsSlugChar(s[i])
  }

  predicate NoDoubleHyphen(s: string) {
    forall i :: 0 <= i < |s| - 1 ==> !(s[i] == '-' && s[i + 1] == '-')
  }

  /** What the generator produces: slug characters, no doubled hyphen, no hyphen at either end. */
  predicate IsSlug(s: string) {
    && (forall i :: 0 <= i < |s| ==> IsSlugChar(s[i]))
    && NoDoubleHyphen(s)
    && (s == [] || (s[0] != '-' && s[|s| - 1] != '-'))
  }

  /** The rest of s after the run of characters other than a-z and 0-9 it starts with. */
  function SkipRun(s: string): (r: string)
    ensures |r| <= |s|
    ensures r == [] || IsAlnum(r[0])
  {
    if s != [] && !IsAlnum(s[0]) then SkipRun(s[1..]) else s
  }

  /** replace(/[^a-z0-9]+/g, "-"): every maximal run of other characters becomes one hyphen. */
  function Collapse(s: string): (r: string)
    decreases |s|
    ensures r == [] <==> s == []
    ensures r != [] ==> r[0] == (if IsAlnum(s[0]) then s[0] else '-')
    ensures forall i :: 0 <= i < |r| ==> IsSlugChar(r[i])
    ensures NoDoubleHyphen(r)
  {
    if s == [] then []
    else if IsAlnum(s[0]) then [s[0]] + Collapse(s[1..])
    else "-" + Collapse(SkipRun(s[1..]))
  }

  /** replace(/(^-|-$)+/g, ""): one hyphen off the front, then one off the end. */
  function TrimHyphens(s: string): (r: string)
    ensures (forall i :: 0 <= i < |s| ==> IsSlugChar(s[i])) && NoDoubleHyphen(s) ==> IsSlug(r)
  {
    var t := if s != [] && s[0] == '-' then s[1..] else s;
    if t != [] && t[|t| - 1] == '-' then t[..|t| - 1] else t
  }

  /**
   * generateSlug: lower-case, drop combining marks, collapse the other runs to hyphens, trim the
   * hyphens at the ends. Whatever the name, the result has the shape of a slug.
   */
  function GenerateSlug(name: string): (r: string)
    ensures IsSlug(r)
  {
    TrimHyphens(Collapse(Filter(LowerAscii(name), NotMark)))
  }

  // ---- what the generator keeps

  lemma {:induction false} SkipRunAlnums(s: string)
    ensures Filter(SkipRun(s), IsAlnum) == Filter(s, IsAlnum)
  {
    if s != [] && !IsAlnum(s[0]) {
      SkipRunAlnums(s[1..]);
    }
  }

  lemma {:induction false} CollapseAlnums(s: string)
    decreases |s|
    ensures Filter(Collapse(s), IsAlnum) == Filter(s, IsAlnum)
  {
    if s == [] {
    } else if IsAlnum(s[0]) {
      CollapseAlnums(s[1..]);
      FilterAppend([s[0]], Collapse(s[1..]), IsAlnum);
    } else {
      CollapseAlnums(SkipRun(s[1..]));
      SkipRunAlnums(s[1..]);
      FilterAppend("-", Collapse(SkipRun(s[1..])), IsAlnum);
    }
  }

  lemma TrimAlnums(s: string)
    ensures Filter(TrimHyphens(s), IsAlnum) == Filter(s, IsAlnum)
  {
    var t := if s != [] && s[0] == '-' then s[1..] else s;
    if s != [] && s[0] == '-' {
      assert s == "-" + t;
      FilterAppend("-", t, IsAlnum);
    }
    if t != [] && t[|t| - 1] == '-' {
      assert t == t[..|t| - 1] + "-";
      FilterAppend(t[..|t| - 1], "-", IsAlnum);
    }
  }

  /** The letters and digits of the slug are those of the lower-cased, mark-free name, in order. */
  lemma SlugKeepsAlnums(name: string)
    ensures Filter(GenerateSlug(name), IsAlnum) == Filter(Filter(LowerAscii(name), NotMark), IsAlnum)
  {
    var m := Filter(LowerAscii(name), NotMark);
    TrimAlnums(Collapse(m));
    CollapseAlnums(m);
  }

  // ---- slugs are fixed points

  lemma {:induction false} CollapseSlug(s: string)
    decreases |s|
    requires forall i :: 0 <= i < |s| ==> IsSlugChar(s[i])
    requires NoDoubleHyphen(s)
    ensures Collapse(s) == s
  {
    if s != [] {
      CollapseSlug(s[1..]);
      if !IsAlnum(s[0]) {
        assert SkipRun(s[1..]) == s[1..];
        assert s == "-" + s[1..];
      }
    }
  }

  /** A string is a generated slug exactly when generating from it gives it back. */
  lemma FixedPoints(s: string)
    ensures GenerateSlug(s) == s <==> IsSlug(s)
  {
    if IsSlug(s) {
      assert LowerAscii(s) == s;
      FilterAll(s, NotMark);
      CollapseSlug(s);
    }
  }

  /** Generating a slug from a generated slug changes nothing. */
  lemma GenerateIdempotent(name: string)
    ensures GenerateSlug(GenerateSlug(name)) == GenerateSlug(name)
  {
    FixedPoints(GenerateSlug(name));
  }

  // ---- the forms' slug rule

  const SlugPatternMessage := "Slug deve conter apenas letras minúsculas, números e hífens"

  /** A slug field: the form's minimum length with its message, then the pattern; both are reported. */
  function SlugIssues(s: string, min: nat, tooShort: string): (r: seq<Issue>)
    ensures r == [] <==> |s| >= min && MatchesSlugPattern(s)
    ensures forall i :: 0 <= i < |r| ==> r[i].path == ["slug"]
    ensures |s| < min ==> r[0].message == tooShort
  {
    MinIssue("slug", s, min, tooShort)
    + (if MatchesSlugPattern(s) then [] else [Issue(["slug"], SlugPatternMessage)])
  }

  /** A generated slug at least as long as a form's minimum passes that form's slug rule. */
  lemma GeneratedPasses(name: string, min: nat, tooShort: string)
    requires |GenerateSlug(name)| >= min >= 1
    ensures SlugIssues(GenerateSlug(name), min, tooShort) == []
  {
  }

  // ---- filling the slug in from the name

  /** The slug after one change of the name field, as the handler is written. */
  function AutoFilled(editing: bool, slug: string, value: string): (r: string)
    ensures !editing && slug == "" ==> r == GenerateSlug(value)
    ensures editing || slug != "" ==> r == slug
  {
    if !editing && slug == "" then GenerateSlug(value) else slug
  }

  /** The slug after the name field has taken the values vs in turn, as the handler is written. */
  function TypedSlug(editing: bool, slug: string, vs: seq<string>): string
    decreases |vs|
  {
    if vs == [] then slug else TypedSlug(editing, AutoFilled(editing, slug, vs[0]), vs[1..])
  }

  /** A non-empty slug is never replaced, whatever is typed afterwards. */
  lemma {:induction false} FilledSlugSticks(editing: bool, slug: string, vs: seq<string>)
    requires editing || slug != ""
    ensures TypedSlug(editing, slug, vs) == slug
  {
    if vs != [] {
      FilledSlugSticks(editing, slug, vs[1..]);
    }
  }

  /**
   * As written, the slug is made from the first name value that gives a non-empty slug and is never
   * updated again: typing "Cam" one letter at a time leaves the slug "c", which the product form's
   * three-character minimum then rejects.
   */
  lemma TypingKeepsFirstLetter()
    ensures TypedSlug(false, "", ["C", "Ca", "Cam"]) == "c"
    ensures GenerateSlug("Cam") == "cam"
  {
    SlugOfWord("C", "c");
    var vs := ["C", "Ca", "Cam"];
    assert vs[1..] == ["Ca", "Cam"];
    assert TypedSlug(false, "", vs) == TypedSlug(false, "c", ["Ca", "Cam"]);
    FilledSlugSticks(false, "c", ["Ca", "Cam"]);
    SlugOfWord("Cam", "cam");
  }

  /** A word whose lower-case form is already a slug generates that slug. */
  lemma SlugOfWord(w: string, lower: string)
    requires IsSlug(lower) && LowerAscii(w) == lower
    ensures GenerateSlug(w) == lower
  {
    FixedPoints(lower);
    assert LowerAscii(lower) == lower;
  }

  /** The slug after one change of the name, when it follows the name until the user edits it. */
  function Followed(editing: bool, name: string, slug: string, value: string): (r: string)
    ensures !editing && (slug == "" || slug == GenerateSlug(name)) ==> r == GenerateSlug(value)
    ensures editing || (slug != "" && slug != GenerateSlug(name)) ==> r == slug
  {
    if !editing && (slug == "" || slug == GenerateSlug(name)) then GenerateSlug(value) else slug
  }

  /** The slug after the name has taken the values vs in turn, starting from name and slug. */
  function FollowedSlug(editing: bool, name: string, slug: string, vs: seq<string>): string
    decreases |vs|
  {
    if vs == [] then slug else FollowedSlug(editing, vs[0], Followed(editing, name, slug, vs[0]), vs[1..])
  }

  /** On a create page with untouched fields, the slug is always the one generated from the name. */
  lemma {:induction false} FollowedTracksName(name: string, vs: seq<string>)
    requires vs != []
    decreases |vs|
    ensures FollowedSlug(false, name, GenerateSlug(name), vs) == GenerateSlug(vs[|vs| - 1])
  {
    if |vs| > 1 {
      FollowedTracksName(vs[0], vs[1..]);
      assert vs[1..][|vs[1..]| - 1] == vs[|vs| - 1];
    }
  }

  /** A slug the user set to something else is kept, whatever is typed afterwards. */
  lemma {:induction false} EditedSlugSticks(name: string, slug: string, vs: seq<string>)
    requires slug != "" && forall i :: 0 <= i < |vs| ==> slug != GenerateSlug(vs[i])
    requires slug != GenerateSlug(name)
    decreases |vs|
    ensures FollowedSlug(false, name, slug, vs) == slug
  {
    if vs != [] {
      EditedSlugSticks(vs[0], slug, vs[1..]);
    }
  }

  /**
   * The name and slug fields of an admin form. On a create page, changing the name fills the slug
   * in from it while the slug field is empty; an edit page never touches the slug.
   */
  class NameSlugFields {
    var name: string
    var slug: string
    const editing: bool

    constructor (editing: bool)
      ensures this.editing == editing && name == "" && slug == ""
    {
      this.editing := editing;
      name := "";
      slug := "";
    }

    /** An edit page loads the stored entity's name and slug. */
    method Load(storedName: string, storedSlug: string)
      modifies this
      ensures name == storedName && slug == storedSlug
    {
      name := storedName;
      slug := storedSlug;
    }

    /** The user edits the slug field directly. */
    method SlugChanged(value: string)
      modifies this
      ensures name == old(name) && slug == value
    {
      slug := value;
    }

    /** The name field's change handler, as written. */
    method NameChanged(value: string)
      modifies this
      ensures name == value && slug == AutoFilled(editing, old(slug), value)
    {
      name := value;
      if !editing && slug == "" {
        slug := GenerateSlug(value);
      }
    }

    /** The handler with the slug following the name until the user edits it. */
    method NameChangedFollowing(value: string)
      modifies this
      ensures name == value && slug == Followed(editing, old(name), old(slug), value)
    {
      if !editing && (slug == "" || slug == GenerateSlug(name)) {
        slug := GenerateSlug(value);
      }
      name := value;
    }
  }
}
