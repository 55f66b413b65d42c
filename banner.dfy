/** The preview banner shared by every template page: it names the template from the page's
    path, links back to the gallery, and can be dismissed for the rest of the session. */
module Banner {
  import opened Text
  import opened Dom

  /** The segments of the page's path, `location.pathname.split('/')`. */
  function Segments(path: string): seq<string>
  {
    Split(path, '/')
  }

  /** The template's slug: the segment right after the first "templates" segment, or ""
      when there is none or it is empty. */
  function Slug(path: string): (slug: string)
    ensures '/' !in slug
    ensures var seg := Segments(path); var idx := IndexOf(seg, "templates");
      && (slug != "" <==> idx != -1 && idx + 1 < |seg| && seg[idx + 1] != "")
      && (slug != "" ==> slug == seg[idx + 1] && "templates" !in seg[..idx])
  {
    var seg := Segments(path);
    var idx := IndexOf(seg, "templates");
    if idx != -1 && idx + 1 < |seg| && seg[idx + 1] != "" then seg[idx + 1] else ""
  }

  /** A character `\w` matches. */
  predicate IsWordChar(c: char)
  {
    'a' <= c <= 'z' || 'A' <= c <= 'Z' || '0' <= c <= '9' || c == '_'
  }

  /** `replace(/-/g, ' ')`. */
  function DashesToSpaces(s: string): (r: string)
    ensures |r| == |s| && '-' !in r
    ensures forall i :: 0 <= i < |s| ==> r[i] == if s[i] == '-' then ' ' else s[i]
  {
    seq(|s|, i requires 0 <= i < |s| => if s[i] == '-' then ' ' else s[i])
  }

  /** A word character at `i` starts a word (`\b\w` matches there). */
  predicate WordStart(s: string, i: nat)
    requires i < |s|
  {
    IsWordChar(s[i]) && (i == 0 || !IsWordChar(s[i - 1]))
  }

  /** `replace(/\b\w/g, c => c.toUpperCase())`: the words stay where they were, no word
      starts with a lower-case letter, a word's first character keeps its letter and every
      other character stays as it was. */
  function CapitalizeWords(s: string): (r: string)
    ensures |r| == |s|
    ensures forall i :: 0 <= i < |s| ==> WordStart(r, i) == WordStart(s, i)
    ensures forall i :: 0 <= i < |s| && WordStart(r, i) ==> !('a' <= r[i] <= 'z')
    ensures forall i :: 0 <= i < |s| && WordStart(s, i) ==> ToLowerChar(r[i]) == ToLowerChar(s[i])
    ensures forall i :: 0 <= i < |s| && !WordStart(s, i) ==> r[i] == s[i]
  {
    var r := seq(|s|, i requires 0 <= i < |s| => if WordStart(s, i) then ToUpperChar(s[i]) else s[i]);
    assert forall i :: 0 <= i < |s| ==> WordStart(r, i) == WordStart(s, i) by {
      forall i | 0 <= i < |s| ensures WordStart(r, i) == WordStart(s, i) {
        UpperKeepsWordChars(s[i]);
        if i > 0 { UpperKeepsWordChars(s[i - 1]); }
      }
    }
    r
  }

  /** The template's display name: the slug's dashes become spaces and each word starts
      with a capital; apart from case, the name is the slug with spaces for dashes. */
  function Name(slug: string): (name: string)
    ensures |name| == |slug|
    ensures '-' !in name
    ensures forall i :: 0 <= i < |name| && WordStart(name, i) ==> !('a' <= name[i] <= 'z')
    ensures forall i :: 0 <= i < |slug| ==>
      ToLowerChar(name[i]) == ToLowerChar(if slug[i] == '-' then ' ' else slug[i])
    ensures forall i :: 0 <= i < |slug| && !WordStart(name, i) ==>
      name[i] == if slug[i] == '-' then ' ' else slug[i]
  {
    var t := DashesToSpaces(slug);
    var r := CapitalizeWords(t);
    assert forall i :: 0 <= i < |r| ==> r[i] != '-' by {
      forall i | 0 <= i < |r| ensures r[i] != '-' {
        assert t[i] != '-';
        if WordStart(t, i) {
          assert ToLowerChar(r[i]) == ToLowerChar(t[i]);
        }
      }
    }
    r
  }

  /** Upper-casing keeps a character a word character, or a non-word character. */
  lemma {:induction false} UpperKeepsWordChars(c: char)
    ensures IsWordChar(ToUpperChar(c)) == IsWordChar(c)
    ensures ToUpperChar(ToUpperChar(c)) == ToUpperChar(c)
  {
  }

  /** A name is its own name: naming is idempotent. */
  lemma {:induction false} NameIdempotent(slug: string)
    ensures Name(Name(slug)) == Name(slug)
  {
    var n := Name(slug);
    var t := DashesToSpaces(slug);
    assert DashesToSpaces(n) == n;
    forall i | 0 <= i < |n| ensures WordStart(n, i) == WordStart(t, i) && (WordStart(n, i) ==> ToUpperChar(n[i]) == n[i])
    {
      UpperKeepsWordChars(t[i]);
      if i > 0 { UpperKeepsWordChars(t[i - 1]); }
    }
  }

  /** The slug "chain-vault" is shown as "Chain Vault". */
  lemma {:induction false} NameOfChainVault()
    ensures Name("chain-vault") == "Chain Vault"
  {
    var t := DashesToSpaces("chain-vault");
    assert t == "chain vault";
    assert WordStart(t, 0) && WordStart(t, 6);
    assert forall i :: 0 <= i < |t| && i != 0 && i != 6 ==> !WordStart(t, i);
  }

  /** The "All Templates" link: one level further up on a page under a "pages" segment. */
  function GalleryHref(path: string): (href: string)
    ensures "pages" in Segments(path) ==> href == "../../../index.html#templates"
    ensures "pages" !in Segments(path) ==> href == "../../index.html#templates"
  {
    var inSubpage := IndexOf(Segments(path), "pages") != -1;
    if inSubpage then "../../../index.html#templates" else "../../index.html#templates"
  }

  /** The banner's label: the template's name in bold after "Template preview", or the
      bare words when there is no name. */
  function Label(name: string): (caption: string)
    ensures name == "" ==> caption == "Template preview"
    ensures name != "" ==> caption == "Template preview: <strong>" + name + "</strong>"
  {
    "Template preview" + (if name != "" then ": <strong>" + name + "</strong>" else "")
  }

  /** A session value counts as set when it is present and not empty. */
  predicate IsSet(v: Option<string>)
  {
    v.Some? && v.value != ""
  }

  /** The banner script on one page of a session: the session's dismissal entry and the
      banner it has put on the page. */
  class PreviewBanner {
    /** `sessionStorage.getItem('fcsd-banner-dismissed')`. */
    var dismissed: Option<string>
    /** The banner element is in the page. */
    var inPage: bool
    /** It carries `is-visible`. */
    var visible: bool
    var labelHtml: string
    var href: string

    constructor (dismissed: Option<string>)
      ensures this.dismissed == dismissed && !inPage && !visible && labelHtml == "" && href == ""
    {
      this.dismissed := dismissed;
      inPage := false;
      visible := false;
      labelHtml := "";
      href := "";
    }

    /** The script running on the page at `path`: nothing at all when the session entry is
        set; otherwise the banner is built with the name and link from the path and put in
        the page (it becomes visible after two frames, see `Show`). */
    method Run(path: string)
      modifies this
      ensures IsSet(old(dismissed)) ==>
        inPage == old(inPage) && visible == old(visible) && labelHtml == old(labelHtml) && href == old(href)
      ensures !IsSet(old(dismissed)) ==>
        inPage && labelHtml == Label(Name(Slug(path))) && href == GalleryHref(path) && visible == old(visible)
      ensures dismissed == old(dismissed)
    {
      if IsSet(dismissed) {
        return;
      }
      labelHtml := Label(Name(Slug(path)));
      href := GalleryHref(path);
      inPage := true;
    }

    /** The second animation frame after the banner was put in the page. */
    method Show()
      modifies this
      ensures visible && inPage == old(inPage) && dismissed == old(dismissed)
      ensures labelHtml == old(labelHtml) && href == old(href)
    {
      visible := true;
    }

    /** The close button: the banner fades out and leaves the page, and the session entry is
        set to "1", so a later run in this session stops at once. */
    method Dismiss()
      modifies this
      ensures !visible && !inPage && dismissed == Some("1") && IsSet(dismissed)
      ensures labelHtml == old(labelHtml) && href == old(href)
    {
      visible := false;
      inPage := false;
      dismissed := Some("1");
    }
  }
}
