/** The parts the two dashboard templates (the crypto wallet and the analytics board) share
    word for word: the mobile sidebar, tabs that select a panel by its id, and the table
    search. */
module Dashboard {
  import opened Text
  import opened Dom

  /** The sidebar, its overlay and the body's overflow. Either element may be missing from
      the page, and then the optional chaining skips it. */
  class Sidebar {
    const hasSidebar: bool
    const hasOverlay: bool
    /** The sidebar carries `sidebar--open`. */
    var sidebarOpen: bool
    /** The overlay carries `sidebar-overlay--visible`. */
    var overlayVisible: bool
    var overflowHidden: bool

    /** A missing element carries no class, and the classes that exist follow the body's
        overflow. */
    ghost predicate Valid()
      reads this
    {
      && (hasSidebar ==> sidebarOpen == overflowHidden)
      && (hasOverlay ==> overlayVisible == overflowHidden)
      && (!hasSidebar ==> !sidebarOpen)
      && (!hasOverlay ==> !overlayVisible)
    }

    constructor (hasSidebar: bool, hasOverlay: bool)
      ensures this.hasSidebar == hasSidebar && this.hasOverlay == hasOverlay
      ensures !sidebarOpen && !overlayVisible && !overflowHidden && Valid()
    {
      this.hasSidebar := hasSidebar;
      this.hasOverlay := hasOverlay;
      sidebarOpen := false;
      overlayVisible := false;
      overflowHidden := false;
    }

    /** `openSidebar()`. */
    method Open()
      requires Valid()
      modifies this
      ensures sidebarOpen == hasSidebar && overlayVisible == hasOverlay && overflowHidden
      ensures Valid()
    {
      if hasSidebar {
        sidebarOpen := true;
      }
      if hasOverlay {
        overlayVisible := true;
      }
      overflowHidden := true;
    }

    /** `closeSidebar()`. */
    method Close()
      requires Valid()
      modifies this
      ensures !sidebarOpen && !overlayVisible && !overflowHidden
      ensures Valid()
    {
      if hasSidebar {
        sidebarOpen := false;
      }
      if hasOverlay {
        overlayVisible := false;
      }
      overflowHidden := false;
    }

    /** A click on the toggle: an open sidebar closes, anything else opens (with no sidebar
        element the test is false, so the click always opens). */
    method ToggleClick()
      requires Valid()
      modifies this
      ensures Valid()
      ensures hasSidebar ==> sidebarOpen == !old(sidebarOpen)
      ensures overflowHidden == !(hasSidebar && old(sidebarOpen))
    {
      if hasSidebar && sidebarOpen {
        Close();
      } else {
        Open();
      }
    }

    /** A click on the overlay closes the sidebar. */
    method OverlayClick()
      requires Valid()
      modifies this
      ensures !sidebarOpen && !overlayVisible && !overflowHidden && Valid()
    {
      Close();
    }

    /** A resize: wider than 1024 pixels closes the sidebar, and narrower changes nothing. */
    method Resize(innerWidth: real)
      requires Valid()
      modifies this
      ensures innerWidth > 1024.0 ==> !sidebarOpen && !overlayVisible && !overflowHidden
      ensures innerWidth <= 1024.0 ==>
        sidebarOpen == old(sidebarOpen) && overlayVisible == old(overlayVisible) && overflowHidden == old(overflowHidden)
      ensures Valid()
    {
      if innerWidth > 1024.0 {
        Close();
      }
    }
  }

  /** The id `document.getElementById` is given for a `data-tab` value: the missing value
      becomes the text "null". */
  function IdOf(target: Option<string>): string
  {
    match target
    case None => "null"
    case Some(t) => t
  }

  /** `document.getElementById(id)` among the panels: the first panel whose `id` attribute
      is `id`, or -1. An empty `id` attribute gives an element no id, so "" finds none. */
  function FindById(panels: seq<Element>, id: string): (i: int)
    ensures -1 <= i < |panels|
    ensures i == -1 <==> id == "" || forall j :: 0 <= j < |panels| ==> Attr(panels[j], "id") != Some(id)
    ensures 0 <= i ==> Attr(panels[i], "id") == Some(id) && forall j :: 0 <= j < i ==> Attr(panels[j], "id") != Some(id)
  {
    if |panels| == 0 || id == "" then -1
    else if Attr(panels[0], "id") == Some(id) then 0
    else
      var i := FindById(panels[1..], id);
      assert forall j :: 1 <= j < |panels| ==> panels[1..][j - 1] == panels[j];
      if i == -1 then -1 else i + 1
  }

  /** A group of tab buttons and the panels they select by id. */
  class IdTabs {
    const tabs: array<Element>
    const panels: array<Element>
    /** The class that marks the active button (`tabs__btn--active`, `trade-tab--active`). */
    const tabClass: string
    /** The class that marks the active panel (`tab-panel--active`, `trade-panel--active`). */
    const panelClass: string

    constructor (tabs: array<Element>, panels: array<Element>, tabClass: string, panelClass: string)
      ensures this.tabs == tabs && this.panels == panels
      ensures this.tabClass == tabClass && this.panelClass == panelClass
    {
      this.tabs := tabs;
      this.panels := panels;
      this.tabClass := tabClass;
      this.panelClass := panelClass;
    }

    /** A click on button `k`: it becomes the only active button, and exactly the panel
        whose id is the button's `data-tab` becomes active, or none when no panel has that
        id. */
    method Click(k: nat)
      requires k < tabs.Length && tabs != panels
      modifies tabs, panels
      ensures forall j :: 0 <= j < tabs.Length ==> tabs[j] == WithClass(old(tabs[j]), tabClass, j == k)
      ensures forall j :: 0 <= j < panels.Length ==>
        panels[j] == WithClass(old(panels[j]), panelClass, j == FindById(old(panels[..]), IdOf(Attr(old(tabs[k]), "data-tab"))))
    {
      var target := Attr(tabs[k], "data-tab");
      ClearClass(tabs, tabClass);
      ClearClass(panels, panelClass);
      tabs[k] := WithClass(tabs[k], tabClass, true);
      var panel := FindById(panels[..], IdOf(target));
      if panel != -1 {
        panels[panel] := WithClass(panels[panel], panelClass, true);
      }
    }
  }

  /** After a click at most one panel is active: one when the id is not empty and some
      panel has it, none otherwise. */
  lemma {:induction false} OnePanelAtMost(before: seq<Element>, after: seq<Element>, c: string, id: string)
    requires |before| == |after|
    requires forall j :: 0 <= j < |after| ==> after[j] == WithClass(before[j], c, j == FindById(before, id))
    ensures CountTrue(ClassFlags(after, c)) == if FindById(before, id) == -1 then 0 else 1
    ensures CountTrue(ClassFlags(after, c)) == 1 <==> id != "" && exists j :: 0 <= j < |before| && Attr(before[j], "id") == Some(id)
  {
    var i := FindById(before, id);
    if i == -1 {
      CountNone(ClassFlags(after, c));
    } else {
      CountOnly(ClassFlags(after, c), i);
    }
  }

  /** The search rule: a row stays visible when its lower-cased text contains the
      lower-cased query. */
  predicate Matches(row: Element, query: string)
  {
    Contains(ToLower(row.text), ToLower(query))
  }

  /** The `input` handler of the search box: every row is shown or hidden by `Matches`, and
      nothing else about it changes. */
  method FilterRows(rows: array<Element>, query: string)
    modifies rows
    ensures forall j :: 0 <= j < rows.Length ==>
      rows[j] == old(rows[j]).(display := if Matches(old(rows[j]), query) then "" else "none")
  {
    var q := ToLower(query);
    for i := 0 to rows.Length
      invariant forall j :: 0 <= j < i ==>
        rows[j] == old(rows[j]).(display := if Matches(old(rows[j]), query) then "" else "none")
      invariant forall j :: i <= j < rows.Length ==> rows[j] == old(rows[j])
    {
      var text := ToLower(rows[i].text);
      rows[i] := rows[i].(display := if Contains(text, q) then "" else "none");
    }
  }

  /** An empty query shows every row. */
  lemma {:induction false} EmptyQueryMatchesAll(row: Element)
    ensures Matches(row, "")
  {
    assert ToLower("") == "";
    assert [] <= ToLower(row.text);
  }

  /** Lower-casing works character by character, so it distributes over concatenation. */
  lemma {:induction false} ToLowerConcat(a: string, b: string)
    ensures ToLower(a + b) == ToLower(a) + ToLower(b)
  {
    assert forall i :: 0 <= i < |a + b| ==> ToLower(a + b)[i] == (ToLower(a) + ToLower(b))[i];
  }

  /** Typing more can only hide rows: a row that matches a longer query matches every
      prefix of it. */
  lemma {:induction false} LongerQueryShowsFewer(row: Element, query: string, more: string)
    requires Matches(row, query + more)
    ensures Matches(row, query)
  {
    ToLowerConcat(query, more);
    ContainsShorterQuery(ToLower(row.text), ToLower(query), ToLower(more));
  }
}
