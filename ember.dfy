/** The coffee-roaster template's page script: the header's scroll class, the mobile
    navigation, the menu's category tabs and the "today" row of the opening hours. */
module Ember {
  import opened Text
  import opened Dom

  /** The header's `scrolled` class, written at every scroll event. */
  class Header {
    var scrolled: bool

    constructor ()
      ensures !scrolled
    {
      scrolled := false;
    }

    /** `onScroll()` at scroll position `y`: the class is set exactly when `y` is past 60. */
    method OnScroll(y: real)
      modifies this
      ensures scrolled <==> y > 60.0
    {
      if y > 60.0 {
        scrolled := true;
      } else {
        scrolled := false;
      }
    }
  }

  /** The mobile navigation: the toggle's `open`, the links' `mobile-open`, and whether the
      body's overflow is hidden. */
  class MobileNav {
    var toggleOpen: bool
    var mobileOpen: bool
    var overflowHidden: bool

    /** The toggle is open exactly when the links are, and the page cannot scroll exactly
        while they are open. */
    ghost predicate Valid()
      reads this
    {
      toggleOpen == mobileOpen && overflowHidden == mobileOpen
    }

    constructor ()
      ensures !toggleOpen && !mobileOpen && !overflowHidden && Valid()
    {
      toggleOpen := false;
      mobileOpen := false;
      overflowHidden := false;
    }

    /** A click on the toggle flips both classes, then hides the overflow exactly when the
        links are open. */
    method Toggle()
      modifies this
      ensures toggleOpen == !old(toggleOpen) && mobileOpen == !old(mobileOpen)
      ensures overflowHidden == mobileOpen
      ensures old(Valid()) ==> Valid()
    {
      toggleOpen := !toggleOpen;
      mobileOpen := !mobileOpen;
      overflowHidden := mobileOpen;
    }

    /** A click on a link closes the navigation. */
    method LinkClick()
      modifies this
      ensures !toggleOpen && !mobileOpen && !overflowHidden && Valid()
    {
      toggleOpen := false;
      mobileOpen := false;
      overflowHidden := false;
    }
  }

  /** A menu category stays visible when the selection is "all" or is its category. */
  predicate Shows(selected: Option<string>, category: Element)
  {
    selected == Some("all") || Attr(category, "data-category") == selected
  }

  /** The loop over the categories: a shown one gets `display` "", a hidden one "none",
      and nothing else changes. */
  method ShowCategories(categories: array<Element>, selected: Option<string>)
    modifies categories
    ensures forall j :: 0 <= j < categories.Length ==>
      categories[j] == old(categories[j]).(display := if Shows(selected, old(categories[j])) then "" else "none")
  {
    for i := 0 to categories.Length
      invariant forall j :: 0 <= j < i ==>
        categories[j] == old(categories[j]).(display := if Shows(selected, old(categories[j])) then "" else "none")
      invariant forall j :: i <= j < categories.Length ==> categories[j] == old(categories[j])
    {
      if Shows(selected, categories[i]) {
        categories[i] := categories[i].(display := "");
      } else {
        categories[i] := categories[i].(display := "none");
      }
    }
  }

  /** The menu page's tabs and categories. */
  class MenuTabs {
    const tabs: array<Element>
    const categories: array<Element>

    constructor (tabs: array<Element>, categories: array<Element>)
      ensures this.tabs == tabs && this.categories == categories
    {
      this.tabs := tabs;
      this.categories := categories;
    }

    /** A click on tab `k`. The handlers exist only when there are tabs and categories; then
        tab `k` becomes the only active tab, a selected category gets `display` "", any
        other "none", and nothing else about a category changes. */
    method Click(k: nat)
      requires k < tabs.Length && tabs != categories
      modifies tabs, categories
      ensures categories.Length == 0 ==> tabs[..] == old(tabs[..]) && categories[..] == old(categories[..])
      ensures categories.Length > 0 ==>
        forall j :: 0 <= j < tabs.Length ==> tabs[j] == WithClass(old(tabs[j]), "active", j == k)
      ensures categories.Length > 0 ==>
        forall j :: 0 <= j < categories.Length ==>
          categories[j] == old(categories[j]).(display := if Shows(Attr(old(tabs[k]), "data-tab"), old(categories[j])) then "" else "none")
    {
      if categories.Length == 0 {
        return;
      }
      SelectOnly(tabs, "active", k);
      var selected := Attr(tabs[k], "data-tab");
      ShowCategories(categories, selected);
    }
  }

  /** `['Sunday', …, 'Saturday']`, indexed by `getDay()`. */
  const Days: seq<string> := ["Sunday", "Monday", "Tuesday", "Wednesday", "Thursday", "Friday", "Saturday"]

  /** The en dash between the opening and the closing time. */
  const Dash: char := '\U{2013}'

  /** The hours "`opens` – `closes`" as the page writes them. */
  function Span(opens: string, closes: string): string
  {
    opens + " " + [Dash] + " " + closes
  }

  const Weekday: string := Span("6:30 AM", "6:00 PM")
  const Saturday: string := Span("7:00 AM", "5:00 PM")
  const Sunday: string := Span("8:00 AM", "3:00 PM")

  /** The opening hours of each day. */
  const Hours: map<string, string> := map[
    "Monday" := Weekday, "Tuesday" := Weekday, "Wednesday" := Weekday,
    "Thursday" := Weekday, "Friday" := Weekday,
    "Saturday" := Saturday, "Sunday" := Sunday]

  /** `hours.split('–')[1].trim()`: the trimmed text after the first dash; with no dash the
      second part is `undefined` and the call throws (`None`). */
  function ClosingTime(hours: string): (c: Option<string>)
    ensures c.Some? <==> Dash in hours
  {
    var parts := Split(hours, Dash);
    JoinSplit(hours, Dash);
    if |parts| >= 2 then Some(Trim(parts[1])) else None
  }

  /** The closing time of the hours "`opens` – `closes`", written with one space around the
      dash, is `closes`. */
  lemma {:induction false} ClosingTimeOf(opens: string, closes: string)
    requires Dash !in opens && Dash !in closes
    requires |closes| > 0 && !IsJsWhitespace(closes[0]) && !IsJsWhitespace(closes[|closes| - 1])
    ensures ClosingTime(Span(opens, closes)) == Some(closes)
  {
    var a := opens + " ";
    var b := " " + closes;
    assert Join([a, b], [Dash]) == opens + " " + [Dash] + " " + closes;
    SplitJoin([a, b], Dash);
    assert b[1..] == closes;
    TrimStartKeeps(closes);
    TrimOfTrimmed(closes);
  }

  /** A text with no whitespace at either end is its own trim. */
  lemma {:induction false} TrimOfTrimmed(s: string)
    requires |s| > 0 && !IsJsWhitespace(s[0]) && !IsJsWhitespace(s[|s| - 1])
    ensures Trim(s) == s
  {
    TrimBothEnds(s);
    TrimStartKeeps(s);
  }

  /** The closing times the page shows: six in the evening on weekdays, five on Saturday
      and three on Sunday. */
  lemma {:induction false} ClosingTimes()
    ensures ClosingTime(Weekday) == Some("6:00 PM")
    ensures ClosingTime(Saturday) == Some("5:00 PM")
    ensures ClosingTime(Sunday) == Some("3:00 PM")
  {
    ClosingTimeOf("6:30 AM", "6:00 PM");
    ClosingTimeOf("7:00 AM", "5:00 PM");
    ClosingTimeOf("8:00 AM", "3:00 PM");
  }

  /** Every day of `Days` has hours with a dash, so the page always finds a closing time. */
  lemma {:induction false} EveryDayHasAClosingTime()
    ensures forall d :: 0 <= d < |Days| ==> Days[d] in Hours && ClosingTime(Hours[Days[d]]).Some?
  {
    ClosingTimes();
    forall d | 0 <= d < |Days| ensures Days[d] in Hours && ClosingTime(Hours[Days[d]]).Some? {
      assert Hours[Days[d]] in {Weekday, Saturday, Sunday};
    }
  }

  /** The "today" row on day `day` of the week (`getDay()`), given the texts of its cells.
      With fewer than two cells nothing is written. Otherwise the first cell names the day
      and the second gives the closing time; if the day's hours had no dash, the script
      would stop with an error after the first cell. */
  method UpdateTodayRow(cells: array<string>, day: nat)
    requires day < |Days|
    modifies cells
    ensures cells.Length < 2 ==> cells[..] == old(cells[..])
    ensures cells.Length >= 2 ==>
      && cells[0] == "Today (" + Days[day] + ")"
      && (Days[day] in Hours && ClosingTime(Hours[Days[day]]).Some? ==>
            cells[1] == "Open until " + ClosingTime(Hours[Days[day]]).value)
      && cells[2..] == old(cells[2..])
  {
    var today := Days[day];
    if cells.Length >= 2 {
      cells[0] := "Today (" + today + ")";
      if today !in Hours {
        return;
      }
      var closing := ClosingTime(Hours[today]);
      if closing.None? {
        return;
      }
      cells[1] := "Open until " + closing.value;
    }
  }
}
