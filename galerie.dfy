/** The gallery template's page script: the mobile navigation, the filter tabs over a grid
    of artworks, and the offset of anchor scrolling. (Its header follows the scroll position
    as `Widgets.ScrollFlag` with threshold 40 and class `is-scrolled`.) */
module Galerie {
  import opened Text
  import opened Dom

  /** The mobile navigation: the toggle's `is-active`, the nav's `is-open`, and whether the
      body's overflow is hidden. */
  class MobileNav {
    var toggleActive: bool
    var navOpen: bool
    var overflowHidden: bool

    /** The toggle and the nav agree, and the page cannot scroll exactly while the nav is
        open. */
    ghost predicate Valid()
      reads this
    {
      toggleActive == navOpen && overflowHidden == navOpen
    }

    constructor ()
      ensures !toggleActive && !navOpen && !overflowHidden && Valid()
    {
      toggleActive := false;
      navOpen := false;
      overflowHidden := false;
    }

    /** A click on the toggle flips the two classes each on its own, then hides the overflow
        exactly when the nav is open; classes that agreed before still agree. */
    method Toggle()
      modifies this
      ensures toggleActive == !old(toggleActive) && navOpen == !old(navOpen)
      ensures overflowHidden == navOpen
      ensures old(Valid()) ==> Valid()
    {
      toggleActive := !toggleActive;
      navOpen := !navOpen;
      overflowHidden := navOpen;
    }

    /** A click on a link of the nav closes it. */
    method LinkClick()
      modifies this
      ensures !toggleActive && !navOpen && !overflowHidden && Valid()
    {
      toggleActive := false;
      navOpen := false;
      overflowHidden := false;
    }

    /** A key press: Escape closes the nav while it is open; anything else changes nothing. */
    method KeyDown(key: string)
      modifies this
      ensures key == "Escape" && old(navOpen) ==> !toggleActive && !navOpen && !overflowHidden
      ensures !(key == "Escape" && old(navOpen)) ==>
        toggleActive == old(toggleActive) && navOpen == old(navOpen) && overflowHidden == old(overflowHidden)
    {
      if key == "Escape" && navOpen {
        toggleActive := false;
        navOpen := false;
        overflowHidden := false;
      }
    }
  }

  /** An element that can hold the artworks of a tab container. */
  predicate IsGrid(e: Element)
  {
    "grid" in e.classes || "masonry" in e.classes
  }

  /** The walk along `nextElementSibling` from a tab container, given the siblings that
      follow it in order: the first one with class `grid` or `masonry`, or none. */
  method FindGrid(siblings: seq<Element>) returns (grid: Option<nat>)
    ensures grid.None? <==> forall j :: 0 <= j < |siblings| ==> !IsGrid(siblings[j])
    ensures grid.Some? ==>
      && grid.value < |siblings| && IsGrid(siblings[grid.value])
      && forall j :: 0 <= j < grid.value ==> !IsGrid(siblings[j])
  {
    var i := 0;
    while i < |siblings| && !IsGrid(siblings[i])
      invariant 0 <= i <= |siblings|
      invariant forall j :: 0 <= j < i ==> !IsGrid(siblings[j])
    {
      i := i + 1;
    }
    if i == |siblings| {
      return None;
    }
    return Some(i);
  }

  /** A grid item stays visible under `filter` when the filter is "all" or names the item's
      category (two missing values are equal, as `null === null`). */
  predicate Shows(filter: Option<string>, item: Element)
  {
    filter == Some("all") || Attr(item, "data-category") == filter
  }

  /** The filtering loop over the grid's children: a shown item gets `display` "" and ends
      with `is-revealed`, a hidden one gets `display` "none", and nothing else changes. */
  method ApplyFilter(items: array<Element>, filter: Option<string>)
    modifies items
    ensures forall j :: 0 <= j < items.Length ==>
      Shows(filter, old(items[j])) ==> items[j] == old(items[j]).(display := "", classes := old(items[j]).classes + {"is-revealed"})
    ensures forall j :: 0 <= j < items.Length ==>
      !Shows(filter, old(items[j])) ==> items[j] == old(items[j]).(display := "none")
  {
    for i := 0 to items.Length
      invariant forall j :: 0 <= j < i ==>
        Shows(filter, old(items[j])) ==> items[j] == old(items[j]).(display := "", classes := old(items[j]).classes + {"is-revealed"})
      invariant forall j :: 0 <= j < i ==>
        !Shows(filter, old(items[j])) ==> items[j] == old(items[j]).(display := "none")
      invariant forall j :: i <= j < items.Length ==> items[j] == old(items[j])
    {
      var item := items[i];
      if Shows(filter, item) {
        item := item.(display := "");
        item := WithClass(item, "is-revealed", false);
        item := WithClass(item, "is-revealed", true);
      } else {
        item := item.(display := "none");
      }
      items[i] := item;
    }
  }

  /** An item's category is untouched by filtering, so filtering again with the same filter
      decides the same way. */
  lemma {:induction false} FilterKeepsCategory(item: Element, filter: Option<string>, shown: Element, hidden: Element)
    requires shown == item.(display := "", classes := item.classes + {"is-revealed"})
    requires hidden == item.(display := "none")
    ensures Shows(filter, shown) == Shows(filter, item) && Shows(filter, hidden) == Shows(filter, item)
    ensures shown.display != hidden.display
  {
    assert Attr(shown, "data-category") == Attr(item, "data-category");
  }

  /** A tab container with its tabs and the grid found for it. */
  class FilterTabs {
    const tabs: array<Element>
    const items: array<Element>

    constructor (tabs: array<Element>, items: array<Element>)
      ensures this.tabs == tabs && this.items == items
    {
      this.tabs := tabs;
      this.items := items;
    }

    /** A click on tab `k`: it becomes the only `is-active` tab, and each item of the grid is
        shown or hidden by the tab's `data-filter` as `ApplyFilter` says. */
    method Click(k: nat)
      requires k < tabs.Length && tabs != items
      modifies tabs, items
      ensures forall j :: 0 <= j < tabs.Length ==> tabs[j] == WithClass(old(tabs[j]), "is-active", j == k)
      ensures forall j :: 0 <= j < items.Length ==>
        Shows(Attr(old(tabs[k]), "data-filter"), old(items[j])) ==>
          items[j] == old(items[j]).(display := "", classes := old(items[j]).classes + {"is-revealed"})
      ensures forall j :: 0 <= j < items.Length ==>
        !Shows(Attr(old(tabs[k]), "data-filter"), old(items[j])) ==> items[j] == old(items[j]).(display := "none")
    {
      var filter := Attr(tabs[k], "data-filter");
      SelectOnly(tabs, "is-active", k);
      ApplyFilter(items, filter);
    }
  }

  /** The value of digit `c` in bases up to 36, or 36 when `c` is no digit at all. */
  function DigitValue(c: char): (v: nat)
    ensures v <= 36
    ensures IsDigit(c) ==> v == c as int - '0' as int
  {
    if '0' <= c <= '9' then c as int - '0' as int
    else if 'a' <= c <= 'z' then c as int - 'a' as int + 10
    else if 'A' <= c <= 'Z' then c as int - 'A' as int + 10
    else 36
  }

  /** The longest prefix of `s` made of digits of base `radix`. */
  function LeadingDigits(s: string, radix: nat): (d: string)
    ensures d <= s
    ensures forall i :: 0 <= i < |d| ==> DigitValue(d[i]) < radix
    ensures |d| < |s| ==> DigitValue(s[|d|]) >= radix
  {
    if |s| > 0 && DigitValue(s[0]) < radix then [s[0]] + LeadingDigits(s[1..], radix) else []
  }

  /** The value of the digit string `d` in base `radix`, most significant digit first. */
  function ValueIn(d: string, radix: nat): nat
  {
    if |d| == 0 then 0 else radix * ValueIn(d[..|d| - 1], radix) + DigitValue(d[|d| - 1])
  }

  /** The unsigned part of `parseInt`: a "0x" or "0X" prefix selects base 16, then the
      longest run of digits is read; with no digit the result is NaN (`None`). */
  function ParseUnsigned(u: string): (r: Option<nat>)
  {
    var hex := |u| >= 2 && u[0] == '0' && (u[1] == 'x' || u[1] == 'X');
    var radix := if hex then 16 else 10;
    var d := LeadingDigits(if hex then u[2..] else u, radix);
    if d == [] then None else Some(ValueIn(d, radix))
  }

  /** `parseInt(s)` without a radix: leading whitespace is skipped and a sign is read before
      the unsigned part. */
  function ParseInt(s: string): (r: Option<int>)
  {
    var t := TrimStart(s);
    var negative := |t| > 0 && t[0] == '-';
    var u := if |t| > 0 && (t[0] == '-' || t[0] == '+') then t[1..] else t;
    match ParseUnsigned(u)
    case None => None
    case Some(v) => if negative then Some(-(v as int)) else Some(v)
  }

  /** Decimal digits have the same value read as base 10 here and in `Text.DigitsValue`. */
  lemma {:induction false} ValueInDecimal(d: string)
    requires forall i :: 0 <= i < |d| ==> IsDigit(d[i])
    ensures ValueIn(d, 10) == DigitsValue(d)
    decreases |d|
  {
    if |d| > 0 {
      ValueInDecimal(d[..|d| - 1]);
    }
  }

  /** The digits at the front of `d + x` are `d` when `x` does not go on with a digit. */
  lemma {:induction false} LeadingDigitsStop(d: string, x: string, radix: nat)
    requires forall i :: 0 <= i < |d| ==> DigitValue(d[i]) < radix
    requires x == [] || DigitValue(x[0]) >= radix
    ensures LeadingDigits(d + x, radix) == d
    decreases |d|
  {
    if |d| > 0 {
      LeadingDigitsStop(d[1..], x, radix);
      assert (d + x)[1..] == d[1..] + x;
    } else {
      assert d + x == x;
    }
  }

  /** `parseInt` reads back the decimal numeral of `n` followed by a unit such as "px". */
  lemma {:induction false} ParseIntOfNumeral(n: nat, unit: string)
    requires unit == [] || (DigitValue(unit[0]) >= 10 && unit[0] != 'x' && unit[0] != 'X')
    ensures ParseInt(NatToString(n) + unit) == Some(n)
  {
    var s := NatToString(n) + unit;
    assert IsDigit(s[0]) by { assert s[0] == NatToString(n)[0]; }
    ParseUnsignedOfNumeral(n, unit);
    ParseIntUnsigned(s);
  }

  /** A text that starts with a digit has no whitespace or sign to skip. */
  lemma {:induction false} ParseIntUnsigned(s: string)
    requires |s| > 0 && IsDigit(s[0])
    ensures ParseUnsigned(s).Some? ==> ParseInt(s) == Some(ParseUnsigned(s).value as int)
  {
    TrimStartKeeps(s);
    var t := TrimStart(s);
    assert t == s;
    assert !(|t| > 0 && t[0] == '-') && !(|t| > 0 && (t[0] == '-' || t[0] == '+'));
  }

  lemma {:induction false} ParseUnsignedOfNumeral(n: nat, unit: string)
    requires unit == [] || (DigitValue(unit[0]) >= 10 && unit[0] != 'x' && unit[0] != 'X')
    ensures ParseUnsigned(NatToString(n) + unit) == Some(n)
  {
    var d := NatToString(n);
    var s := d + unit;
    if |s| >= 2 && s[0] == '0' {
      assert s[1] == unit[0];
    }
    forall i | 0 <= i < |d| ensures DigitValue(d[i]) < 10 {
      assert IsDigit(d[i]);
    }
    LeadingDigitsStop(d, unit, 10);
    ValueInDecimal(d);
  }

  /** The anchor offset: the parsed `--gl-nav-height`, or 76 when that is NaN or 0 (`||`
      treats both as false). */
  function NavOffset(navHeight: string): (offset: int)
    ensures offset != 0
    ensures offset == 76 <== ParseInt(navHeight).None? || ParseInt(navHeight) == Some(0)
    ensures ParseInt(navHeight).Some? && ParseInt(navHeight).value != 0 ==> offset == ParseInt(navHeight).value
  {
    match ParseInt(navHeight)
    case None => 76
    case Some(n) => if n == 0 then 76 else n
  }

  /** A height written as "<n>px" with `n` positive is taken as it is; a missing value
      gives 76. */
  lemma {:induction false} NavOffsetOfPixels(n: nat)
    requires n > 0
    ensures NavOffset(NatToString(n) + "px") == n
    ensures NavOffset("") == 76
  {
    assert DigitValue('p') == 25;
    ParseIntOfNumeral(n, "px");
    assert TrimStart("") == "";
  }
}
