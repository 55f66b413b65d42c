/** The restaurant template's page script: the mobile navigation, the menu tabs, the FAQ
    accordion, the reservation and contact forms, and the earliest bookable date. (Its
    header follows the scroll position as `Widgets.ScrollFlag` with threshold 40.) */
module Sushi {
  import opened Text
  import opened Dom

  /** The mobile navigation: the toggle's `active`, the overlay's `open` and the body's
      `nav-open` classes. */
  class MobileNav {
    var toggleActive: bool
    var overlayOpen: bool
    var bodyNavOpen: bool

    /** The three classes agree. */
    ghost predicate Valid()
      reads this
    {
      toggleActive == overlayOpen == bodyNavOpen
    }

    constructor ()
      ensures !toggleActive && !overlayOpen && !bodyNavOpen && Valid()
    {
      toggleActive := false;
      overlayOpen := false;
      bodyNavOpen := false;
    }

    /** A click on the toggle flips its `active` class, and the overlay and the body follow
        the toggle's new state. */
    method Toggle()
      modifies this
      ensures toggleActive == !old(toggleActive) && overlayOpen == toggleActive && bodyNavOpen == toggleActive
      ensures Valid()
    {
      toggleActive := !toggleActive;
      overlayOpen := toggleActive;
      bodyNavOpen := toggleActive;
    }

    /** A click on a link of the overlay closes everything. */
    method LinkClick()
      modifies this
      ensures !toggleActive && !overlayOpen && !bodyNavOpen
    {
      toggleActive := false;
      overlayOpen := false;
      bodyNavOpen := false;
    }

    /** A key press: Escape closes everything while the overlay is open; anything else
        changes nothing. */
    method KeyDown(key: string)
      modifies this
      ensures key == "Escape" && old(overlayOpen) ==> !toggleActive && !overlayOpen && !bodyNavOpen
      ensures !(key == "Escape" && old(overlayOpen)) ==>
        toggleActive == old(toggleActive) && overlayOpen == old(overlayOpen) && bodyNavOpen == old(bodyNavOpen)
    {
      if key == "Escape" && overlayOpen {
        toggleActive := false;
        overlayOpen := false;
        bodyNavOpen := false;
      }
    }
  }

  /** The menu's tab buttons and tab panels. */
  class MenuTabs {
    const buttons: array<Element>
    const panels: array<Element>

    constructor (buttons: array<Element>, panels: array<Element>)
      ensures this.buttons == buttons && this.panels == panels
    {
      this.buttons := buttons;
      this.panels := panels;
    }

    /** A click on button `k`. The handlers exist only when there are buttons and panels;
        then it becomes the only active button, and a panel is active exactly when its
        `data-panel` equals the button's `data-tab`. */
    method Click(k: nat)
      requires k < buttons.Length && buttons != panels
      modifies buttons, panels
      ensures panels.Length == 0 ==> buttons[..] == old(buttons[..])
      ensures panels.Length > 0 ==>
        forall j :: 0 <= j < buttons.Length ==> buttons[j] == WithClass(old(buttons[j]), "active", j == k)
      ensures forall j :: 0 <= j < panels.Length ==>
        panels[j] == WithClass(old(panels[j]), "active", Attr(old(panels[j]), "data-panel") == Attr(old(buttons[k]), "data-tab"))
    {
      if panels.Length == 0 {
        return;
      }
      var target := Attr(buttons[k], "data-tab");
      SelectOnly(buttons, "active", k);
      MarkMatching(panels, "active", "data-panel", target);
    }
  }

  /** A click on the question of FAQ item `k`: every item is closed, then item `k` opens
      unless it was the open one. */
  method FaqClick(items: array<Element>, k: nat)
    requires k < items.Length
    modifies items
    ensures forall j :: 0 <= j < items.Length ==>
      items[j] == WithClass(old(items[j]), "open", j == k && "open" !in old(items[k].classes))
  {
    var wasOpen := "open" in items[k].classes;
    ClearClass(items, "open");
    if !wasOpen {
      items[k] := WithClass(items[k], "open", true);
    }
  }

  /** After a click on item `k`, no item is open if `k` was open, and exactly one is open
      otherwise: never more than one. */
  lemma {:induction false} FaqAtMostOneOpen(before: seq<Element>, after: seq<Element>, k: nat)
    requires k < |before| == |after|
    requires forall j :: 0 <= j < |after| ==>
      after[j] == WithClass(before[j], "open", j == k && "open" !in before[k].classes)
    ensures CountTrue(ClassFlags(after, "open")) == if "open" in before[k].classes then 0 else 1
  {
    if "open" in before[k].classes {
      CountNone(ClassFlags(after, "open"));
    } else {
      CountOnly(ClassFlags(after, "open"), k);
    }
  }

  /** `s[lo..hi]` is a part of an address that `[^\s@]+` matches: not empty, with no
      whitespace and no "@". */
  predicate EmailPart(s: string, lo: nat, hi: nat)
    requires hi <= |s|
  {
    lo < hi && forall k :: lo <= k < hi ==> !IsJsWhitespace(s[k]) && s[k] != '@'
  }

  /** The address pattern `^[^\s@]+@[^\s@]+\.[^\s@]+$`, read as the regular expression
      says: a local part, "@", a domain part, ".", and a last part. */
  predicate MatchesEmail(s: string)
  {
    exists i, j :: 0 < i && i + 1 < j && j + 1 < |s| && s[i] == '@' && s[j] == '.'
      && EmailPart(s, 0, i) && EmailPart(s, i + 1, j) && EmailPart(s, j + 1, |s|)
  }

  /** The same test written as a check: no whitespace, one "@" that is not first, and a "."
      that is neither next to it nor last. */
  function IsEmail(s: string): (ok: bool)
  {
    var at := IndexOf(s, '@');
    && at > 0
    && (forall k :: 0 <= k < |s| ==> !IsJsWhitespace(s[k]))
    && (forall k :: at < k < |s| ==> s[k] != '@')
    && (exists k :: at + 1 < k < |s| - 1 && s[k] == '.')
  }

  /** The check accepts exactly the addresses the pattern matches. */
  lemma {:induction false} IsEmailMatches(s: string)
    ensures IsEmail(s) <==> MatchesEmail(s)
  {
    if IsEmail(s) {
      IsEmailIsMatch(s);
    }
    if MatchesEmail(s) {
      MatchIsEmail(s);
    }
  }

  lemma {:induction false} IsEmailIsMatch(s: string)
    requires IsEmail(s)
    ensures MatchesEmail(s)
  {
    var at := IndexOf(s, '@');
    var j :| at + 1 < j < |s| - 1 && s[j] == '.';
    assert forall k :: 0 <= k < at ==> s[k] != '@' by {
      forall k | 0 <= k < at ensures s[k] != '@' {
        assert s[..at][k] == s[k];
      }
    }
    assert EmailPart(s, 0, at) && EmailPart(s, at + 1, j) && EmailPart(s, j + 1, |s|);
  }

  lemma {:induction false} MatchIsEmail(s: string)
    requires MatchesEmail(s)
    ensures IsEmail(s)
  {
    var i, j :| 0 < i && i + 1 < j && j + 1 < |s| && s[i] == '@' && s[j] == '.'
      && EmailPart(s, 0, i) && EmailPart(s, i + 1, j) && EmailPart(s, j + 1, |s|);
    assert '@' !in s[..i] by {
      forall k | 0 <= k < i ensures s[..i][k] != '@' {
        assert s[..i][k] == s[k];
      }
    }
    assert IndexOf(s, '@') == i;
    assert forall k :: 0 <= k < |s| ==> !IsJsWhitespace(s[k]) by {
      forall k | 0 <= k < |s| ensures !IsJsWhitespace(s[k]) {
        if k == i || k == j {
        } else if k < i {
        } else if k < j {
        } else {
        }
      }
    }
    assert forall k :: i < k < |s| ==> s[k] != '@' by {
      forall k | i < k < |s| ensures s[k] != '@' {
        if k == j {
        } else if k < j {
        } else {
        }
      }
    }
  }

  /** A required field of a form: its value, whether it is an e-mail field, and whether its
      border shows the error colour. */
  datatype Field = Field(value: string, isEmail: bool, flagged: bool)

  /** A field passes when its trimmed value is not empty and, for an e-mail field, is an
      address. */
  predicate FieldOk(f: Field)
  {
    Trim(f.value) != [] && (f.isEmail ==> IsEmail(Trim(f.value)))
  }

  /** The checks the handler runs on one field: an empty trimmed value fails, and so does
      a non-empty one of an e-mail field that is not an address. */
  function FieldFails(f: Field): (failed: bool)
    ensures failed <==> !FieldOk(f)
  {
    var text := Trim(f.value);
    text == [] || (f.isEmail && text != [] && !IsEmail(text))
  }

  /** The fields as the validation leaves them: each one flagged exactly when it fails. */
  function Checked(fs: seq<Field>): (r: seq<Field>)
    ensures |r| == |fs|
  {
    if fs == [] then [] else Checked(fs[..|fs| - 1]) + [fs[|fs| - 1].(flagged := FieldFails(fs[|fs| - 1]))]
  }

  /** Every field passes. */
  predicate AllPass(fs: seq<Field>)
  {
    if fs == [] then true else AllPass(fs[..|fs| - 1]) && !FieldFails(fs[|fs| - 1])
  }

  /** Validation flags exactly the failing fields and changes nothing else in them. */
  lemma {:induction false} CheckedFlagsFailures(fs: seq<Field>)
    ensures forall j :: 0 <= j < |fs| ==>
      Checked(fs)[j] == Field(fs[j].value, fs[j].isEmail, !FieldOk(fs[j]))
    decreases |fs|
  {
    if fs != [] {
      CheckedFlagsFailures(fs[..|fs| - 1]);
    }
  }

  /** The form is valid exactly when every field passes. */
  lemma {:induction false} AllPassMeansEveryField(fs: seq<Field>)
    ensures AllPass(fs) <==> forall j :: 0 <= j < |fs| ==> FieldOk(fs[j])
  {
    if AllPass(fs) {
      AllPassEveryField(fs);
    } else {
      SomeFieldFails(fs);
    }
  }

  /** A valid form has no failing field. */
  lemma {:induction false} AllPassEveryField(fs: seq<Field>)
    requires AllPass(fs)
    ensures forall j :: 0 <= j < |fs| ==> FieldOk(fs[j])
    decreases |fs|
  {
    if fs != [] {
      var init := fs[..|fs| - 1];
      AllPassEveryField(init);
      assert forall j :: 0 <= j < |init| ==> init[j] == fs[j];
    }
  }

  /** An invalid form has a failing field. */
  lemma {:induction false} SomeFieldFails(fs: seq<Field>)
    requires !AllPass(fs)
    ensures exists j :: 0 <= j < |fs| && !FieldOk(fs[j])
    decreases |fs|
  {
    var init := fs[..|fs| - 1];
    if AllPass(init) {
      assert !FieldOk(fs[|fs| - 1]);
    } else {
      SomeFieldFails(init);
      var j :| 0 <= j < |init| && !FieldOk(init[j]);
      assert init[j] == fs[j];
    }
  }

  /** The validation loop over the required fields: the form is valid exactly when every
      field passes, and the fields end as `Checked` says. */
  method Validate(fields: array<Field>) returns (valid: bool)
    modifies fields
    ensures valid == AllPass(old(fields[..]))
    ensures fields[..] == Checked(old(fields[..]))
  {
    ghost var before := fields[..];
    valid := true;
    for i := 0 to fields.Length
      invariant valid == AllPass(before[..i])
      invariant fields[..i] == Checked(before[..i])
      invariant forall j :: i <= j < fields.Length ==> fields[j] == before[j]
    {
      var f := fields[i];
      var failed := FieldFails(f);
      fields[i] := f.(flagged := failed);
      if failed {
        valid := false;
      }
      assert before[..i + 1][..i] == before[..i];
      assert fields[..i + 1] == fields[..i] + [fields[i]];
    }
    assert before[..fields.Length] == before;
    assert fields[..fields.Length] == fields[..];
  }

  /** `required.forEach(field => field.style.borderColor = '')`. */
  method Unflag(fields: array<Field>)
    modifies fields
    ensures forall j :: 0 <= j < fields.Length ==> fields[j] == old(fields[j]).(flagged := false)
  {
    for i := 0 to fields.Length
      invariant forall j :: 0 <= j < i ==> fields[j] == old(fields[j]).(flagged := false)
      invariant forall j :: i <= j < fields.Length ==> fields[j] == old(fields[j])
    {
      fields[i] := fields[i].(flagged := false);
    }
  }

  const ErrorClass: string := "form-message form-message--error"
  const SuccessClass: string := "form-message form-message--success"
  const ErrorText: string := "Please complete all required fields correctly."

  /** A form with its required fields, its message element and its submit button. */
  class Form {
    const fields: array<Field>
    var messageClass: string
    var messageText: string
    var submitText: string
    var submitDisabled: bool
    /** The button text saved while the submission is simulated. */
    var savedText: string

    constructor (fields: array<Field>, submitText: string)
      ensures this.fields == fields && this.submitText == submitText && !submitDisabled
      ensures messageClass == "" && messageText == "" && savedText == ""
    {
      this.fields := fields;
      this.submitText := submitText;
      submitDisabled := false;
      messageClass := "";
      messageText := "";
      savedText := "";
    }

    /** The submit handler. Without a message element nothing happens. An invalid form gets
        the error message and stays as it is; a valid one shows "Sending..." on a disabled
        button. Either way the fields are flagged as `Validate` says (see
        `CheckedFlagsFailures` and `AllPassMeansEveryField`). */
    method Submit(hasMessageElement: bool) returns (sending: bool)
      modifies this, fields
      ensures !hasMessageElement ==>
        && !sending && fields[..] == old(fields[..])
        && messageClass == old(messageClass) && messageText == old(messageText)
        && submitText == old(submitText) && submitDisabled == old(submitDisabled)
      ensures hasMessageElement ==>
        && sending == AllPass(old(fields[..])) && fields[..] == Checked(old(fields[..]))
      ensures hasMessageElement && !sending ==>
        && messageClass == ErrorClass && messageText == ErrorText
        && submitText == old(submitText) && submitDisabled == old(submitDisabled)
      ensures sending ==>
        && submitText == "Sending..." && submitDisabled && savedText == old(submitText)
        && messageClass == old(messageClass) && messageText == old(messageText)
    {
      if !hasMessageElement {
        return false;
      }
      var valid := Validate(fields);
      if !valid {
        messageClass := ErrorClass;
        messageText := ErrorText;
        return false;
      }
      savedText := submitText;
      submitText := "Sending...";
      submitDisabled := true;
      sending := true;
    }

    /** The end of the simulated submission: the success message, the button restored, and
        no field flagged. */
    method Sent(successText: string)
      modifies this, fields
      ensures messageClass == SuccessClass && messageText == successText
      ensures submitText == old(savedText) && !submitDisabled
      ensures forall j :: 0 <= j < fields.Length ==> fields[j] == old(fields[j]).(flagged := false)
    {
      messageClass := SuccessClass;
      messageText := successText;
      submitText := savedText;
      submitDisabled := false;
      Unflag(fields);
    }
  }

  /** A calendar date: year, month 1 to 12, day of the month. */
  datatype Date = Date(year: nat, month: nat, day: nat)

  predicate IsLeapYear(y: nat)
  {
    (y % 4 == 0 && y % 100 != 0) || y % 400 == 0
  }

  function DaysInMonth(y: nat, m: nat): nat
    requires 1 <= m <= 12
  {
    if m == 2 then (if IsLeapYear(y) then 29 else 28)
    else if m == 4 || m == 6 || m == 9 || m == 11 then 30
    else 31
  }

  predicate IsValidDate(d: Date)
  {
    1 <= d.month <= 12 && 1 <= d.day <= DaysInMonth(d.year, d.month)
  }

  /** `d` comes strictly before `e` in the calendar. */
  predicate Before(d: Date, e: Date)
  {
    d.year < e.year || (d.year == e.year && (d.month < e.month || (d.month == e.month && d.day < e.day)))
  }

  /** The `min` value of a date input: "year-MM-DD". */
  function FormatDate(d: Date): string
  {
    NatToString(d.year) + "-" + Pad2(d.month) + "-" + Pad2(d.day)
  }

  /** A date of a four-digit year is written in ten characters, dashes at 4 and 7, with
      the digits of year, month and day in their places. */
  lemma {:induction false} FormatDateShape(d: Date)
    requires IsValidDate(d) && 1000 <= d.year <= 9999
    ensures var s := FormatDate(d);
      && |s| == 10 && s[4] == '-' && s[7] == '-'
      && DigitsValue(s[..4]) == d.year && DigitsValue(s[5..7]) == d.month && DigitsValue(s[8..]) == d.day
  {
    FourDigits(d.year);
    DashedShape(NatToString(d.year), Pad2(d.month), Pad2(d.day));
  }

  /** A year from 1000 to 9999 is written with four digits. */
  lemma {:induction false} FourDigits(year: nat)
    requires 1000 <= year <= 9999
    ensures |NatToString(year)| == 4
  {
    assert NatToString(year) == NatToString(year / 10) + [DigitChar(year % 10)];
    assert NatToString(year / 10) == NatToString(year / 100) + [DigitChar(year / 10 % 10)];
  }

  /** Where the pieces of "y-m-d" sit when they have four, two and two characters. */
  lemma {:induction false} DashedShape(y: string, m: string, dd: string)
    requires |y| == 4 && |m| == 2 && |dd| == 2
    ensures var s := y + "-" + m + "-" + dd;
      && |s| == 10 && s[4] == '-' && s[7] == '-' && s[..4] == y && s[5..7] == m && s[8..] == dd
  {
    var s := y + "-" + m + "-" + dd;
    var tail := ['-'] + m + ['-'] + dd;
    assert s == y + tail;
    assert s[5..7] == tail[1..3] == m;
    assert s[8..] == tail[4..] == dd;
  }

  /** The minimum as the page computes it from `getFullYear()`, `getMonth()` (0 to 11) and
      `getDate()`: month plus one and day plus one, with no carry into the next month. */
  function MinDateAsWritten(year: nat, monthIndex: nat, date: nat): string
  {
    FormatDate(Date(year, monthIndex + 1, date + 1))
  }

  /** On the last day of a month the page's minimum is a day that does not exist: on
      31 January 2025 it is "2025-01-32". */
  lemma {:induction false} MinDateOverflows()
    ensures MinDateAsWritten(2025, 0, 31) == FormatDate(Date(2025, 1, 32))
    ensures IsValidDate(Date(2025, 1, 31)) && !IsValidDate(Date(2025, 1, 32))
  {
  }

  /** The day after a valid date, carrying into the next month and year. */
  function Tomorrow(d: Date): (t: Date)
    requires IsValidDate(d)
    ensures IsValidDate(t) && Before(d, t)
  {
    if d.day < DaysInMonth(d.year, d.month) then Date(d.year, d.month, d.day + 1)
    else if d.month < 12 then Date(d.year, d.month + 1, 1)
    else Date(d.year + 1, 1, 1)
  }

  /** No valid date lies strictly between a date and its next day. */
  lemma {:induction false} TomorrowIsNext(d: Date, e: Date)
    requires IsValidDate(d) && IsValidDate(e) && Before(d, e)
    ensures !Before(e, Tomorrow(d))
  {
  }

  /** The minimum the page means: tomorrow's date, always a real one. */
  function MinDate(year: nat, monthIndex: nat, date: nat): (s: string)
    requires IsValidDate(Date(year, monthIndex + 1, date))
    ensures s == FormatDate(Tomorrow(Date(year, monthIndex + 1, date)))
    ensures date < DaysInMonth(year, monthIndex + 1) ==> s == MinDateAsWritten(year, monthIndex, date)
  {
    FormatDate(Tomorrow(Date(year, monthIndex + 1, date)))
  }
}
