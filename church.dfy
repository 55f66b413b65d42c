/** The church template's page script: the mobile menu, the header that hides and changes
    background with the scroll position, the contact form's validation, and `throttle`. */
module Church {
  import opened Text
  import opened Dom

  /** The mobile menu: the closure's `isOpen`, the toggle's `menu-toggle--open`, the nav's
      `mobile-nav--open` and whether the body's overflow is hidden. */
  class MobileNav {
    var isOpen: bool
    var toggleOpen: bool
    var navOpen: bool
    var overflowHidden: bool

    /** The classes and the overflow follow `isOpen`. */
    ghost predicate Valid()
      reads this
    {
      toggleOpen == isOpen && navOpen == isOpen && overflowHidden == isOpen
    }

    constructor ()
      ensures !isOpen && Valid()
    {
      isOpen := false;
      toggleOpen := false;
      navOpen := false;
      overflowHidden := false;
    }

    /** `toggleMenu()`: `isOpen` flips and the classes and the overflow are set to it. */
    method ToggleMenu()
      modifies this
      ensures isOpen == !old(isOpen) && Valid()
    {
      isOpen := !isOpen;
      toggleOpen := isOpen;
      navOpen := isOpen;
      overflowHidden := isOpen;
    }

    /** A click on a link of the menu closes an open menu and never opens a closed one. */
    method LinkClick()
      requires Valid()
      modifies this
      ensures !isOpen && Valid()
    {
      if isOpen {
        ToggleMenu();
      }
    }

    /** A key press: Escape closes an open menu; nothing opens it, and any other key
        changes nothing. */
    method KeyDown(key: string)
      requires Valid()
      modifies this
      ensures Valid()
      ensures key == "Escape" ==> !isOpen
      ensures key != "Escape" ==> isOpen == old(isOpen)
      ensures isOpen ==> old(isOpen)
    {
      if key == "Escape" && isOpen {
        ToggleMenu();
      }
    }
  }

  /** The header while the page scrolls: its classes and the closure's `lastScrollY` and
      `ticking`. The animation frame that `ticking` stands for is counted in
      `pendingFrames`. */
  class HeaderScroll {
    /** The header carried `header--transparent` when the page loaded. */
    const isTransparentHeader: bool
    var lastScrollY: real
    var ticking: bool
    var pendingFrames: nat
    /** `header--hidden`, `header--transparent` and `header--scrolled`. */
    var hidden: bool
    var transparent: bool
    var scrolled: bool

    /** At most one update is pending, exactly while `ticking`. */
    ghost predicate Valid()
      reads this
    {
      pendingFrames == (if ticking then 1 else 0)
    }

    /** The set-up at scroll position `scrollY` with the header's class list as it was
        loaded, which may hold both `header--transparent` and `header--scrolled`. */
    constructor (isTransparentHeader: bool, scrolled: bool, hidden: bool, scrollY: real)
      ensures this.isTransparentHeader == isTransparentHeader && transparent == isTransparentHeader
      ensures this.scrolled == scrolled && this.hidden == hidden
      ensures lastScrollY == scrollY && !ticking && Valid()
    {
      this.isTransparentHeader := isTransparentHeader;
      transparent := isTransparentHeader;
      this.scrolled := scrolled;
      this.hidden := hidden;
      lastScrollY := scrollY;
      ticking := false;
      pendingFrames := 0;
    }

    /** A scroll event asks for an animation frame unless one is pending already. */
    method OnScroll()
      requires Valid()
      modifies this
      ensures Valid() && ticking
      ensures pendingFrames == 1
      ensures lastScrollY == old(lastScrollY) && hidden == old(hidden)
      ensures transparent == old(transparent) && scrolled == old(scrolled)
    {
      if !ticking {
        pendingFrames := pendingFrames + 1;
        ticking := true;
      }
    }

    /** `updateHeader()` in the pending frame, at scroll position `currentScrollY` with the
        viewport `innerHeight` high: the header hides exactly when the page moved down and
        is past 100 pixels; a transparent header turns solid exactly when the page is past
        half the viewport; the position is recorded and no frame is pending any more. */
    method UpdateHeader(currentScrollY: real, innerHeight: real)
      requires Valid() && pendingFrames > 0
      modifies this
      ensures Valid() && !ticking && pendingFrames == 0
      ensures hidden <==> currentScrollY > old(lastScrollY) && currentScrollY > 100.0
      ensures isTransparentHeader ==>
        (scrolled <==> currentScrollY > innerHeight * 0.5) && transparent == !scrolled
      ensures !isTransparentHeader ==> transparent == old(transparent) && scrolled == old(scrolled)
      ensures lastScrollY == currentScrollY
    {
      pendingFrames := pendingFrames - 1;
      var scrollingDown := currentScrollY > lastScrollY;
      var scrolledPastHero := currentScrollY > innerHeight * 0.5;
      if scrollingDown && currentScrollY > 100.0 {
        hidden := true;
      } else {
        hidden := false;
      }
      if isTransparentHeader {
        if scrolledPastHero {
          transparent := false;
          scrolled := true;
        } else {
          transparent := true;
          scrolled := false;
        }
      }
      lastScrollY := currentScrollY;
      ticking := false;
    }
  }

  /** A required field of the contact form: its value and its `error` class. */
  datatype Field = Field(value: string, error: bool)

  /** The form's required fields after validation: `error` on exactly the blank ones. */
  function Marked(fs: seq<Field>): (r: seq<Field>)
    ensures |r| == |fs|
    ensures forall j :: 0 <= j < |fs| ==> r[j] == Field(fs[j].value, IsBlank(fs[j].value))
  {
    seq(|fs|, j requires 0 <= j < |fs| => fs[j].(error := Trim(fs[j].value) == ""))
  }

  /** The alert of a form with a blank field. */
  const MissingAlert: string := "Please fill in all required fields."
  /** The alert after the simulated submission. */
  const ThanksAlert: string := "Thank you for your message. We will be in touch soon."

  /** The contact form: its required fields, its submit button and the last alert. */
  class ContactForm {
    const fields: array<Field>
    var submitText: string
    var submitDisabled: bool
    var savedText: string
    /** The last message passed to `alert`, if any. */
    var alerted: Option<string>

    constructor (fields: array<Field>, submitText: string)
      ensures this.fields == fields && this.submitText == submitText && !submitDisabled
      ensures savedText == "" && alerted == None
    {
      this.fields := fields;
      this.submitText := submitText;
      submitDisabled := false;
      savedText := "";
      alerted := None;
    }

    /** The validation loop: the form is valid exactly when no required field is blank, and
        the fields end as `Marked` says. */
    method Validate() returns (isValid: bool)
      modifies fields
      ensures isValid <==> forall j :: 0 <= j < fields.Length ==> !IsBlank(old(fields[j]).value)
      ensures fields[..] == Marked(old(fields[..]))
    {
      ghost var before := fields[..];
      isValid := true;
      for i := 0 to fields.Length
        invariant isValid <==> forall j :: 0 <= j < i ==> !IsBlank(before[j].value)
        invariant forall j :: 0 <= j < i ==> fields[j] == Field(before[j].value, IsBlank(before[j].value))
        invariant forall j :: i <= j < fields.Length ==> fields[j] == before[j]
      {
        if Trim(fields[i].value) == "" {
          isValid := false;
          fields[i] := fields[i].(error := true);
        } else {
          fields[i] := fields[i].(error := false);
        }
      }
      assert fields[..] == Marked(before);
    }

    /** The submit handler: a form with a blank field alerts and stops with the button as
        it was; a valid one shows "Sending..." on a disabled button. */
    method Submit() returns (sending: bool)
      modifies this, fields
      ensures fields[..] == Marked(old(fields[..]))
      ensures sending <==> forall j :: 0 <= j < fields.Length ==> !IsBlank(old(fields[j]).value)
      ensures !sending ==>
        && alerted == Some(MissingAlert)
        && submitText == old(submitText) && submitDisabled == old(submitDisabled)
      ensures sending ==>
        && alerted == old(alerted)
        && submitText == "Sending..." && submitDisabled && savedText == old(submitText)
    {
      var isValid := Validate();
      if !isValid {
        alerted := Some(MissingAlert);
        return false;
      }
      savedText := submitText;
      submitText := "Sending...";
      submitDisabled := true;
      sending := true;
    }

    /** The end of the simulated submission: the thank-you alert and the button restored. */
    method Sent()
      modifies this
      ensures alerted == Some(ThanksAlert)
      ensures submitText == old(savedText) && !submitDisabled
    {
      alerted := Some(ThanksAlert);
      submitText := savedText;
      submitDisabled := false;
    }
  }

  /** What a call of a throttled function does at time `now`: run at once, schedule the
      trailing call after `delay` milliseconds, or nothing (a trailing call is pending). */
  datatype Decision = RunNow | Schedule(delay: int) | Skip

  /** The throttle's rule, with `previous` the time of the last run and `pending` whether a
      trailing call is scheduled. */
  function Decide(now: int, previous: int, wait: int, pending: bool): (d: Decision)
    ensures d.RunNow? <==> wait - (now - previous) <= 0 || wait - (now - previous) > wait
    ensures d.Schedule? ==> !pending && d.delay == wait - (now - previous)
    ensures d.Skip? ==> pending
  {
    var remaining := wait - (now - previous);
    if remaining <= 0 || remaining > wait then RunNow
    else if !pending then Schedule(remaining)
    else Skip
  }

  /** On a clock that does not go back, the call runs at once exactly when `wait`
      milliseconds have passed since the last run, and a trailing call is due exactly when
      they will have passed. */
  lemma {:induction false} DecideOnForwardClock(now: int, previous: int, wait: int, pending: bool)
    requires previous <= now
    ensures Decide(now, previous, wait, pending).RunNow? <==> now - previous >= wait
    ensures Decide(now, previous, wait, pending).Schedule? ==>
      0 < Decide(now, previous, wait, pending).delay <= wait
      && previous + wait == now + Decide(now, previous, wait, pending).delay
  {
  }

  /** The returned function's closure: `previous` and whether `timeout` holds a timer. */
  class Throttle {
    const wait: int
    var previous: int
    var pending: bool
    /** How many times the wrapped function has run. */
    var runs: nat

    constructor (wait: int)
      ensures this.wait == wait && previous == 0 && !pending && runs == 0
    {
      this.wait := wait;
      previous := 0;
      pending := false;
      runs := 0;
    }

    /** A call at time `now`. Running at once cancels a pending trailing call and records
        `now`; otherwise a trailing call is scheduled unless one is pending. The result is
        the delay of a newly scheduled call. */
    method Call(now: int) returns (scheduled: Option<int>)
      modifies this
      ensures Decide(now, old(previous), wait, old(pending)).RunNow? ==>
        && !pending && previous == now && runs == old(runs) + 1 && scheduled == None
      ensures Decide(now, old(previous), wait, old(pending)).Schedule? ==>
        && pending && previous == old(previous) && runs == old(runs)
        && scheduled == Some(Decide(now, old(previous), wait, old(pending)).delay)
      ensures Decide(now, old(previous), wait, old(pending)).Skip? ==>
        && pending && previous == old(previous) && runs == old(runs) && scheduled == None
    {
      var remaining := wait - (now - previous);
      scheduled := None;
      if remaining <= 0 || remaining > wait {
        if pending {
          pending := false;
        }
        previous := now;
        runs := runs + 1;
      } else if !pending {
        pending := true;
        scheduled := Some(remaining);
      }
    }

    /** The trailing call's timer firing at time `now`. */
    method Fire(now: int)
      requires pending
      modifies this
      ensures !pending && previous == now && runs == old(runs) + 1
    {
      previous := now;
      pending := false;
      runs := runs + 1;
    }
  }
}
