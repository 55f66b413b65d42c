/** Page behaviour that several templates share word for word. */
module Widgets {

  /** A header class that follows the scroll position: set while the page is scrolled past
      `threshold` pixels, written only when that changes. */
  class ScrollFlag {
    const threshold: real
    /** The script's `scrolled` variable. */
    var scrolled: bool
    /** The header carries the class. */
    var headerClass: bool
    /** How many times the class has been written. */
    var writes: nat

    ghost predicate Valid()
      reads this
    {
      headerClass == scrolled
    }

    /** The set-up: `scrolled` starts false with the class absent. */
    constructor (threshold: real)
      ensures this.threshold == threshold && !scrolled && !headerClass && writes == 0 && Valid()
    {
      this.threshold := threshold;
      scrolled := false;
      headerClass := false;
      writes := 0;
    }

    /** `onScroll()` at scroll position `y`: afterwards the flag and the class say whether
        `y` is past the threshold, and the class was written only if that changed. */
    method OnScroll(y: real)
      requires Valid()
      modifies this
      ensures Valid()
      ensures scrolled == (y > threshold)
      ensures writes == old(writes) + (if scrolled != old(scrolled) then 1 else 0)
    {
      var shouldBeScrolled := y > threshold;
      if shouldBeScrolled != scrolled {
        scrolled := shouldBeScrolled;
        headerClass := scrolled;
        writes := writes + 1;
      }
    }
  }
}
