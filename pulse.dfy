/** The analytics dashboard's own handler: the one-time reveal of the stat values. Its
    sidebar, settings tabs and customer search are `Dashboard`'s. */
module Pulse {

  /** The inline style of a stat value that the reveal touches. */
  datatype Style = Style(opacity: string, transform: string)

  const Hidden: Style := Style("0", "translateY(10px)")
  const Shown: Style := Style("1", "translateY(0)")

  /** `for (let i = 0; i < a.length; i++) a[i] = v`. */
  method SetAll(a: array<Style>, v: Style)
    modifies a
    ensures forall i :: 0 <= i < a.Length ==> a[i] == v
  {
    for i := 0 to a.Length
      invariant forall j :: 0 <= j < i ==> a[j] == v
    {
      a[i] := v;
    }
  }

  /** The stat values and the `observed` flag of the observer's callback. */
  class StatReveal {
    const stats: array<Style>
    /** The observer was set up: there are stat values and the browser has
        `IntersectionObserver`. */
    const watching: bool
    var observed: bool

    /** Until the first intersection every value is hidden; after it every value is shown. */
    ghost predicate Valid()
      reads this, stats
    {
      && (watching && !observed ==> forall i :: 0 <= i < stats.Length ==> stats[i] == Hidden)
      && (observed ==> forall i :: 0 <= i < stats.Length ==> stats[i] == Shown)
      && (!watching ==> !observed)
    }

    /** The set-up: with stat values and observer support, every value starts hidden;
        otherwise nothing is touched. */
    constructor (stats: array<Style>, supported: bool)
      modifies stats
      ensures this.stats == stats && watching == (stats.Length > 0 && supported) && !observed
      ensures watching ==> forall i :: 0 <= i < stats.Length ==> stats[i] == Hidden
      ensures !watching ==> stats[..] == old(stats[..])
      ensures Valid()
    {
      this.stats := stats;
      watching := stats.Length > 0 && supported;
      observed := false;
      if stats.Length > 0 && supported {
        SetAll(stats, Hidden);
      }
    }

    /** The observer's callback with the `isIntersecting` flag of each entry: the first
        intersecting entry ever seen sets `observed` and shows every value; every later
        entry, and every call after that, changes nothing. */
    method OnEntries(entries: seq<bool>)
      requires Valid() && watching
      modifies this, stats
      ensures Valid()
      ensures observed <==> old(observed) || true in entries
      ensures old(observed) || true !in entries ==> stats[..] == old(stats[..])
      ensures !old(observed) && true in entries ==> forall i :: 0 <= i < stats.Length ==> stats[i] == Shown
    {
      for e := 0 to |entries|
        invariant Valid()
        invariant observed <==> old(observed) || true in entries[..e]
        invariant old(observed) || true !in entries[..e] ==> stats[..] == old(stats[..])
      {
        if entries[e] && !observed {
          observed := true;
          SetAll(stats, Shown);
        }
        assert entries[..e + 1] == entries[..e] + [entries[e]];
      }
      assert entries[..|entries|] == entries;
    }
  }
}
