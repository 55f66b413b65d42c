/** The part of the document the templates' scripts touch, as plain values: an element is
    its class list, its attributes, its inline `display` style and its text. Node lists
    are arrays of elements, and handlers are methods on them. */
module Dom {

  datatype Option<+T> = None | Some(value: T)

  datatype Element = Element(classes: set<string>, attrs: map<string, string>, display: string, text: string)

  /** `el.getAttribute(name)`: the value, or null (`None`) when the attribute is absent. */
  function Attr(e: Element, name: string): Option<string>
  {
    if name in e.attrs then Some(e.attrs[name]) else None
  }

  /** `el.classList.toggle(c, on)`: the element with class `c` present exactly when `on`. */
  function WithClass(e: Element, c: string, on: bool): Element
  {
    e.(classes := if on then e.classes + {c} else e.classes - {c})
  }

  /** The presence of class `c` on each element of a node list. */
  function ClassFlags(s: seq<Element>, c: string): (r: seq<bool>)
  {
    seq(|s|, j requires 0 <= j < |s| => c in s[j].classes)
  }

  /** `list.forEach(el => el.classList.remove(c))`. */
  method ClearClass(a: array<Element>, c: string)
    modifies a
    ensures forall j :: 0 <= j < a.Length ==> a[j] == WithClass(old(a[j]), c, false)
  {
    for i := 0 to a.Length
      invariant forall j :: 0 <= j < i ==> a[j] == WithClass(old(a[j]), c, false)
      invariant forall j :: i <= j < a.Length ==> a[j] == old(a[j])
    {
      a[i] := WithClass(a[i], c, false);
    }
  }

  /** The usual click handler of a button group: clear class `c` on every element, then
      add it to the clicked one. Afterwards `c` is on element `k` and on no other, and
      nothing else about any element has changed. */
  method SelectOnly(a: array<Element>, c: string, k: nat)
    requires k < a.Length
    modifies a
    ensures forall j :: 0 <= j < a.Length ==> a[j] == WithClass(old(a[j]), c, j == k)
  {
    ClearClass(a, c);
    a[k] := WithClass(a[k], c, true);
  }

  /** `list.forEach(el => el.classList.toggle(c, el.getAttribute(name) === target))`:
      afterwards an element carries `c` exactly when its attribute `name` equals `target`
      (two missing values are equal, as `null === null`). */
  method MarkMatching(a: array<Element>, c: string, name: string, target: Option<string>)
    modifies a
    ensures forall j :: 0 <= j < a.Length ==> a[j] == WithClass(old(a[j]), c, Attr(old(a[j]), name) == target)
  {
    for i := 0 to a.Length
      invariant forall j :: 0 <= j < i ==> a[j] == WithClass(old(a[j]), c, Attr(old(a[j]), name) == target)
      invariant forall j :: i <= j < a.Length ==> a[j] == old(a[j])
    {
      a[i] := WithClass(a[i], c, Attr(a[i], name) == target);
    }
  }

  /** How many flags are set. */
  function CountTrue(s: seq<bool>): nat
  {
    if |s| == 0 then 0 else (if s[0] then 1 else 0) + CountTrue(s[1..])
  }

  /** When exactly the flag at `k` is set, one flag is set. */
  lemma {:induction false} CountOnly(s: seq<bool>, k: nat)
    requires k < |s|
    requires forall j :: 0 <= j < |s| ==> s[j] == (j == k)
    ensures CountTrue(s) == 1
  {
    if k == 0 {
      CountNone(s[1..]);
    } else {
      CountOnly(s[1..], k - 1);
    }
  }

  /** When no flag is set, none is counted. */
  lemma {:induction false} CountNone(s: seq<bool>)
    requires forall j :: 0 <= j < |s| ==> !s[j]
    ensures CountTrue(s) == 0
  {
    if |s| > 0 {
      CountNone(s[1..]);
    }
  }

  /** After `SelectOnly(a, c, k)` exactly one element of the group carries `c`. */
  lemma {:induction false} SelectOnlyLeavesOne(before: seq<Element>, after: seq<Element>, c: string, k: nat)
    requires k < |before| == |after|
    requires forall j :: 0 <= j < |after| ==> after[j] == WithClass(before[j], c, j == k)
    ensures CountTrue(ClassFlags(after, c)) == 1
  {
    CountOnly(ClassFlags(after, c), k);
  }
}
