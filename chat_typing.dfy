/** The typing effect of the chat page: the reply's text nodes are emptied, then revealed
    one or two characters per tick, node after node, until every node shows its full text. */
module ChatTyping {

  /** `getSpeed(char)`: how many characters one tick reveals, two for a space or a newline
      and one for any other character (and for no character at all). */
  function Speed(c: char): (n: nat)
    ensures 1 <= n <= 2
    ensures n == 2 <==> c == ' ' || c == '\n'
  {
    if c == ' ' || c == '\n' then 2 else 1
  }

  /** The speed for the character at `k` of `full`; past the end there is no character. */
  function SpeedAt(full: string, k: nat): (n: nat)
    ensures 1 <= n <= 2
  {
    if k < |full| then Speed(full[k]) else 1
  }

  /** Where one tick stops in a node whose text is `full`, from position `k`. */
  function TickEnd(full: string, k: nat): (e: nat)
    requires k <= |full|
    ensures k <= e <= |full|
    ensures e == |full| || e == k + SpeedAt(full, k)
    ensures k < |full| ==> k < e
  {
    if k + SpeedAt(full, k) < |full| then k + SpeedAt(full, k) else |full|
  }

  /** How many ticks type a node whose text is `full`, from position `k` to its end. */
  function TicksToFinish(full: string, k: nat): nat
    requires k <= |full|
    decreases |full| - k
  {
    var e := TickEnd(full, k);
    if e == |full| then 1 else 1 + TicksToFinish(full, e)
  }

  /** A node takes at most one tick per character left (one tick when none is left), and
      at least one tick per two characters left. */
  lemma {:induction false} TicksBounds(full: string, k: nat)
    requires k <= |full|
    ensures TicksToFinish(full, k) <= if k == |full| then 1 else |full| - k
    ensures 2 * TicksToFinish(full, k) >= |full| - k
    decreases |full| - k
  {
    var e := TickEnd(full, k);
    if e < |full| {
      TicksBounds(full, e);
    }
  }

  /** `for (let i = from; i < a.length; i++) a[i] = v`. */
  method Fill(a: array<string>, from: nat, v: string)
    requires from <= a.Length
    modifies a
    ensures forall i :: 0 <= i < a.Length ==> a[i] == if i < from then old(a[i]) else v
  {
    for i := from to a.Length
      invariant forall j :: 0 <= j < a.Length ==> a[j] == if j < from || j >= i then old(a[j]) else v
    {
      a[i] := v;
    }
  }

  /** `for (let i = from; i < a.length; i++) a[i] = texts[i]`. */
  method Restore(a: array<string>, texts: seq<string>, from: nat)
    requires from <= a.Length == |texts|
    modifies a
    ensures forall i :: 0 <= i < a.Length ==> a[i] == if i < from then old(a[i]) else texts[i]
  {
    for i := from to a.Length
      invariant forall j :: 0 <= j < a.Length ==> a[j] == if j < from || j >= i then old(a[j]) else texts[j]
    {
      a[i] := texts[i];
    }
  }

  class Typewriter {
    /** The full text of each text node, read before the nodes are emptied. */
    const allText: seq<string>
    /** The text nodes of the reply element, as their current text. */
    const textNodes: array<string>
    var nodeIdx: nat
    var nodeCharIdx: nat
    /** The completion callback has run. */
    var done: bool

    /** The nodes before the cursor show their full text, the node at the cursor shows a
        prefix of it, the nodes after it show nothing; once done, every node is full. */
    ghost predicate Valid()
      reads this, textNodes
    {
      && textNodes.Length == |allText|
      && nodeIdx <= |allText|
      && (nodeIdx < |allText| ==> nodeCharIdx <= |allText[nodeIdx]|)
      && (nodeIdx == |allText| ==> nodeCharIdx == 0)
      && (forall i :: 0 <= i < nodeIdx ==> textNodes[i] == allText[i])
      && (!done && nodeIdx < |allText| ==> textNodes[nodeIdx] == allText[nodeIdx][..nodeCharIdx])
      && (!done ==> forall i :: nodeIdx < i < |allText| ==> textNodes[i] == "")
      && (done ==> forall i :: 0 <= i < |allText| ==> textNodes[i] == allText[i])
    }

    /** Characters left to reveal in the node at the cursor. */
    function CharsLeft(): nat
      reads this
    {
      if nodeIdx < |allText| && nodeCharIdx <= |allText[nodeIdx]| then |allText[nodeIdx]| - nodeCharIdx else 0
    }

    /** The start of `typeText`: the full texts are recorded and every node is emptied. */
    constructor (nodes: array<string>)
      modifies nodes
      ensures allText == old(nodes[..]) && textNodes == nodes
      ensures nodeIdx == 0 && nodeCharIdx == 0 && !done
      ensures forall i :: 0 <= i < nodes.Length ==> nodes[i] == ""
      ensures Valid()
    {
      allText := nodes[..];
      textNodes := nodes;
      nodeIdx := 0;
      nodeCharIdx := 0;
      done := false;
      Fill(nodes, 0, "");
    }

    /** One `tick()`, with `abort` the value of the abort flag at that moment. On abort
        every node gets its full text and typing completes; past the last node typing
        completes; otherwise the node at the cursor shows one tick more of its text, and
        the cursor moves to the next node once that node is full. */
    method Tick(abort: bool)
      requires Valid() && !done
      modifies this, textNodes
      ensures Valid()
      ensures abort ==>
        && done && nodeIdx == old(nodeIdx) && nodeCharIdx == old(nodeCharIdx)
        && forall i :: 0 <= i < |allText| ==> textNodes[i] == allText[i]
      ensures !abort && old(nodeIdx) == |allText| ==>
        done && nodeIdx == old(nodeIdx) && textNodes[..] == old(textNodes[..])
      ensures !abort && old(nodeIdx) < |allText| ==>
        var full := allText[old(nodeIdx)];
        var end := TickEnd(full, old(nodeCharIdx));
        && !done
        && textNodes[..] == old(textNodes[..])[old(nodeIdx) := full[..end]]
        && (end == |full| ==> nodeIdx == old(nodeIdx) + 1 && nodeCharIdx == 0)
        && (end < |full| ==> nodeIdx == old(nodeIdx) && nodeCharIdx == end)
    {
      if abort {
        Restore(textNodes, allText, nodeIdx);
        done := true;
        return;
      }
      if nodeIdx >= textNodes.Length {
        done := true;
        return;
      }
      var full := allText[nodeIdx];
      var end := TickEnd(full, nodeCharIdx);
      textNodes[nodeIdx] := full[..end];
      nodeCharIdx := end;
      if nodeCharIdx >= |full| {
        nodeIdx := nodeIdx + 1;
        nodeCharIdx := 0;
      }
    }

    /** Ticks until the completion callback runs, the abort flag staying clear. The cursor
        moves forward at every tick, so typing ends, and it ends with every node showing its
        full text. */
    method Run()
      requires Valid()
      modifies this, textNodes
      ensures Valid() && done
      ensures forall i :: 0 <= i < |allText| ==> textNodes[i] == allText[i]
    {
      while !done
        invariant Valid()
        decreases if done then 0 else 1, |allText| - nodeIdx, CharsLeft()
      {
        Tick(false);
      }
    }
  }
}
