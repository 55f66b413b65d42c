/** The list and paragraph steps of the chat page's markdown formatter: lines "- item"
    become list items, runs of items are wrapped in one list, and the text is cut into
    blocks at blank lines, each block either kept (lists, code, rules) or made a paragraph. */
module ChatMarkdown {
  import opened Text

  /** The length of the first line of `s`: the characters before the first line terminator. */
  function LineLength(s: string): (n: nat)
    ensures n <= |s|
    ensures forall i :: 0 <= i < n ==> !IsLineTerminator(s[i])
    ensures n < |s| ==> IsLineTerminator(s[n])
    decreases |s|
  {
    if |s| == 0 || IsLineTerminator(s[0]) then 0
    else
      var n := LineLength(s[1..]);
      assert forall i :: 1 <= i < n + 1 ==> s[i] == s[1..][i - 1];
      1 + n
  }

  /** The first line of a text that has one, followed by a line terminator, is exactly as
      long as it is. */
  lemma {:induction false} LineLengthOf(line: string, rest: string)
    requires forall i :: 0 <= i < |line| ==> !IsLineTerminator(line[i])
    requires rest == [] || IsLineTerminator(rest[0])
    ensures LineLength(line + rest) == |line|
    decreases |line|
  {
    if |line| > 0 {
      assert (line + rest)[1..] == line[1..] + rest;
      LineLengthOf(line[1..], rest);
    } else {
      assert line + rest == rest;
    }
  }

  /** The first step on one line: `^- (.+)$` turns "- text" into "<li>text</li>". */
  function ListLine(line: string): (r: string)
    ensures r != line <==> |line| >= 3 && line[0] == '-' && line[1] == ' '
  {
    if |line| >= 3 && line[0] == '-' && line[1] == ' ' then "<li>" + line[2..] + "</li>" else line
  }

  /** The first step on the whole text, line by line, keeping every line terminator. */
  function ListStep(s: string): (r: string)
    decreases |s|
  {
    var n := LineLength(s);
    if n == |s| then ListLine(s) else ListLine(s[..n]) + [s[n]] + ListStep(s[n + 1..])
  }

  predicate NoLineTerminator(s: string)
  {
    forall i :: 0 <= i < |s| ==> !IsLineTerminator(s[i])
  }

  /** The text made of the lines `lines` with the line terminators `ends` between them. */
  function Assemble(lines: seq<string>, ends: string): string
    requires |lines| == |ends| + 1
  {
    if |ends| == 0 then lines[0] else lines[0] + [ends[0]] + Assemble(lines[1..], ends[1..])
  }

  /** Every line given to `ListLine`. */
  function ListLines(lines: seq<string>): (r: seq<string>)
    ensures |r| == |lines| && forall k :: 0 <= k < |r| ==> r[k] == ListLine(lines[k])
  {
    seq(|lines|, k requires 0 <= k < |lines| => ListLine(lines[k]))
  }

  /** The first step rewrites each line by `ListLine` and keeps every line terminator. */
  lemma {:induction false} ListStepByLine(lines: seq<string>, ends: string)
    requires |lines| == |ends| + 1
    requires forall k :: 0 <= k < |lines| ==> NoLineTerminator(lines[k])
    requires forall k :: 0 <= k < |ends| ==> IsLineTerminator(ends[k])
    ensures ListStep(Assemble(lines, ends)) == Assemble(ListLines(lines), ends)
    decreases |ends|
  {
    var s := Assemble(lines, ends);
    var n := |lines[0]|;
    if |ends| == 0 {
      LineLengthOf(lines[0], []);
      assert lines[0] + [] == lines[0];
      assert s[..n] == s;
    } else {
      var rest := Assemble(lines[1..], ends[1..]);
      assert s == lines[0] + ([ends[0]] + rest);
      LineLengthOf(lines[0], [ends[0]] + rest);
      assert s[..n] == lines[0];
      assert s[n] == ends[0];
      assert s[n + 1..] == rest;
      ListStepByLine(lines[1..], ends[1..]);
      assert ListLines(lines)[1..] == ListLines(lines[1..]);
    }
  }

  /** Turning items into list items keeps a line free of line terminators. */
  lemma {:induction false} ListLineKeepsLine(line: string)
    requires NoLineTerminator(line)
    ensures NoLineTerminator(ListLine(line))
  {
    var r := ListLine(line);
    if r != line {
      forall i | 0 <= i < |r| ensures !IsLineTerminator(r[i]) {
        if i < 4 {
        } else if i < 4 + |line| - 2 {
          assert r[i] == line[i - 2];
        } else {
        }
      }
    }
  }

  /** A line is changed at most once: a list item does not start with "- ". */
  lemma {:induction false} ListLineIdempotent(line: string)
    ensures ListLine(ListLine(line)) == ListLine(line)
  {
    var r := ListLine(line);
    if r != line {
      assert r[0] == '<';
    }
  }

  /** The first step is idempotent: applying it twice changes nothing more. */
  lemma {:induction false} ListStepIdempotent(s: string)
    ensures ListStep(ListStep(s)) == ListStep(s)
    decreases |s|
  {
    var n := LineLength(s);
    var line := ListLine(s[..n]);
    ListLineKeepsLine(s[..n]);
    ListLineIdempotent(s[..n]);
    if n == |s| {
      assert s[..n] == s;
      LineLengthOf(line, []);
      assert line + [] == line;
    } else {
      var rest := ListStep(s[n + 1..]);
      var t := line + [s[n]] + rest;
      LineLengthOf(line, [s[n]] + rest);
      assert t == line + ([s[n]] + rest);
      assert t[..|line|] == line;
      assert t[|line|] == s[n];
      assert t[|line| + 1..] == rest;
      ListStepIdempotent(s[n + 1..]);
    }
  }

  /** "</li>" starts at `q` in `s`. */
  predicate CloseAt(s: string, q: nat)
  {
    q + 5 <= |s| && s[q..q + 5] == "</li>"
  }

  /** The last "</li>" lying wholly within `s[lo..hi]`. */
  function LastClose(s: string, lo: nat, hi: nat): (q: Option<nat>)
    requires hi <= |s|
    ensures q.Some? ==> lo <= q.value && q.value + 5 <= hi && CloseAt(s, q.value)
    ensures q.Some? ==> forall r :: q.value < r && r + 5 <= hi ==> !CloseAt(s, r)
    ensures q.None? ==> forall r :: lo <= r && r + 5 <= hi ==> !CloseAt(s, r)
    decreases hi
  {
    if hi < lo + 5 then None
    else if CloseAt(s, hi - 5) then Some(hi - 5)
    else LastClose(s, lo, hi - 1)
  }

  datatype Option<T> = None | Some(value: T)

  /** Where the line that goes on at `lo` ends: at its line terminator, or at the end. */
  function LineEnd(s: string, lo: nat): (e: nat)
    requires lo <= |s|
    ensures lo <= e <= |s|
  {
    lo + LineLength(s[lo..])
  }

  /** For the item opened by the "<li>" at `p`: a "</li>" starts at `q`, after the "<li>"
      and within the same line, and no later one does. */
  predicate IsLastClose(s: string, p: nat, q: nat)
    requires p + 4 <= |s|
  {
    && p + 4 <= q && q + 5 <= LineEnd(s, p + 4) && CloseAt(s, q)
    && forall r :: q < r && r + 5 <= LineEnd(s, p + 4) ==> !CloseAt(s, r)
  }

  /** Where one repetition of `<li>.*<\/li>\n?` that starts at `p` ends, if one does: the
      greedy `.*` reaches the last "</li>" of the line, and a following newline is taken. */
  function ItemAt(s: string, p: nat): (e: Option<nat>)
    ensures e.Some? ==> p + 9 <= e.value <= |s|
    ensures e.Some? ==> "<li>" <= s[p..]
    ensures e.Some? ==> CloseAt(s, e.value - 5) || (s[e.value - 1] == '\n' && CloseAt(s, e.value - 6))
  {
    if p + 4 <= |s| && s[p..p + 4] == "<li>" then
      var lineEnd := p + 4 + LineLength(s[p + 4..]);
      match LastClose(s, p + 4, lineEnd)
      case None => None
      case Some(q) =>
        assert s[p..][..4] == s[p..p + 4];
        if q + 5 < |s| && s[q + 5] == '\n' then Some(q + 6) else Some(q + 5)
    else None
  }

  /** An item is found at `p` exactly when "<li>" starts there and a "</li>" lies in the
      rest of that line; it then ends after the last such "</li>", and after the newline
      that follows it, if one does. */
  lemma {:induction false} ItemAtExact(s: string, p: nat)
    ensures (p + 4 <= |s| && s[p..p + 4] == "<li>" &&
             exists q :: p + 4 <= q && q + 5 <= LineEnd(s, p + 4) && CloseAt(s, q)) ==> ItemAt(s, p).Some?
    ensures ItemAt(s, p).Some? ==>
      && p + 4 <= |s| && s[p..p + 4] == "<li>"
      && exists q: nat :: IsLastClose(s, p, q) && ItemAt(s, p).value == q + 5 + (if q + 5 < |s| && s[q + 5] == '\n' then 1 else 0)
  {
    if p + 4 <= |s| && s[p..p + 4] == "<li>" {
      match LastClose(s, p + 4, LineEnd(s, p + 4))
      case None =>
      case Some(q) =>
        assert IsLastClose(s, p, q);
    }
  }

  /** The end of the greedy `(...)+` run of items that starts at `p`. */
  function RunEnd(s: string, p: nat): (e: nat)
    requires ItemAt(s, p).Some?
    ensures p + 9 <= e <= |s|
    ensures ItemAt(s, e).None?
    decreases |s| - p
  {
    var e := ItemAt(s, p).value;
    if ItemAt(s, e).Some? then RunEnd(s, e) else e
  }

  /** The second step seen as pieces of its input: characters left alone, and maximal runs
      of items that get wrapped. */
  datatype Piece = Kept(c: char) | Wrapped(run: string)

  /** The pieces of `s[p..]`, as the global replace finds them from left to right. */
  function Pieces(s: string, p: nat): (r: seq<Piece>)
    requires p <= |s|
    ensures forall k :: 0 <= k < |r| && r[k].Wrapped? ==> "<li>" <= r[k].run && |r[k].run| >= 9
    decreases |s| - p
  {
    if p == |s| then []
    else match ItemAt(s, p)
      case Some(_) =>
        var e := RunEnd(s, p);
        assert s[p..e][..4] == s[p..p + 4] == s[p..][..4];
        [Wrapped(s[p..e])] + Pieces(s, e)
      case None => [Kept(s[p])] + Pieces(s, p + 1)
  }

  /** Where an item starts, the next piece is the whole run of items, wrapped; anywhere
      else it is the one character, kept. */
  lemma {:induction false} PiecesHead(s: string, p: nat)
    requires p < |s|
    ensures |Pieces(s, p)| > 0
    ensures ItemAt(s, p).Some? ==> Pieces(s, p)[0] == Wrapped(s[p..RunEnd(s, p)])
    ensures ItemAt(s, p).None? ==> Pieces(s, p)[0] == Kept(s[p])
  {
  }

  /** The text the pieces came from. */
  function Source(r: seq<Piece>): string
  {
    if |r| == 0 then ""
    else (match r[0] case Kept(c) => [c] case Wrapped(run) => run) + Source(r[1..])
  }

  /** The text the pieces become: each run is put inside "<ul>" and "</ul>". */
  function Render(r: seq<Piece>): string
  {
    if |r| == 0 then ""
    else (match r[0] case Kept(c) => [c] case Wrapped(run) => "<ul>" + run + "</ul>") + Render(r[1..])
  }

  /** The second step: `replace(/((?:<li>.*<\/li>\n?)+)/g, '<ul>$1</ul>')`. */
  function WrapLists(s: string): string
  {
    Render(Pieces(s, 0))
  }

  /** The second step only inserts: its pieces put back together give the input. */
  lemma {:induction false} PiecesCoverText(s: string, p: nat)
    requires p <= |s|
    ensures Source(Pieces(s, p)) == s[p..]
    decreases |s| - p
  {
    if p < |s| {
      match ItemAt(s, p)
      case Some(_) =>
        var e := RunEnd(s, p);
        PiecesCoverText(s, e);
        assert s[p..] == s[p..e] + s[e..];
        assert Pieces(s, p)[1..] == Pieces(s, e);
      case None =>
        PiecesCoverText(s, p + 1);
        assert s[p..] == [s[p]] + s[p + 1..];
        assert Pieces(s, p)[1..] == Pieces(s, p + 1);
    }
  }

  /** A text that starts with an item starts, after the second step, with the whole run of
      items that follows it inside "<ul>" and "</ul>". */
  lemma {:induction false} WrapListsWrapsRun(s: string)
    requires ItemAt(s, 0).Some?
    ensures WrapLists(s) == "<ul>" + s[..RunEnd(s, 0)] + "</ul>" + Render(Pieces(s, RunEnd(s, 0)))
  {
    var r := Pieces(s, 0);
    PiecesHead(s, 0);
    assert r[1..] == Pieces(s, RunEnd(s, 0));
  }

  /** A text with no "<li>" in it has no run to wrap, so the second step leaves it alone. */
  lemma {:induction false} WrapListsWithoutItems(s: string, p: nat)
    requires p <= |s|
    requires forall i :: p <= i <= |s| ==> !("<li>" <= s[i..])
    ensures Render(Pieces(s, p)) == s[p..]
    decreases |s| - p
  {
    if p < |s| {
      assert ItemAt(s, p).None?;
      WrapListsWithoutItems(s, p + 1);
      assert s[p..] == [s[p]] + s[p + 1..];
      assert Pieces(s, p)[1..] == Pieces(s, p + 1);
    }
  }

  /** A run of two or more newlines starts at position 0 of `s`. */
  predicate BreakAt(s: string)
  {
    |s| >= 2 && s[0] == '\n' && s[1] == '\n'
  }

  /** `s` without its leading newlines. */
  function DropNewlines(s: string): (r: string)
    ensures |r| <= |s| && r == s[|s| - |r|..]
    ensures r == [] || r[0] != '\n'
    ensures |s| > 0 && s[0] == '\n' ==> |r| < |s|
    ensures forall i :: 0 <= i < |s| - |r| ==> s[i] == '\n'
    decreases |s|
  {
    if |s| > 0 && s[0] == '\n' then
      var r := DropNewlines(s[1..]);
      assert forall i :: 1 <= i < |s| - |r| ==> s[i] == s[1..][i - 1];
      r
    else s
  }

  /** No two newlines in a row. */
  predicate NoBlankLine(b: string)
  {
    forall i :: 0 <= i < |b| - 1 ==> !(b[i] == '\n' && b[i + 1] == '\n')
  }

  /** `split(/\n\n+/)`: the blocks between the maximal runs of two or more newlines. */
  function SplitBlocks(s: string): (r: seq<string>)
    ensures |r| >= 1
    ensures forall k :: 0 <= k < |r| ==> NoBlankLine(r[k])
    ensures |s| > 0 && !BreakAt(s) ==> |r[0]| > 0 && r[0][0] == s[0]
    decreases |s|
  {
    if |s| == 0 then [""]
    else if BreakAt(s) then [""] + SplitBlocks(DropNewlines(s))
    else
      var rest := SplitBlocks(s[1..]);
      var first := [s[0]] + rest[0];
      assert NoBlankLine(first) by {
        forall i | 0 <= i < |first| - 1 ensures !(first[i] == '\n' && first[i + 1] == '\n') {
          if i == 0 {
            if s[0] == '\n' && |s| >= 2 { assert first[1] == s[1]; }
          } else {
            assert first[i] == rest[0][i - 1] && first[i + 1] == rest[0][i];
          }
        }
      }
      [first] + rest[1..]
  }

  /** `s` with every run of two or more newlines shortened to exactly two. */
  function CollapseBreaks(s: string): (r: string)
    decreases |s|
  {
    if |s| == 0 then ""
    else if BreakAt(s) then "\n\n" + CollapseBreaks(DropNewlines(s))
    else [s[0]] + CollapseBreaks(s[1..])
  }

  /** Joining the blocks with a blank line gives the text back, except that every longer
      run of newlines has become a single blank line. */
  lemma {:induction false} SplitBlocksJoin(s: string)
    ensures Join(SplitBlocks(s), "\n\n") == CollapseBreaks(s)
    decreases |s|
  {
    if |s| == 0 {
    } else if BreakAt(s) {
      var rest := SplitBlocks(DropNewlines(s));
      SplitBlocksJoin(DropNewlines(s));
      assert ([""] + rest)[1..] == rest;
      assert Join([""] + rest, "\n\n") == "" + "\n\n" + Join(rest, "\n\n");
    } else {
      var rest := SplitBlocks(s[1..]);
      SplitBlocksJoin(s[1..]);
      var r := [[s[0]] + rest[0]] + rest[1..];
      if |rest| == 1 {
        assert Join(rest, "\n\n") == rest[0];
      } else {
        assert r[1..] == rest[1..];
        assert Join(rest, "\n\n") == rest[0] + "\n\n" + Join(rest[1..], "\n\n");
      }
    }
  }

  /** `replace(/\n/g, '<br>')`: the lines of the text joined by "<br>". */
  function BreakLines(s: string): (r: string)
    ensures '\n' !in r
    ensures s == [] <==> r == []
    ensures r == Join(Split(s, '\n'), "<br>")
    decreases |s|
  {
    if |s| == 0 then ""
    else
      var rest := BreakLines(s[1..]);
      var parts := Split(s[1..], '\n');
      if s[0] == '\n' then
        assert ([""] + parts)[1..] == parts;
        "<br>" + rest
      else
        var lines := [[s[0]] + parts[0]] + parts[1..];
        assert lines[1..] == parts[1..];
        assert |parts| > 1 ==> Join(parts, "<br>") == parts[0] + "<br>" + Join(parts[1..], "<br>");
        [s[0]] + rest
  }

  /** The blocks kept as they are: lists, code, and horizontal rules. */
  predicate IsKeptBlock(t: string)
  {
    "<ul>" <= t || "<pre>" <= t || "<div class=\"code-block" <= t || "<hr" <= t
  }

  /** A paragraph: "<p>", the block's lines joined by "<br>", "</p>". */
  function Paragraph(t: string): (r: string)
    ensures r == "<p>" + Join(Split(t, '\n'), "<br>") + "</p>"
    ensures |r| >= 7 && r[..3] == "<p>" && r[|r| - 4..] == "</p>"
    ensures '\n' !in r
  {
    var b := BreakLines(t);
    var r := "<p>" + b + "</p>";
    assert forall i :: 0 <= i < |r| ==> r[i] != '\n' by {
      forall i | 0 <= i < |r| ensures r[i] != '\n' {
        if 3 <= i < 3 + |b| { assert r[i] == b[i - 3]; }
      }
    }
    r
  }

  /** One block of the paragraph step: trimmed, then kept or made a paragraph. */
  function FormatBlock(block: string): (r: string)
    ensures IsKeptBlock(Trim(block)) ==> r == Trim(block)
    ensures !IsKeptBlock(Trim(block)) ==> r == Paragraph(Trim(block))
  {
    var t := Trim(block);
    if IsKeptBlock(t) then t else Paragraph(t)
  }

  function FormatBlocks(blocks: seq<string>): (r: seq<string>)
    ensures |r| == |blocks|
    ensures forall k :: 0 <= k < |r| ==> r[k] == FormatBlock(blocks[k])
  {
    if |blocks| == 0 then [] else [FormatBlock(blocks[0])] + FormatBlocks(blocks[1..])
  }

  /** The paragraph step: `split(/\n\n+/).map(...).join('\n')`. */
  function Paragraphs(s: string): string
  {
    Join(FormatBlocks(SplitBlocks(s)), "\n")
  }

  /** When no block is kept, every block becomes exactly one line of the output. */
  lemma {:induction false} ParagraphsAreLines(s: string)
    requires forall k :: 0 <= k < |SplitBlocks(s)| ==> !IsKeptBlock(Trim(SplitBlocks(s)[k]))
    ensures Split(Paragraphs(s), '\n') == FormatBlocks(SplitBlocks(s))
  {
    var blocks := SplitBlocks(s);
    var ps := FormatBlocks(blocks);
    forall k | 0 <= k < |ps| ensures '\n' !in ps[k] {
      assert ps[k] == Paragraph(Trim(blocks[k]));
    }
    SplitJoin(ps, '\n');
  }

}
