/** The hand-written comment wrapper `formatComment` of format/golang.py,
    format_golang.py and fetch_types.py (the three copies are identical): every
    line of the text becomes a `//` comment line, and lines longer than the
    width are cut before their last whitespace within the width. */
module Comments {
  import opened Text

  /** The width every caller uses. */
  const DefaultWidth: nat := 95

  /** `" " * offset + "// "` */
  function Prefix(offset: nat): string {
    Repeat(" ", offset) + "// "
  }

  /** The inner loop: walking down from `from`, the first index holding
      whitespace, or -1 when there is none. */
  function LastSpaceFrom(line: string, from: int): (k: int)
    requires -1 <= from < |line|
    ensures -1 <= k <= from
    ensures k >= 0 ==> IsSpace(line[k])
    ensures forall j :: k < j <= from ==> !IsSpace(line[j])
    decreases from + 1
  {
    if from < 0 || IsSpace(line[from]) then from else LastSpaceFrom(line, from - 1)
  }

  /** Where a long line is cut: its last whitespace at or before the width, or,
      when there is none, Python's index -1, that is before the final character. */
  function CutIndex(line: string, maxWidth: nat): (cut: nat)
    requires maxWidth < |line|
    ensures cut < |line|
  {
    var splitAt := LastSpaceFrom(line, maxWidth);
    if splitAt >= 0 then splitAt else |line| - 1
  }

  /** The stripped pieces before and after the cut. With a width of at least 1
      the remainder is strictly shorter than the line, which is what makes the
      outer loop terminate. */
  function Cut(line: string, maxWidth: nat): (pieces: (string, string))
    requires maxWidth < |line|
    ensures maxWidth >= 1 ==> |pieces.1| < |line|
  {
    var cut := CutIndex(line, maxWidth);
    (Strip(line[..cut]), Strip(line[cut..]))
  }

  /** The output lines one input line gives. */
  function WrapLine(line: string, maxWidth: nat): (out: seq<string>)
    requires maxWidth >= 1
    ensures |out| >= 1
    decreases |line|
  {
    if |line| <= maxWidth then [line]
    else
      var pieces := Cut(line, maxWidth);
      [pieces.0] + WrapLine(pieces.1, maxWidth)
  }

  function WrapLines(lines: seq<string>, maxWidth: nat): (out: seq<string>)
    requires maxWidth >= 1
    ensures |lines| >= 1 ==> |out| >= 1
  {
    if lines == [] then [] else WrapLine(lines[0], maxWidth) + WrapLines(lines[1..], maxWidth)
  }

  /** The comment lines of `formatComment(comment, offset, maxWidth)`, without
      their prefix. */
  function CommentLines(comment: string, maxWidth: nat): seq<string>
    requires maxWidth >= 1
  {
    WrapLines(Split(comment, "\n"), maxWidth)
  }

  /** The value of `formatComment(comment, offset, maxWidth)`. */
  function CommentText(comment: string, offset: nat, maxWidth: nat): string
    requires maxWidth >= 1
  {
    Prefix(offset) + Join(CommentLines(comment, maxWidth), "\n" + Prefix(offset))
  }

  /** `list(reversed(s))` */
  function Reverse<T>(s: seq<T>): (r: seq<T>)
    ensures |r| == |s|
  {
    if s == [] then [] else Reverse(s[1..]) + [s[0]]
  }

  /** What the lines still on the stack will give; the top of the stack is its
      last element, as with Python's `list.pop()`. */
  function WrapStack(stack: seq<string>, maxWidth: nat): seq<string>
    requires maxWidth >= 1
  {
    if stack == [] then []
    else WrapLine(stack[|stack| - 1], maxWidth) + WrapStack(stack[..|stack| - 1], maxWidth)
  }

  /** The termination measure of the outer loop. */
  function Weight(stack: seq<string>): nat {
    if stack == [] then 0 else |stack[|stack| - 1]| + 1 + Weight(stack[..|stack| - 1])
  }

  lemma {:induction false} WrapStackReverse(lines: seq<string>, maxWidth: nat)
    requires maxWidth >= 1
    ensures WrapStack(Reverse(lines), maxWidth) == WrapLines(lines, maxWidth)
    decreases |lines|
  {
    if lines != [] {
      var r := Reverse(lines);
      assert r[|r| - 1] == lines[0];
      assert r[..|r| - 1] == Reverse(lines[1..]);
      WrapStackReverse(lines[1..], maxWidth);
    }
  }

  lemma WeightPop(stack: seq<string>)
    requires stack != []
    ensures Weight(stack[..|stack| - 1]) < Weight(stack)
  {
  }

  lemma WeightPush(stack: seq<string>, x: string)
    requires stack != [] && |x| < |stack[|stack| - 1]|
    ensures Weight(stack[..|stack| - 1] + [x]) < Weight(stack)
  {
    var rest := stack[..|stack| - 1];
    assert (rest + [x])[..|rest + [x]| - 1] == rest;
  }

  /** Popping a short line off the stack moves it to the output. */
  lemma ShortLineStep(done: seq<string>, stack: seq<string>, maxWidth: nat, target: seq<string>)
    requires maxWidth >= 1 && stack != [] && |stack[|stack| - 1]| <= maxWidth
    requires done + WrapStack(stack, maxWidth) == target
    ensures (done + [stack[|stack| - 1]]) + WrapStack(stack[..|stack| - 1], maxWidth) == target
  {
    var line, rest := stack[|stack| - 1], stack[..|stack| - 1];
    assert WrapStack(stack, maxWidth) == [line] + WrapStack(rest, maxWidth);
    Regroup3(done, [line], WrapStack(rest, maxWidth));
  }

  lemma WrapStackPush(rest: seq<string>, x: string, maxWidth: nat)
    requires maxWidth >= 1
    ensures WrapStack(rest + [x], maxWidth) == WrapLine(x, maxWidth) + WrapStack(rest, maxWidth)
  {
    assert (rest + [x])[..|rest + [x]| - 1] == rest;
  }

  lemma WrapStackPopLong(stack: seq<string>, maxWidth: nat)
    requires maxWidth >= 1 && stack != [] && |stack[|stack| - 1]| > maxWidth
    ensures var pieces := Cut(stack[|stack| - 1], maxWidth);
      WrapStack(stack, maxWidth)
      == [pieces.0] + WrapLine(pieces.1, maxWidth) + WrapStack(stack[..|stack| - 1], maxWidth)
  {
  }

  /** Popping a long line moves its first piece to the output and pushes the
      rest back onto the stack. */
  lemma LongLineStep(done: seq<string>, stack: seq<string>, maxWidth: nat, target: seq<string>)
    requires maxWidth >= 1 && stack != [] && |stack[|stack| - 1]| > maxWidth
    requires done + WrapStack(stack, maxWidth) == target
    ensures var pieces := Cut(stack[|stack| - 1], maxWidth);
      (done + [pieces.0]) + WrapStack(stack[..|stack| - 1] + [pieces.1], maxWidth) == target
  {
    var rest := stack[..|stack| - 1];
    var pieces := Cut(stack[|stack| - 1], maxWidth);
    WrapStackPush(rest, pieces.1, maxWidth);
    WrapStackPopLong(stack, maxWidth);
    Regroup(done, [pieces.0], WrapLine(pieces.1, maxWidth), WrapStack(rest, maxWidth));
    Regroup3(done, [pieces.0] + WrapLine(pieces.1, maxWidth), WrapStack(rest, maxWidth));
  }

  lemma Regroup<T>(a: seq<T>, b: seq<T>, c: seq<T>, d: seq<T>)
    ensures (a + b) + (c + d) == a + (b + c) + d
  {
  }

  /** `formatComment`: pops lines off a stack, keeps short ones, and pushes
      back what follows the cut of a long one. */
  method FormatComment(comment: string, offset: nat, maxWidth: nat) returns (r: string)
    requires maxWidth >= 1
    ensures r == CommentText(comment, offset, maxWidth)
  {
    var prefix := Repeat(" ", offset) + "// ";
    var currentLines := Reverse(Split(comment, "\n"));
    var commentLines: seq<string> := [];
    WrapStackReverse(Split(comment, "\n"), maxWidth);
    assert commentLines + WrapStack(currentLines, maxWidth) == WrapStack(currentLines, maxWidth);
    while currentLines != []
      invariant commentLines + WrapStack(currentLines, maxWidth) == CommentLines(comment, maxWidth)
      decreases Weight(currentLines)
    {
      var line := currentLines[|currentLines| - 1];
      if |line| <= maxWidth {
        ShortLineStep(commentLines, currentLines, maxWidth, CommentLines(comment, maxWidth));
        WeightPop(currentLines);
        commentLines := commentLines + [line];
        currentLines := currentLines[..|currentLines| - 1];
      } else {
        var splitAt: int := maxWidth;
        while splitAt >= 0 && !IsSpace(line[splitAt])
          invariant -1 <= splitAt <= maxWidth
          invariant LastSpaceFrom(line, splitAt) == LastSpaceFrom(line, maxWidth)
          decreases splitAt + 1
        {
          splitAt := splitAt - 1;
        }
        var cut := if splitAt >= 0 then splitAt else |line| - 1;
        assert cut == CutIndex(line, maxWidth);
        LongLineStep(commentLines, currentLines, maxWidth, CommentLines(comment, maxWidth));
        WeightPush(currentLines, Cut(line, maxWidth).1);
        commentLines := commentLines + [Strip(line[..cut])];
        currentLines := currentLines[..|currentLines| - 1] + [Strip(line[cut..])];
      }
    }
    assert commentLines == CommentLines(comment, maxWidth);
    r := prefix + Join(commentLines, "\n" + prefix);
  }

  /** Lines no longer than the width come out verbatim: when every line is
      short, the comment lines are exactly the lines of the text. */
  lemma {:induction false} ShortLinesVerbatim(lines: seq<string>, maxWidth: nat)
    requires maxWidth >= 1
    requires forall k :: 0 <= k < |lines| ==> |lines[k]| <= maxWidth
    ensures WrapLines(lines, maxWidth) == lines
    decreases |lines|
  {
    if lines != [] {
      ShortLinesVerbatim(lines[1..], maxWidth);
      assert lines == [lines[0]] + lines[1..];
    }
  }

  /** A long line with whitespace within the width is cut at the last such
      whitespace, and the first piece fits the width. */
  lemma CutAtLastSpace(line: string, maxWidth: nat, k: nat)
    requires 1 <= maxWidth < |line|
    requires k <= maxWidth && IsSpace(line[k])
    requires forall j :: k < j <= maxWidth ==> !IsSpace(line[j])
    ensures WrapLine(line, maxWidth)[0] == Strip(line[..k])
    ensures |WrapLine(line, maxWidth)[0]| <= maxWidth
    ensures WrapLine(line, maxWidth)[1..] == WrapLine(Strip(line[k..]), maxWidth)
  {
    var s := LastSpaceFrom(line, maxWidth);
    assert s == k;
  }

  lemma StripNoSpace(s: string)
    requires NoSpace(s)
    ensures Strip(s) == s
  {
    if s != [] {
      assert !IsSpace(s[0]);
      assert TrimLeft(s) == s;
      assert !IsSpace(s[|s| - 1]);
    }
  }

  /** A line without whitespace is cut before its final character. */
  lemma CutNoSpace(line: string, maxWidth: nat)
    requires maxWidth < |line|
    requires NoSpace(line)
    ensures Cut(line, maxWidth) == (line[..|line| - 1], [line[|line| - 1]])
  {
    assert LastSpaceFrom(line, maxWidth) == -1;
    var head, last := line[..|line| - 1], line[|line| - 1..];
    assert last == [line[|line| - 1]];
    StripNoSpace(head);
    StripNoSpace(last);
  }

  /** A word longer than the width is not kept whole: only its final character
      is moved to a line of its own. */
  lemma LongWordLosesLastChar(line: string, maxWidth: nat)
    requires 1 <= maxWidth < |line|
    requires NoSpace(line)
    ensures WrapLine(line, maxWidth) == [line[..|line| - 1], [line[|line| - 1]]]
  {
    CutNoSpace(line, maxWidth);
    var head, last: string := line[..|line| - 1], [line[|line| - 1]];
    assert WrapLine(last, maxWidth) == [last];
    assert WrapLine(line, maxWidth) == [head] + [last];
    PairConcat(head, last);
  }

  /** A long line with no whitespace within the width, but some after it, is
      also cut before its final character: the first piece is the stripped
      line without that character, which can be far wider than the width. */
  lemma LongFirstWord(line: string, maxWidth: nat)
    requires 1 <= maxWidth < |line|
    requires LastSpaceFrom(line, maxWidth) == -1
    ensures WrapLine(line, maxWidth)[0] == Strip(line[..|line| - 1])
    ensures WrapLine(line, maxWidth)[1..] == WrapLine(Strip([line[|line| - 1]]), maxWidth)
    ensures !IsSpace(line[|line| - 2]) ==> WrapLine(line, maxWidth)[0] == line[..|line| - 1]
  {
    var head := line[..|line| - 1];
    assert line[|line| - 1..] == [line[|line| - 1]];
    if !IsSpace(line[|line| - 2]) {
      assert !IsSpace(head[0]);
      StripKeepsEnds(head);
    }
  }

  /** A text that neither starts nor ends with whitespace is left alone by `strip`. */
  lemma StripKeepsEnds(s: string)
    requires s != [] && !IsSpace(s[0]) && !IsSpace(s[|s| - 1])
    ensures Strip(s) == s
  {
    assert TrimLeft(s) == s;
  }

  lemma PairConcat<T>(a: T, b: T)
    ensures [a] + [b] == [a, b]
  {
  }

  /** With a width of 0 the loop would not terminate: a one-character
      non-whitespace line is pushed back unchanged. */
  lemma ZeroWidthStalls(c: char)
    requires !IsSpace(c)
    ensures Cut([c], 0).1 == [c]
  {
    assert LastSpaceFrom([c], 0) == -1;
    assert [c][0..] == [c];
    StripNoSpace([c]);
  }

  function Flatten(xs: seq<string>): string {
    if xs == [] then "" else xs[0] + Flatten(xs[1..])
  }

  /** The two pieces of a cut hold all the text of the line, in order. */
  lemma CutKeepsText(line: string, maxWidth: nat)
    requires maxWidth < |line|
    ensures var pieces := Cut(line, maxWidth);
      RemoveSpaces(pieces.0) + RemoveSpaces(pieces.1) == RemoveSpaces(line)
  {
    var cut := CutIndex(line, maxWidth);
    var a, b := line[..cut], line[cut..];
    TakeDrop(line, cut);
    RemoveSpacesConcat(a, b);
    StripKeepsText(a);
    StripKeepsText(b);
  }

  /** Wrapping loses no text and does not reorder it: only whitespace at the
      cuts disappears. */
  lemma {:induction false} WrapKeepsText(line: string, maxWidth: nat)
    requires maxWidth >= 1
    ensures RemoveSpaces(Flatten(WrapLine(line, maxWidth))) == RemoveSpaces(line)
    decreases |line|
  {
    if |line| <= maxWidth {
      assert Flatten([line]) == line + "";
      assert line + "" == line;
    } else {
      var pieces := Cut(line, maxWidth);
      var rest := WrapLine(pieces.1, maxWidth);
      assert WrapLine(line, maxWidth) == [pieces.0] + rest;
      WrapKeepsText(pieces.1, maxWidth);
      assert ([pieces.0] + rest)[1..] == rest;
      assert Flatten([pieces.0] + rest) == pieces.0 + Flatten(rest);
      RemoveSpacesConcat(pieces.0, Flatten(rest));
      CutKeepsText(line, maxWidth);
    }
  }

  lemma StripSubset(s: string, c: char)
    requires c !in s
    ensures c !in Strip(s)
  {
    var l := TrimLeft(s);
    assert l == s[|s| - |l|..];
    assert TrimRight(l) == l[..|TrimRight(l)|];
  }

  lemma CutNoChar(line: string, maxWidth: nat, c: char)
    requires maxWidth < |line|
    requires c !in line
    ensures c !in Cut(line, maxWidth).0 && c !in Cut(line, maxWidth).1
  {
    var cut := CutIndex(line, maxWidth);
    assert c !in line[..cut] && c !in line[cut..] by {
      assert line == line[..cut] + line[cut..];
    }
    StripSubset(line[..cut], c);
    StripSubset(line[cut..], c);
  }

  lemma {:induction false} WrapLineNoChar(line: string, maxWidth: nat, c: char)
    requires maxWidth >= 1
    requires c !in line
    ensures forall k :: 0 <= k < |WrapLine(line, maxWidth)| ==> c !in WrapLine(line, maxWidth)[k]
    decreases |line|
  {
    if |line| > maxWidth {
      var pieces := Cut(line, maxWidth);
      var rest := WrapLine(pieces.1, maxWidth);
      assert WrapLine(line, maxWidth) == [pieces.0] + rest;
      CutNoChar(line, maxWidth, c);
      WrapLineNoChar(pieces.1, maxWidth, c);
      forall k | 0 <= k < |[pieces.0] + rest| ensures c !in ([pieces.0] + rest)[k] {
        if k > 0 { assert ([pieces.0] + rest)[k] == rest[k - 1]; }
      }
    }
  }

  lemma {:induction false} WrapLinesNoChar(lines: seq<string>, maxWidth: nat, c: char)
    requires maxWidth >= 1
    requires forall k :: 0 <= k < |lines| ==> c !in lines[k]
    ensures forall k :: 0 <= k < |WrapLines(lines, maxWidth)| ==> c !in WrapLines(lines, maxWidth)[k]
    decreases |lines|
  {
    if lines != [] {
      WrapLineNoChar(lines[0], maxWidth, c);
      WrapLinesNoChar(lines[1..], maxWidth, c);
      var a, b := WrapLine(lines[0], maxWidth), WrapLines(lines[1..], maxWidth);
      forall k | 0 <= k < |a + b| ensures c !in (a + b)[k] {
        if k < |a| { assert (a + b)[k] == a[k]; } else { assert (a + b)[k] == b[k - |a|]; }
      }
    }
  }

  /** No comment line contains a line break. */
  lemma CommentLinesSingle(comment: string, maxWidth: nat)
    requires maxWidth >= 1
    ensures var ls := CommentLines(comment, maxWidth);
      |ls| >= 1 && forall k :: 0 <= k < |ls| ==> '\n' !in ls[k]
  {
    var lines := Split(comment, "\n");
    SplitPiecesFree(comment, '\n');
    assert forall k :: 0 <= k < |lines| ==> lines[k] in lines;
    WrapLinesNoChar(lines, maxWidth, '\n');
  }

  function Prefixed(p: string, ls: seq<string>): (r: seq<string>)
    ensures |r| == |ls| && forall k :: 0 <= k < |ls| ==> r[k] == p + ls[k]
  {
    seq(|ls|, k requires 0 <= k < |ls| => p + ls[k])
  }

  lemma {:induction false} SplitPrefixedJoin(p: string, ls: seq<string>)
    requires |ls| >= 1 && '\n' !in p
    requires forall k :: 0 <= k < |ls| ==> '\n' !in ls[k]
    ensures Split(p + Join(ls, "\n" + p), "\n") == Prefixed(p, ls)
    decreases |ls|
  {
    if |ls| == 1 {
      assert '\n' !in p + ls[0];
      NoCharNoSplit(p + ls[0], '\n');
    } else {
      var rest := Join(ls[1..], "\n" + p);
      assert p + Join(ls, "\n" + p) == (p + ls[0]) + "\n" + (p + rest) by {
        assert ls == [ls[0]] + ls[1..];
        JoinCons(ls[0], ls[1..], "\n" + p);
        Regroup5(p, ls[0], "\n", p, rest);
      }
      assert '\n' !in p + ls[0];
      SplitAtChar(p + ls[0], '\n', p + rest);
      SplitPrefixedJoin(p, ls[1..]);
      assert Prefixed(p, ls) == [p + ls[0]] + Prefixed(p, ls[1..]);
    }
  }

  lemma Regroup5<T>(p: seq<T>, a: seq<T>, n: seq<T>, q: seq<T>, r: seq<T>)
    ensures p + ((a + (n + q)) + r) == ((p + a) + n) + (q + r)
  {
  }

  lemma RepeatSpaces(n: nat)
    ensures '\n' !in Repeat(" ", n)
  {
    if n > 0 { RepeatSpaces(n - 1); }
  }

  /** Every line of the rendered comment is the prefix followed by one comment
      line: the prefix starts every output line. */
  lemma CommentTextLines(comment: string, offset: nat, maxWidth: nat)
    requires maxWidth >= 1
    ensures Split(CommentText(comment, offset, maxWidth), "\n")
         == Prefixed(Prefix(offset), CommentLines(comment, maxWidth))
  {
    CommentLinesSingle(comment, maxWidth);
    RepeatSpaces(offset);
    assert '\n' !in Prefix(offset);
    SplitPrefixedJoin(Prefix(offset), CommentLines(comment, maxWidth));
  }
}
