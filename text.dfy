/** The handful of Python `str` operations the generator relies on, restricted
    to ASCII: `find`, `in`, `split(sep)`, `split()`, `join`, `strip`, `lower`,
    `upper`, `isspace`, `islower`, `isupper` and repetition `s * n`. */
module Text {

  /** `c.isspace()` for the ASCII range: tab, line feed, vertical tab, form
      feed, carriage return, the four information separators and space. */
  predicate IsSpace(c: char) {
    9 <= c as int <= 13 || 28 <= c as int <= 32
  }

  predicate IsLowerChar(c: char) { 'a' <= c <= 'z' }

  predicate IsUpperChar(c: char) { 'A' <= c <= 'Z' }

  function LowerChar(c: char): char {
    if IsUpperChar(c) then (c as int + 32) as char else c
  }

  function UpperChar(c: char): char {
    if IsLowerChar(c) then (c as int - 32) as char else c
  }

  /** `s.lower()` */
  function Lower(s: string): string {
    seq(|s|, i requires 0 <= i < |s| => LowerChar(s[i]))
  }

  /** `s.upper()` */
  function Upper(s: string): string {
    seq(|s|, i requires 0 <= i < |s| => UpperChar(s[i]))
  }

  /** `s * n` */
  function Repeat(s: string, n: nat): string {
    if n == 0 then "" else s + Repeat(s, n - 1)
  }

  predicate NoSpace(s: string) {
    forall i :: 0 <= i < |s| ==> !IsSpace(s[i])
  }

  /** `pat` occurs in `s` starting at index `i`. */
  predicate OccursAt(s: string, pat: string, i: int) {
    0 <= i && i + |pat| <= |s| && s[i..i + |pat|] == pat
  }

  /** `s.find(pat, from)`: the first occurrence at or after `from`, or -1. */
  function FindFrom(s: string, pat: string, from: nat): (r: int)
    requires from <= |s|
    ensures r == -1 || (from <= r && OccursAt(s, pat, r))
    ensures r == -1 ==> forall j :: from <= j ==> !OccursAt(s, pat, j)
    ensures r != -1 ==> forall j :: from <= j < r ==> !OccursAt(s, pat, j)
    decreases |s| - from
  {
    if from + |pat| > |s| then -1
    else if s[from..from + |pat|] == pat then from
    else FindFrom(s, pat, from + 1)
  }

  /** `s.find(pat)` */
  function Find(s: string, pat: string): int {
    FindFrom(s, pat, 0)
  }

  /** `pat in s` */
  predicate Contains(s: string, pat: string) {
    Find(s, pat) != -1
  }

  lemma ContainsIff(s: string, pat: string)
    ensures Contains(s, pat) <==> exists j :: OccursAt(s, pat, j)
  {
    if Contains(s, pat) {
      assert OccursAt(s, pat, Find(s, pat));
    }
  }

  /** An occurrence inside a piece is an occurrence in any string built around it. */
  lemma ContainsPiece(a: string, p: string, b: string, pat: string)
    requires Contains(p, pat)
    ensures Contains(a + p + b, pat)
  {
    var j := Find(p, pat);
    assert (a + p + b)[|a| + j..|a| + j + |pat|] == p[j..j + |pat|];
    assert OccursAt(a + p + b, pat, |a| + j);
    ContainsIff(a + p + b, pat);
  }

  lemma ContainsSuffix(a: string, t: string, pat: string)
    ensures Contains(t, pat) ==> Contains(a + t, pat)
  {
    if Contains(t, pat) {
      var j := Find(t, pat);
      assert (a + t)[|a| + j..|a| + j + |pat|] == t[j..j + |pat|];
      assert OccursAt(a + t, pat, |a| + j);
      ContainsIff(a + t, pat);
    }
  }

  lemma ContainsPrefix(t: string, b: string, pat: string)
    ensures Contains(t, pat) ==> Contains(t + b, pat)
  {
    if Contains(t, pat) {
      var j := Find(t, pat);
      assert (t + b)[j..j + |pat|] == t[j..j + |pat|];
      assert OccursAt(t + b, pat, j);
      ContainsIff(t + b, pat);
    }
  }

  /** A pattern whose first character is missing from `s` does not occur in it. */
  lemma FirstCharAbsent(s: string, pat: string)
    requires pat != [] && pat[0] !in s
    ensures !Contains(s, pat)
  {
    forall j | 0 <= j ensures !OccursAt(s, pat, j) {
      if j + |pat| <= |s| {
        assert s[j..j + |pat|][0] == s[j];
      }
    }
  }

  lemma ContainsWhole(a: string, pat: string, b: string)
    ensures Contains(a + pat + b, pat)
  {
    assert (a + pat + b)[|a|..|a| + |pat|] == pat;
    assert OccursAt(a + pat + b, pat, |a|);
    ContainsIff(a + pat + b, pat);
  }

  /** `s.split(sep)` with a non-empty separator (Python raises on an empty one):
      the pieces between the non-overlapping occurrences of `sep`, scanning
      from the left; there is always at least one piece. */
  function Split(s: string, sep: string): (parts: seq<string>)
    requires |sep| > 0
    ensures |parts| >= 1
    decreases |s|
  {
    var i := Find(s, sep);
    if i < 0 then [s] else [s[..i]] + Split(s[i + |sep|..], sep)
  }

  /** `sep.join(parts)` */
  function Join(parts: seq<string>, sep: string): string {
    if |parts| == 0 then ""
    else if |parts| == 1 then parts[0]
    else parts[0] + sep + Join(parts[1..], sep)
  }

  lemma JoinTwo(a: string, b: string, sep: string)
    ensures Join([a, b], sep) == a + sep + b
  {
    assert [a, b][1..] == [b];
  }

  lemma JoinCons(a: string, tail: seq<string>, sep: string)
    requires |tail| >= 1
    ensures Join([a] + tail, sep) == a + sep + Join(tail, sep)
  {
    assert ([a] + tail)[1..] == tail;
  }

  /** Splitting and joining back with the same separator restores the text. */
  lemma {:induction false} JoinSplit(s: string, sep: string)
    requires |sep| > 0
    ensures Join(Split(s, sep), sep) == s
    decreases |s|
  {
    var i := Find(s, sep);
    if i >= 0 {
      var rest := s[i + |sep|..];
      var tail := Split(rest, sep);
      assert Split(s, sep) == [s[..i]] + tail;
      assert Join(tail, sep) == rest by { JoinSplit(rest, sep); }
      JoinCons(s[..i], tail, sep);
      assert s == s[..i] + sep + rest by {
        assert OccursAt(s, sep, i);
        assert s == s[..i] + s[i..i + |sep|] + rest;
      }
    }
  }

  /** A text that starts with the separator splits into "" and the rest. */
  lemma SplitAfterSeparator(sep: string, t: string)
    requires |sep| > 0
    ensures Split(sep + t, sep) == [""] + Split(t, sep)
  {
    assert OccursAt(sep + t, sep, 0);
    assert (sep + t)[|sep|..] == t;
  }

  /** Splitting on one character stops at its first occurrence. */
  lemma SplitAtChar(a: string, c: char, b: string)
    requires c !in a
    ensures Split(a + [c] + b, [c]) == [a] + Split(b, [c])
  {
    var s := a + [c] + b;
    assert OccursAt(s, [c], |a|);
    forall j | 0 <= j < |a| ensures !OccursAt(s, [c], j) {
      assert s[j] == a[j];
    }
    assert Find(s, [c]) == |a|;
    assert s[..|a|] == a;
    assert s[|a| + 1..] == b;
  }

  lemma NoCharNoSplit(s: string, c: char)
    requires c !in s
    ensures Split(s, [c]) == [s]
  {
    forall j | 0 <= j < |s| ensures !OccursAt(s, [c], j) {
      assert s[j..j + 1] == [s[j]];
    }
  }

  /** No piece of a split on one character contains that character. */
  lemma {:induction false} SplitPiecesFree(s: string, c: char)
    ensures forall p :: p in Split(s, [c]) ==> c !in p
    decreases |s|
  {
    var i := Find(s, [c]);
    if i < 0 {
      forall k | 0 <= k < |s| ensures s[k] != c {
        assert !OccursAt(s, [c], k);
        assert s[k..k + 1] == [s[k]];
      }
    } else {
      SplitPiecesFree(s[i + 1..], c);
      forall k | 0 <= k < i ensures s[k] != c {
        assert !OccursAt(s, [c], k);
        assert s[k..k + 1] == [s[k]];
      }
    }
  }

  /** No piece of a split contains the separator. */
  lemma {:induction false} SplitPiecesNoSeparator(s: string, sep: string)
    requires |sep| > 0
    ensures forall p :: p in Split(s, sep) ==> !Contains(p, sep)
    decreases |s|
  {
    var i := Find(s, sep);
    var n := if i < 0 then |s| else i;
    forall j | 0 <= j && j + |sep| <= n ensures !OccursAt(s[..n], sep, j) {
      assert !OccursAt(s, sep, j);
      assert s[..n][j..j + |sep|] == s[j..j + |sep|];
    }
    ContainsIff(s[..n], sep);
    if i < 0 {
      assert s[..n] == s && Split(s, sep) == [s];
    } else {
      var rest := Split(s[i + |sep|..], sep);
      SplitPiecesNoSeparator(s[i + |sep|..], sep);
      assert Split(s, sep) == [s[..n]] + rest;
    }
  }

  /** Joining with one character and splitting on it again gives back the
      pieces, provided no piece holds that character. */
  lemma {:induction false} SplitJoinChar(parts: seq<string>, c: char)
    requires |parts| >= 1
    requires forall k :: 0 <= k < |parts| ==> c !in parts[k]
    ensures Split(Join(parts, [c]), [c]) == parts
    decreases |parts|
  {
    if |parts| == 1 {
      NoCharNoSplit(parts[0], c);
    } else {
      var tail := parts[1..];
      assert Join(parts, [c]) == parts[0] + [c] + Join(tail, [c]);
      assert Split(Join(tail, [c]), [c]) == tail by { SplitJoinChar(tail, c); }
      SplitAtChar(parts[0], c, Join(tail, [c]));
      assert parts == [parts[0]] + tail;
    }
  }

  /** Where `s.find(c)` stops for a single character. */
  lemma FindChar(s: string, c: char)
    ensures Find(s, [c]) < 0 ==> c !in s
    ensures Find(s, [c]) >= 0 ==>
      var i := Find(s, [c]); i < |s| && s == s[..i] + [c] + s[i + 1..] && c !in s[..i]
  {
    var i := Find(s, [c]);
    var n := if i < 0 then |s| else i;
    forall k | 0 <= k < n ensures s[k] != c {
      assert !OccursAt(s, [c], k);
      assert s[k..k + 1] == [s[k]];
    }
    if i >= 0 {
      assert s[i..i + 1] == [c];
      assert s == s[..i] + s[i..i + 1] + s[i + 1..];
    }
  }

  /** Splitting on one character distributes over an occurrence of it. */
  lemma {:induction false} SplitConcatChar(a: string, c: char, b: string)
    ensures Split(a + [c] + b, [c]) == Split(a, [c]) + Split(b, [c])
    decreases |a|
  {
    FindChar(a, c);
    if Find(a, [c]) < 0 {
      SplitAtChar(a, c, b);
      NoCharNoSplit(a, c);
    } else {
      var i := Find(a, [c]);
      var a1, a2 := a[..i], a[i + 1..];
      assert a == a1 + [c] + a2;
      SplitAtChar(a1, c, a2);
      SplitConcatCharStep(a1, c, a2, b);
      SplitConcatChar(a2, c, b);
      Regroup3([a1], Split(a2, [c]), Split(b, [c]));
    }
  }

  lemma SplitConcatCharStep(a1: string, c: char, a2: string, b: string)
    requires c !in a1
    ensures Split(a1 + [c] + a2 + [c] + b, [c]) == [a1] + Split(a2 + [c] + b, [c])
  {
    assert a1 + [c] + a2 + [c] + b == a1 + [c] + (a2 + [c] + b);
    SplitAtChar(a1, c, a2 + [c] + b);
  }

  lemma Regroup3<T>(a: seq<T>, b: seq<T>, c: seq<T>)
    ensures (a + b) + c == a + (b + c)
  {
  }

  lemma TakeAll<T>(s: seq<T>)
    ensures s[..|s|] == s
  {
  }

  lemma TakeDrop<T>(s: seq<T>, k: nat)
    requires k <= |s|
    ensures s[..k] + s[k..] == s
  {
  }

  /** Leading whitespace removed (`lstrip`). */
  function TrimLeft(s: string): (r: string)
    ensures |r| <= |s| && r == s[|s| - |r|..]
    ensures r == [] || !IsSpace(r[0])
    ensures forall k :: 0 <= k < |s| - |r| ==> IsSpace(s[k])
  {
    if s != [] && IsSpace(s[0]) then TrimLeft(s[1..]) else s
  }

  /** Trailing whitespace removed (`rstrip`). */
  function TrimRight(s: string): (r: string)
    ensures |r| <= |s| && r == s[..|r|]
    ensures r == [] || !IsSpace(r[|r| - 1])
    ensures forall k :: |r| <= k < |s| ==> IsSpace(s[k])
  {
    if s != [] && IsSpace(s[|s| - 1]) then TrimRight(s[..|s| - 1]) else s
  }

  /** `s.strip()` */
  function Strip(s: string): (r: string)
    ensures |r| <= |s|
  {
    TrimRight(TrimLeft(s))
  }

  /** What `strip` leaves neither starts nor ends with whitespace. */
  lemma StripEnds(s: string)
    ensures Strip(s) == [] || (!IsSpace(Strip(s)[0]) && !IsSpace(Strip(s)[|Strip(s)| - 1]))
  {
    var l := TrimLeft(s);
    assert TrimRight(l) == l[..|TrimRight(l)|];
  }

  /** The first index of `s` holding whitespace, or `|s|`. */
  function SpanNonSpace(s: string): (n: nat)
    ensures n <= |s|
    ensures forall k :: 0 <= k < n ==> !IsSpace(s[k])
    ensures n < |s| ==> IsSpace(s[n])
  {
    if s == [] || IsSpace(s[0]) then 0 else 1 + SpanNonSpace(s[1..])
  }

  /** `s.split()`: the maximal runs of non-whitespace characters, in order. */
  function Words(s: string): (ws: seq<string>)
    ensures forall k :: 0 <= k < |ws| ==> ws[k] != "" && NoSpace(ws[k])
    decreases |s|
  {
    if s == [] then []
    else if IsSpace(s[0]) then Words(s[1..])
    else
      var n := SpanNonSpace(s);
      assert n >= 1;
      [s[..n]] + Words(s[n..])
  }

  /** The characters of `s` that are not whitespace. */
  function RemoveSpaces(s: string): string {
    if s == [] then []
    else (if IsSpace(s[0]) then [] else [s[0]]) + RemoveSpaces(s[1..])
  }

  lemma {:induction false} RemoveSpacesConcat(a: string, b: string)
    ensures RemoveSpaces(a + b) == RemoveSpaces(a) + RemoveSpaces(b)
    decreases |a|
  {
    if a != [] {
      assert (a + b)[0] == a[0];
      assert (a + b)[1..] == a[1..] + b;
      RemoveSpacesConcat(a[1..], b);
    } else {
      assert a + b == b;
    }
  }

  lemma {:induction false} RemoveSpacesAllSpace(s: string)
    requires forall k :: 0 <= k < |s| ==> IsSpace(s[k])
    ensures RemoveSpaces(s) == []
    decreases |s|
  {
    if s != [] { RemoveSpacesAllSpace(s[1..]); }
  }

  lemma {:induction false} RemoveSpacesNoSpace(s: string)
    requires NoSpace(s)
    ensures RemoveSpaces(s) == s
    decreases |s|
  {
    if s != [] {
      RemoveSpacesNoSpace(s[1..]);
      assert s == [s[0]] + s[1..];
    }
  }

  lemma JoinEmptyCons(x: string, ws: seq<string>)
    ensures Join([x] + ws, "") == x + Join(ws, "")
  {
    if ws != [] {
      JoinCons(x, ws, "");
    }
  }

  /** The words of `s` are all of its non-whitespace text, in order. */
  lemma {:induction false} WordsText(s: string)
    ensures Join(Words(s), "") == RemoveSpaces(s)
    decreases |s|
  {
    if s != [] {
      if IsSpace(s[0]) {
        WordsText(s[1..]);
      } else {
        var n := SpanNonSpace(s);
        var head, rest := s[..n], s[n..];
        assert s == head + rest;
        WordsText(rest);
        JoinEmptyCons(head, Words(rest));
        RemoveSpacesConcat(head, rest);
        RemoveSpacesNoSpace(head);
      }
    }
  }

  /** Whitespace separates words: a whitespace character between two texts
      splits them into the words of the one followed by those of the other. */
  lemma {:induction false} WordsSeparate(a: string, c: char, b: string)
    requires IsSpace(c)
    ensures Words(a + [c] + b) == Words(a) + Words(b)
    decreases |a|
  {
    var s := a + [c] + b;
    if a == [] {
      assert s[1..] == b;
    } else if IsSpace(a[0]) {
      assert s[0] == a[0];
      assert s[1..] == a[1..] + [c] + b;
      WordsSeparate(a[1..], c, b);
    } else {
      var m := SpanNonSpace(a);
      assert s[0] == a[0];
      forall k | 0 <= k < m ensures !IsSpace(s[k]) {
        assert s[k] == a[k];
      }
      assert IsSpace(s[m]) by {
        if m < |a| { assert s[m] == a[m]; } else { assert s[m] == c; }
      }
      assert SpanNonSpace(s) == m;
      assert s[..m] == a[..m];
      assert s[m..] == a[m..] + [c] + b;
      WordsSeparate(a[m..], c, b);
    }
  }

  lemma TrimLeftKeepsText(s: string)
    ensures RemoveSpaces(TrimLeft(s)) == RemoveSpaces(s)
  {
    var l := TrimLeft(s);
    var front := s[..|s| - |l|];
    assert s == front + l;
    RemoveSpacesConcat(front, l);
    RemoveSpacesAllSpace(front);
  }

  lemma TrimRightKeepsText(s: string)
    ensures RemoveSpaces(TrimRight(s)) == RemoveSpaces(s)
  {
    var r := TrimRight(s);
    var back := s[|r|..];
    assert s == r + back;
    RemoveSpacesConcat(r, back);
    RemoveSpacesAllSpace(back);
  }

  /** Stripping removes whitespace only. */
  lemma StripKeepsText(s: string)
    ensures RemoveSpaces(Strip(s)) == RemoveSpaces(s)
  {
    TrimLeftKeepsText(s);
    TrimRightKeepsText(TrimLeft(s));
  }

  lemma LowerKeepsSpaces(s: string)
    ensures NoSpace(Lower(s)) <==> NoSpace(s)
  {
    if !NoSpace(s) {
      var k :| 0 <= k < |s| && IsSpace(s[k]);
      assert IsSpace(Lower(s)[k]);
    }
  }

  lemma LowerConcat(a: string, b: string)
    ensures Lower(a + b) == Lower(a) + Lower(b)
  {
  }

  lemma UpperConcat(a: string, b: string)
    ensures Upper(a + b) == Upper(a) + Upper(b)
  {
  }
}
