/** Identifier naming shared by every Go generator: snake_case names from the
    API documentation become CamelCase Go identifiers, with the acronyms id,
    url and ip written fully upper-case. */
module Naming {
  import opened Text

  /** Words that are rendered fully upper-case. */
  const Acronyms: seq<string> := ["id", "url", "ip"]

  /** `formatWord`: capitalise the first letter, or the whole word when it is
      an acronym. Only the case of letters changes, and the result never
      starts with a lower-case letter. */
  function FormatWord(word: string): (r: string)
    ensures |r| == |word|
    ensures Lower(r) == Lower(word)
    ensures r == [] || !IsLowerChar(r[0])
    ensures word == "" ==> r == ""
    ensures Lower(word) in Acronyms ==> r == Upper(word)
    ensures word != "" && Lower(word) !in Acronyms ==> r[1..] == word[1..]
  {
    if word == "" then ""
    else if Lower(word) in Acronyms then Upper(word)
    else [UpperChar(word[0])] + word[1..]
  }

  /** `"".join(map(formatWord, parts))` */
  function CamelJoin(parts: seq<string>): string {
    if parts == [] then "" else FormatWord(parts[0]) + CamelJoin(parts[1..])
  }

  /** The string holds no lower-case letter: Python's `s.upper() == s`. */
  predicate AllUpper(s: string) {
    forall k :: 0 <= k < |s| ==> !IsLowerChar(s[k])
  }

  /** `toCamelCase(usstr, capFirst)` */
  function ToCamelCase(usstr: string, capFirst: bool): string {
    var joined := CamelJoin(Split(usstr, "_"));
    if !capFirst && Upper(joined) != joined then [LowerChar(joined[0])] + joined[1..]
    else joined
  }

  /** The characters of `s` other than `c`. */
  function Without(s: string, c: char): string {
    if s == [] then [] else (if s[0] == c then [] else [s[0]]) + Without(s[1..], c)
  }

  lemma UpperFixedIff(s: string)
    ensures Upper(s) == s <==> AllUpper(s)
  {
    if !AllUpper(s) {
      var k :| 0 <= k < |s| && IsLowerChar(s[k]);
      assert Upper(s)[k] != s[k];
    }
  }

  /** With `capFirst` false only the first character may change: it becomes
      lower-case unless the whole identifier is already upper-case. */
  lemma CamelCaseLowerFirst(usstr: string)
    ensures var r := ToCamelCase(usstr, true);
      ToCamelCase(usstr, false) == if AllUpper(r) then r else [LowerChar(r[0])] + r[1..]
  {
    UpperFixedIff(ToCamelCase(usstr, true));
  }

  lemma {:induction false} WithoutConcat(a: string, b: string, c: char)
    ensures Without(a + b, c) == Without(a, c) + Without(b, c)
    decreases |a|
  {
    if a == [] {
      assert a + b == b;
    } else {
      assert (a + b)[0] == a[0];
      assert (a + b)[1..] == a[1..] + b;
      WithoutConcat(a[1..], b, c);
    }
  }

  lemma {:induction false} WithoutAbsent(s: string, c: char)
    requires c !in s
    ensures Without(s, c) == s
    decreases |s|
  {
    if s != [] {
      assert s == [s[0]] + s[1..];
      WithoutAbsent(s[1..], c);
    }
  }

  lemma {:induction false} LowerCamelJoinCons(p: string, ps: seq<string>)
    ensures Lower(CamelJoin([p] + ps)) == Lower(p) + Lower(CamelJoin(ps))
  {
    assert ([p] + ps)[1..] == ps;
    LowerConcat(FormatWord(p), CamelJoin(ps));
  }

  lemma WithoutAround(head: string, rest: string)
    requires '_' !in head
    ensures Without(head + "_" + rest, '_') == head + Without(rest, '_')
  {
    var u: string := "_";
    assert u[1..] == [];
    assert Without(u, '_') == [];
    WithoutConcat(head + u, rest, '_');
    WithoutConcat(head, u, '_');
    WithoutAbsent(head, '_');
    assert Without(head + u, '_') == head;
  }

  /** Apart from dropping the underscores, camel-casing changes only the
      case of letters. */
  lemma {:induction false} CamelJoinSplitLower(s: string)
    ensures Lower(CamelJoin(Split(s, "_"))) == Lower(Without(s, '_'))
    decreases |s|
  {
    FindChar(s, '_');
    if Find(s, "_") < 0 {
      CamelJoinSplitLowerWhole(s);
    } else {
      var i := Find(s, "_");
      var head, rest := s[..i], s[i + 1..];
      CamelJoinSplitLower(rest);
      CamelJoinSplitLowerStep(head, rest);
      assert s == head + "_" + rest;
    }
  }

  lemma CamelJoinSplitLowerWhole(s: string)
    requires '_' !in s
    ensures Lower(CamelJoin(Split(s, "_"))) == Lower(Without(s, '_'))
  {
    NoCharNoSplit(s, '_');
    WithoutAbsent(s, '_');
    LowerCamelJoinCons(s, []);
    assert [s] + [] == [s];
  }

  lemma CamelJoinSplitLowerStep(head: string, rest: string)
    requires '_' !in head
    requires Lower(CamelJoin(Split(rest, "_"))) == Lower(Without(rest, '_'))
    ensures Lower(CamelJoin(Split(head + "_" + rest, "_"))) == Lower(Without(head + "_" + rest, '_'))
  {
    var tail := Split(rest, "_");
    assert Lower(CamelJoin(Split(head + "_" + rest, "_"))) == Lower(head) + Lower(CamelJoin(tail)) by {
      SplitAtChar(head, '_', rest);
      LowerCamelJoinCons(head, tail);
    }
    assert Lower(Without(head + "_" + rest, '_')) == Lower(head) + Lower(Without(rest, '_')) by {
      WithoutAround(head, rest);
      LowerConcat(head, Without(rest, '_'));
    }
  }

  lemma LowerCharUnderscore(c: char)
    ensures LowerChar(c) == '_' <==> c == '_'
  {
  }

  lemma {:induction false} CamelJoinNoUnderscore(ps: seq<string>)
    requires forall p :: p in ps ==> '_' !in p
    ensures '_' !in CamelJoin(ps)
    decreases |ps|
  {
    if ps != [] {
      CamelJoinNoUnderscore(ps[1..]);
      assert ps[0] in ps;
      var w := FormatWord(ps[0]);
      forall k | 0 <= k < |w| ensures w[k] != '_' {
        assert Lower(w)[k] == Lower(ps[0])[k];
        LowerCharUnderscore(w[k]);
        LowerCharUnderscore(ps[0][k]);
      }
    }
  }

  /** A generated identifier never contains an underscore. */
  lemma CamelCaseNoUnderscore(usstr: string, capFirst: bool)
    ensures '_' !in ToCamelCase(usstr, capFirst)
  {
    SplitPiecesFree(usstr, '_');
    CamelJoinNoUnderscore(Split(usstr, "_"));
  }

  /** Camel-casing a snake_case name is the same, letter case aside, as
      deleting its underscores. */
  lemma CamelCaseLetters(usstr: string, capFirst: bool)
    ensures Lower(ToCamelCase(usstr, capFirst)) == Lower(Without(usstr, '_'))
  {
    CamelJoinSplitLower(usstr);
    var j := CamelJoin(Split(usstr, "_"));
    if !capFirst && Upper(j) != j {
      LowerFirstKeepsLower(j);
    }
  }

  lemma LowerFirstKeepsLower(j: string)
    requires j != []
    ensures Lower([LowerChar(j[0])] + j[1..]) == Lower(j)
  {
    var r := [LowerChar(j[0])] + j[1..];
    forall k | 0 <= k < |j| ensures Lower(r)[k] == Lower(j)[k] {
      if k == 0 { assert r[0] == LowerChar(j[0]); } else { assert r[k] == j[k]; }
    }
  }

  /** Camel-casing works piece by piece: the part before the first underscore
      is formatted on its own and the rest is camel-cased recursively. */
  lemma CamelCaseConcat(a: string, b: string)
    requires '_' !in a
    ensures ToCamelCase(a + "_" + b, true) == FormatWord(a) + ToCamelCase(b, true)
    ensures ToCamelCase(a, true) == FormatWord(a)
  {
    SplitAtChar(a, '_', b);
    assert ([a] + Split(b, "_"))[1..] == Split(b, "_");
    NoCharNoSplit(a, '_');
    assert [a][1..] == [];
    assert CamelJoin([a]) == FormatWord(a) + "";
  }

  /** The first character of a capitalised identifier is never a lower-case
      letter. */
  lemma {:induction false} CamelJoinFirst(ps: seq<string>)
    ensures var r := CamelJoin(ps); r == [] || !IsLowerChar(r[0])
    decreases |ps|
  {
    if ps != [] {
      CamelJoinFirst(ps[1..]);
      var w := FormatWord(ps[0]);
      if w == [] {
        assert CamelJoin(ps) == CamelJoin(ps[1..]);
      } else {
        assert CamelJoin(ps)[0] == w[0];
      }
    }
  }

  lemma CamelCaseCapitalised(usstr: string)
    ensures var r := ToCamelCase(usstr, true); r == [] || !IsLowerChar(r[0])
  {
    CamelJoinFirst(Split(usstr, "_"));
  }

  lemma {:induction false} WithoutKeepsAbsent(s: string, d: char, c: char)
    requires c !in s
    ensures c !in Without(s, d)
    decreases |s|
  {
    if s != [] {
      assert s[0] != c && c !in s[1..];
      WithoutKeepsAbsent(s[1..], d, c);
    }
  }

  /** A character that is not a letter appears in an identifier
      only if it appears in the name it was made from. */
  lemma CamelCaseNoChar(usstr: string, c: char)
    requires c !in usstr && !IsLowerChar(c) && !IsUpperChar(c)
    ensures c !in ToCamelCase(usstr, true)
  {
    var r := ToCamelCase(usstr, true);
    var w := Without(usstr, '_');
    CamelCaseLetters(usstr, true);
    WithoutKeepsAbsent(usstr, '_', c);
    forall k | 0 <= k < |r| ensures r[k] != c {
      assert LowerChar(r[k]) == Lower(r)[k] == Lower(w)[k] == LowerChar(w[k]);
      assert w[k] in w;
    }
  }
}
