/** `getResultType`: guessing the result type of an API method from the
    sentences of its description that say what is returned. */
module ResultType {
  import opened Text
  import opened ApiParser
  import opened GoTypes

  /** A sentence mentions the result. */
  predicate Qualifies(sentence: string) {
    Contains(sentence, "is returned") || Contains(sentence, "returns an ")
  }

  /** `description.lower().split(".")` */
  function Sentences(description: string): seq<string> {
    Split(Lower(description), ".")
  }

  /** The words of the qualifying sentences, in order. */
  function QualifyingWords(sentences: seq<string>): seq<string> {
    if sentences == [] then []
    else (if Qualifies(sentences[0]) then Words(sentences[0]) else []) + QualifyingWords(sentences[1..])
  }

  /** The names of the known types that a qualifying sentence mentions; the
      keys of `allTypes` are lower-case names, the tokens carry the name as
      written. */
  function Candidates(description: string, allTypes: map<string, Token>): set<string> {
    set w | w in QualifyingWords(Sentences(description)) && w in allTypes :: allTypes[w].name
  }

  /** A candidate written as an array when the description mentions
      "rray of" followed by it (in its original case). */
  function Render(description: string, name: string, arrays: bool): string {
    if arrays && Contains(description, "rray of " + name) then ArrayOf + name else name
  }

  function Rendered(description: string, names: set<string>, arrays: bool): set<string> {
    set n | n in names :: Render(description, n, arrays)
  }

  /** What `getResultType` may answer, as a set. */
  function ResultTypes(description: string, allTypes: map<string, Token>, arrays: bool): set<string> {
    Rendered(description, Candidates(description, allTypes), arrays)
  }

  predicate StartsWith(s: string, p: string) {
    |p| <= |s| && s[..|p|] == p
  }

  /** No candidate is itself written like an array type. */
  predicate NoArrayNames(names: set<string>) {
    forall n :: n in names ==> !StartsWith(n, ArrayOf)
  }

  /** `r` lists exactly the members of `s`. */
  ghost predicate Lists(r: seq<string>, s: set<string>) {
    forall x :: x in r <==> x in s
  }

  predicate Distinct(r: seq<string>) {
    forall i, j :: 0 <= i < j < |r| ==> r[i] != r[j]
  }

  lemma RenderedAdd(description: string, names: set<string>, n: string, arrays: bool)
    ensures Rendered(description, names + {n}, arrays)
         == Rendered(description, names, arrays) + {Render(description, n, arrays)}
  {
  }

  lemma DistinctAppend(r: seq<string>, x: string)
    requires Distinct(r) && x !in r
    ensures Distinct(r + [x])
  {
    forall i, j | 0 <= i < j < |r + [x]| ensures (r + [x])[i] != (r + [x])[j] {
      if j == |r| {
        assert (r + [x])[i] == r[i] && r[i] in r;
      } else {
        assert (r + [x])[i] == r[i] && (r + [x])[j] == r[j];
      }
    }
  }

  lemma {:induction false} QualifyingWordsIff(ss: seq<string>, w: string)
    ensures w in QualifyingWords(ss) <==> exists k :: 0 <= k < |ss| && Qualifies(ss[k]) && w in Words(ss[k])
    decreases |ss|
  {
    if ss != [] {
      QualifyingWordsIff(ss[1..], w);
      if w in QualifyingWords(ss[1..]) {
        var k :| 0 <= k < |ss[1..]| && Qualifies(ss[1..][k]) && w in Words(ss[1..][k]);
        assert ss[k + 1] == ss[1..][k];
      }
      if exists k :: 0 <= k < |ss| && Qualifies(ss[k]) && w in Words(ss[k]) {
        var k :| 0 <= k < |ss| && Qualifies(ss[k]) && w in Words(ss[k]);
        if k > 0 {
          assert ss[1..][k - 1] == ss[k];
        }
      }
    }
  }

  /** A name is a candidate exactly when some word of a qualifying sentence
      of the lower-cased description is a key of the type table that names it. */
  lemma CandidatesIff(description: string, allTypes: map<string, Token>, n: string)
    ensures var ss := Sentences(description);
      n in Candidates(description, allTypes) <==>
      exists k, w :: 0 <= k < |ss| && Qualifies(ss[k]) && w in Words(ss[k])
                     && w in allTypes && allTypes[w].name == n
  {
    var ss := Sentences(description);
    if n in Candidates(description, allTypes) {
      var w :| w in QualifyingWords(ss) && w in allTypes && allTypes[w].name == n;
      QualifyingWordsIff(ss, w);
    }
    if exists k, w :: 0 <= k < |ss| && Qualifies(ss[k]) && w in Words(ss[k])
                      && w in allTypes && allTypes[w].name == n {
      var k, w :| 0 <= k < |ss| && Qualifies(ss[k]) && w in Words(ss[k])
                  && w in allTypes && allTypes[w].name == n;
      QualifyingWordsIff(ss, w);
    }
  }

  /** Rendering tells candidates apart as long as none of them is written
      like an array type. */
  lemma RenderDistinct(description: string, m: string, n: string, arrays: bool)
    requires m != n
    requires !StartsWith(m, ArrayOf) && !StartsWith(n, ArrayOf)
    ensures Render(description, m, arrays) != Render(description, n, arrays)
  {
    var k := |ArrayOf|;
    var am := arrays && Contains(description, "rray of " + m);
    var an := arrays && Contains(description, "rray of " + n);
    if am && an {
      assert (ArrayOf + m)[k..] == m && (ArrayOf + n)[k..] == n;
    } else if am {
      assert StartsWith(ArrayOf + m, ArrayOf);
    } else if an {
      assert StartsWith(ArrayOf + n, ArrayOf);
    }
  }

  /** fetch_types.py never answers an array form: its answer is the set of
      bare candidate names. */
  lemma BareNamesWithoutArrays(description: string, allTypes: map<string, Token>)
    ensures ResultTypes(description, allTypes, false) == Candidates(description, allTypes)
  {
    var c := Candidates(description, allTypes);
    forall n | n in c ensures n in ResultTypes(description, allTypes, false) {
      assert Render(description, n, false) == n;
    }
  }

  /** The type tables are keyed by the lower-cased names of their tokens. */
  ghost predicate KeyedByLowerName(allTypes: map<string, Token>) {
    forall k :: k in allTypes ==> k == Lower(allTypes[k].name)
  }

  /** Every collected word is free of whitespace. */
  lemma QualifyingWordsNoSpace(ss: seq<string>, w: string)
    requires w in QualifyingWords(ss)
    ensures NoSpace(w)
  {
    QualifyingWordsIff(ss, w);
    var k :| 0 <= k < |ss| && Qualifies(ss[k]) && w in Words(ss[k]);
    var ws := Words(ss[k]);
    var i :| 0 <= i < |ws| && ws[i] == w;
  }

  /** A table keyed by lower-cased names yields no candidate written like an
      array type: its key would be a word holding the space of "array of ". */
  lemma KeysNoArray(description: string, allTypes: map<string, Token>)
    requires KeyedByLowerName(allTypes)
    ensures NoArrayNames(Candidates(description, allTypes))
  {
    forall n | n in Candidates(description, allTypes) ensures !StartsWith(n, ArrayOf) {
      var w :| w in QualifyingWords(Sentences(description)) && w in allTypes && allTypes[w].name == n;
      QualifyingWordsNoSpace(Sentences(description), w);
      assert w == Lower(n);
      if |ArrayOf| <= |n| {
        assert w[5] == LowerChar(n[5]) && !IsSpace(w[5]);
        assert n[..|ArrayOf|][5] == n[5] != ArrayOf[5];
      }
    }
  }

  /** Rendering one more candidate adds its rendering to the list. */
  lemma ListsAdd(description: string, done: set<string>, r: seq<string>, n: string, arrays: bool)
    requires Lists(r, Rendered(description, done, arrays))
    ensures Lists(r + [Render(description, n, arrays)], Rendered(description, done + {n}, arrays))
  {
    var x := Render(description, n, arrays);
    RenderedAdd(description, done, n, arrays);
    assert forall y :: y in r + [x] <==> y in r || y == x;
  }

  /** Rendering a new candidate gives a new string. */
  lemma DistinctAdd(description: string, done: set<string>, r: seq<string>, n: string, arrays: bool)
    requires n !in done && !StartsWith(n, ArrayOf) && NoArrayNames(done)
    requires Lists(r, Rendered(description, done, arrays)) && Distinct(r)
    ensures Distinct(r + [Render(description, n, arrays)])
  {
    var x := Render(description, n, arrays);
    forall y | y in r ensures y != x {
      var m :| m in done && y == Render(description, m, arrays);
      RenderDistinct(description, m, n, arrays);
    }
    DistinctAppend(r, x);
  }

  /** One round of the loop of `getResultType` keeps its invariants. */
  lemma AddCandidate(description: string, all: set<string>, pending: set<string>, done: set<string>,
                     r: seq<string>, n: string, arrays: bool)
    requires pending !! done && pending + done == all && |r| == |done|
    requires n in pending
    requires Lists(r, Rendered(description, done, arrays))
    requires NoArrayNames(all) ==> Distinct(r)
    ensures (pending - {n}) !! (done + {n}) && (pending - {n}) + (done + {n}) == all
    ensures |r + [Render(description, n, arrays)]| == |done + {n}|
    ensures Lists(r + [Render(description, n, arrays)], Rendered(description, done + {n}, arrays))
    ensures NoArrayNames(all) ==> Distinct(r + [Render(description, n, arrays)])
  {
    if NoArrayNames(all) {
      DistinctAdd(description, done, r, n, arrays);
    }
    ListsAdd(description, done, r, n, arrays);
  }

  /** `getResultType`: iterates the candidate set, in no particular order,
      rendering each. The answer lists each candidate once. */
  method GetResultType(token: Token, allTypes: map<string, Token>, arrays: bool) returns (r: seq<string>)
    ensures |r| == |Candidates(token.description, allTypes)|
    ensures forall x :: x in r <==> x in ResultTypes(token.description, allTypes, arrays)
    ensures NoArrayNames(Candidates(token.description, allTypes)) ==> Distinct(r)
    ensures KeyedByLowerName(allTypes) ==> Distinct(r)
  {
    var description := token.description;
    var all := Candidates(description, allTypes);
    var pending := all;
    ghost var done: set<string> := {};
    r := [];
    while pending != {}
      invariant pending !! done && pending + done == all
      invariant |r| == |done|
      invariant Lists(r, Rendered(description, done, arrays))
      invariant NoArrayNames(all) ==> Distinct(r)
      decreases |pending|
    {
      var maybeType :| maybeType in pending;
      var x := if arrays && Contains(description, "rray of " + maybeType) then ArrayOf + maybeType
               else maybeType;
      AddCandidate(description, all, pending, done, r, maybeType, arrays);
      r := r + [x];
      pending := pending - {maybeType};
      done := done + {maybeType};
    }
    assert done == all;
    if KeyedByLowerName(allTypes) {
      KeysNoArray(description, allTypes);
    }
  }

  /** With one candidate the answer is that candidate, rendered. */
  lemma SingleCandidate(description: string, allTypes: map<string, Token>, arrays: bool, r: seq<string>)
    requires |Candidates(description, allTypes)| == 1
    requires |r| == 1
    requires forall x :: x in r <==> x in ResultTypes(description, allTypes, arrays)
    ensures r[0] == Render(description, TheOne(Candidates(description, allTypes)), arrays)
  {
    var c := Candidates(description, allTypes);
    var n := TheOne(c);
    assert r[0] in r;
    var m :| m in c && r[0] == Render(description, m, arrays);
    assert m == n;
  }

  /** The element of a one-element set. */
  ghost function TheOne(s: set<string>): (x: string)
    requires |s| == 1
    ensures s == {x}
  {
    var x :| x in s;
    assert |s - {x}| == 0;
    x
  }
}
