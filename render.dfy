/** The Go declarations the generators emit for one token: `formatStruct`,
    `formatRequestResponse` and the two forms of `formatMethod`. */
module Render {
  import opened Text
  import opened Naming
  import opened GoTypes
  import opened Comments
  import opened ApiParser
  import opened ResultType

  /** `textwrap.fill(text, width, initial_indent=indent, subsequent_indent=indent)`,
      a library function this model takes as a parameter. */
  type Fill = (string, nat, string) -> string

  /** `formatComment(text, offset)` of the generator: scripts/format/golang.py
      hands the stripped text to `textwrap.fill`, the others wrap by hand. */
  function Comment(g: Generator, fill: Fill, text: string, offset: nat): string {
    if g.UsesTextwrap() then fill(Strip(text), DefaultWidth, Prefix(offset))
    else CommentText(text, offset, DefaultWidth)
  }

  /** The struct tag of a field: the documented name, with `omitempty` in
      scripts/format/golang.py. */
  function JsonTag(g: Generator, name: string): string {
    "`json:\"" + name + (if g.UsesTextwrap() then ",omitempty" else "") + "\"`"
  }

  function FieldLine(g: Generator, p: Param): string {
    "  " + ToCamelCase(p.name, true) + " " + FormatType(g.Rules(), p.typeName) + " " + JsonTag(g, p.name)
    + (if g.UsesTextwrap() then "\n" else "")
  }

  /** What one parameter contributes to the list of struct chunks. */
  function FieldChunk(g: Generator, fill: Fill, p: Param): seq<string> {
    if g.UsesTextwrap() then [Comment(g, fill, p.description, 2), FieldLine(g, p)]
    else ["", Comment(g, fill, p.description, 2), FieldLine(g, p)]
  }

  function ChunkSize(g: Generator): nat {
    if g.UsesTextwrap() then 2 else 3
  }

  /** The concatenation of a list of lists. */
  function Concat<T>(xs: seq<seq<T>>): seq<T>
    decreases |xs|
  {
    if xs == [] then [] else Concat(xs[..|xs| - 1]) + xs[|xs| - 1]
  }

  function Map<T, U>(f: T -> U, xs: seq<T>): (ys: seq<U>)
    ensures |ys| == |xs| && forall i :: 0 <= i < |xs| ==> ys[i] == f(xs[i])
  {
    seq(|xs|, i requires 0 <= i < |xs| => f(xs[i]))
  }

  lemma MapSplit<T, U>(f: T -> U, xs: seq<T>, k: nat)
    requires k < |xs|
    ensures Map(f, xs) == Map(f, xs[..k]) + [f(xs[k])] + Map(f, xs[k + 1..])
  {
  }

  lemma MapSnoc<T, U>(f: T -> U, xs: seq<T>, x: T)
    ensures Map(f, xs + [x]) == Map(f, xs) + [f(x)]
  {
  }

  function FieldChunkList(g: Generator, fill: Fill, ps: seq<Param>): (cs: seq<seq<string>>)
    ensures |cs| == |ps|
  {
    Map(p => FieldChunk(g, fill, p), ps)
  }

  function FieldChunks(g: Generator, fill: Fill, ps: seq<Param>): seq<string> {
    Concat(FieldChunkList(g, fill, ps))
  }

  function Header(name: string): string {
    "type " + ToCamelCase(name, true) + " struct {"
  }

  function Closer(g: Generator): string {
    if g.UsesTextwrap() then "}" else "}\n"
  }

  function StructChunks(g: Generator, fill: Fill, t: Token): seq<string> {
    [Comment(g, fill, t.description, 0), Header(t.name)] + FieldChunks(g, fill, t.params) + [Closer(g)]
  }

  /** The value of `formatStruct(token)`. */
  function StructText(g: Generator, fill: Fill, t: Token): string {
    Join(StructChunks(g, fill, t), "\n")
  }

  lemma ConcatSnoc<T>(xs: seq<seq<T>>, x: seq<T>)
    ensures Concat(xs + [x]) == Concat(xs) + x
  {
    assert (xs + [x])[..|xs|] == xs;
  }

  lemma FieldChunksStep(g: Generator, fill: Fill, ps: seq<Param>, i: nat)
    requires i < |ps|
    ensures FieldChunks(g, fill, ps[..i + 1]) == FieldChunks(g, fill, ps[..i]) + FieldChunk(g, fill, ps[i])
  {
    var f := p => FieldChunk(g, fill, p);
    assert ps[..i + 1] == ps[..i] + [ps[i]];
    MapSnoc(f, ps[..i], ps[i]);
    ConcatSnoc(Map(f, ps[..i]), f(ps[i]));
  }

  /** One round of the parameter loop of `formatStruct`. */
  method FieldRound(g: Generator, fill: Fill, ps: seq<Param>, i: nat, result: seq<string>)
    returns (result': seq<string>)
    requires i < |ps| && result == FieldChunks(g, fill, ps[..i])
    ensures result' == FieldChunks(g, fill, ps[..i + 1])
  {
    var param := ps[i];
    FieldChunksStep(g, fill, ps, i);
    var comment, line := Comment(g, fill, param.description, 2), FieldLine(g, param);
    if g.UsesTextwrap() {
      result' := result + [comment, line];
    } else {
      result' := result + ["", comment, line];
    }
  }

  /** `formatStruct`: the comment and header, then the chunks of each
      parameter, then the closing brace, joined by line breaks. */
  method FormatStruct(g: Generator, fill: Fill, token: Token) returns (r: string)
    ensures r == StructText(g, fill, token)
  {
    var result: seq<string> := [];
    var i := 0;
    while i < |token.params|
      invariant 0 <= i <= |token.params|
      invariant result == FieldChunks(g, fill, token.params[..i])
    {
      result := FieldRound(g, fill, token.params, i, result);
      i := i + 1;
    }
    TakeAll(token.params);
    var head := [Comment(g, fill, token.description, 0), "type " + ToCamelCase(token.name, true) + " struct {"];
    ghost var fields := result;
    if g.UsesTextwrap() {
      var lines := head + result + ["}"];
      assert lines == StructChunks(g, fill, token) by {
        assert head == [Comment(g, fill, token.description, 0), Header(token.name)];
        assert Closer(g) == "}";
      }
      r := Join(lines, "\n");
    } else {
      result := result + ["}\n"];
      var lines := head + result;
      assert lines == StructChunks(g, fill, token) by {
        assert head == [Comment(g, fill, token.description, 0), Header(token.name)];
        assert Closer(g) == "}\n";
        assert lines == head + fields + ["}\n"];
      }
      r := Join(lines, "\n");
    }
  }

  lemma {:induction false} ConcatConcat<T>(xs: seq<seq<T>>, ys: seq<seq<T>>)
    ensures Concat(xs + ys) == Concat(xs) + Concat(ys)
    decreases |ys|
  {
    if ys == [] {
      assert xs + ys == xs;
    } else {
      var init := ys[..|ys| - 1];
      var last := ys[|ys| - 1];
      assert (xs + ys)[..|xs + ys| - 1] == xs + init;
      assert (xs + ys)[|xs + ys| - 1] == last;
      ConcatConcat(xs, init);
      Regroup3(Concat(xs), Concat(init), last);
    }
  }

  lemma {:induction false} ConcatUniform<T>(xs: seq<seq<T>>, n: nat)
    requires forall i :: 0 <= i < |xs| ==> |xs[i]| == n
    ensures |Concat(xs)| == n * |xs|
    decreases |xs|
  {
    if xs != [] {
      var init := xs[..|xs| - 1];
      ConcatUniform(init, n);
      assert |Concat(xs)| == |Concat(init)| + |xs[|xs| - 1]|;
      assert n * |xs| == n * |init| + n;
    }
  }

  lemma FieldChunksLength(g: Generator, fill: Fill, ps: seq<Param>)
    ensures |FieldChunks(g, fill, ps)| == ChunkSize(g) * |ps|
  {
    ConcatUniform(FieldChunkList(g, fill, ps), ChunkSize(g));
  }

  /** The chunks of the fields come in parameter order: those of parameter
      `k` sit between those of the parameters before and after it. */
  lemma FieldChunksAt(g: Generator, fill: Fill, ps: seq<Param>, k: nat)
    requires k < |ps|
    ensures FieldChunks(g, fill, ps)
         == FieldChunks(g, fill, ps[..k]) + FieldChunk(g, fill, ps[k]) + FieldChunks(g, fill, ps[k + 1..])
  {
    var f := p => FieldChunk(g, fill, p);
    var x := FieldChunk(g, fill, ps[k]);
    MapSplit(f, ps, k);
    var before, after := FieldChunkList(g, fill, ps[..k]), FieldChunkList(g, fill, ps[k + 1..]);
    ConcatConcat(before + [x], after);
    ConcatConcat(before, [x]);
    assert Concat([x]) == [] + x;
  }

  /** A struct is its comment, its header, the field chunks and a closing
      brace. */
  lemma StructShape(g: Generator, fill: Fill, t: Token)
    ensures var cs := StructChunks(g, fill, t);
      |cs| == 3 + ChunkSize(g) * |t.params|
      && cs[0] == Comment(g, fill, t.description, 0)
      && cs[1] == "type " + ToCamelCase(t.name, true) + " struct {"
      && cs[|cs| - 1] == Closer(g)
  {
    FieldChunksLength(g, fill, t.params);
  }

  const RawParam: Param := Param("raw", "Array of byte", Flag(false), "Raw response from the server")

  function ResultParam(typeName: string): Param {
    Param("result", typeName, Flag(false), "Decoded response from the server")
  }

  /** The request struct of a method carries its parameters unchanged. */
  function RequestToken(t: Token): Token {
    Token(t.name + "Request", "Request for API call '" + t.name + "'", t.params)
  }

  /** The response holds the raw answer, and a typed result when exactly one
      result type was found. */
  ghost function ResponseParams(g: Generator, t: Token, allTypes: map<string, Token>): seq<Param> {
    var c := Candidates(t.description, allTypes);
    [RawParam] + if |c| == 1 then [ResultParam(Render(t.description, TheOne(c), g.ArrayResults()))] else []
  }

  ghost function ResponseToken(g: Generator, t: Token, allTypes: map<string, Token>): Token {
    Token(t.name + "Response", "Response for API call '" + t.name + "'", ResponseParams(g, t, allTypes))
  }

  /** The value of `formatRequestResponse(token, allTypes)`. */
  ghost function RequestResponseText(g: Generator, fill: Fill, t: Token, allTypes: map<string, Token>): string {
    StructText(g, fill, RequestToken(t)) + "\n" + StructText(g, fill, ResponseToken(g, t, allTypes))
  }

  /** `formatRequestResponse` */
  method FormatRequestResponse(g: Generator, fill: Fill, token: Token, allTypes: map<string, Token>)
    returns (r: string)
    ensures r == RequestResponseText(g, fill, token, allTypes)
  {
    var ret := GetResultType(token, allTypes, g.ArrayResults());
    var methodResult := [RawParam];
    if |ret| == 1 {
      SingleCandidate(token.description, allTypes, g.ArrayResults(), ret);
      methodResult := methodResult + [ResultParam(ret[0])];
    }
    assert methodResult == ResponseParams(g, token, allTypes);
    var requestToken := Token(token.name + "Request", "Request for API call '" + token.name + "'", token.params);
    var responseToken := Token(token.name + "Response", "Response for API call '" + token.name + "'", methodResult);
    assert requestToken == RequestToken(token);
    assert responseToken == ResponseToken(g, token, allTypes);
    var request := FormatStruct(g, fill, requestToken);
    var response := FormatStruct(g, fill, responseToken);
    r := Join([request, response], "\n");
    JoinTwo(request, response, "\n");
  }

  /** The response always starts with the raw field, and it has a typed
      result field exactly when there is one candidate, whose type is one of
      the answers of `getResultType`. */
  lemma ResponseShape(g: Generator, t: Token, allTypes: map<string, Token>)
    ensures var ps := ResponseParams(g, t, allTypes);
      var c := Candidates(t.description, allTypes);
      |ps| >= 1 && ps[0] == RawParam && ps[0].typeName == "Array of byte"
      && (|ps| == 2 <==> |c| == 1) && |ps| <= 2
      && (|ps| == 2 ==> ps[1].name == "result"
                        && ps[1].typeName in ResultTypes(t.description, allTypes, g.ArrayResults()))
  {
    var c := Candidates(t.description, allTypes);
    if |c| == 1 {
      var n := TheOne(c);
      assert n in c;
    }
  }

  /** `f"  {name}(request *{name}Request) (*{name}Response, error)"` */
  function Signature(name: string): string {
    var n := ToCamelCase(name, true);
    "  " + n + "(request *" + n + "Request) (*" + n + "Response, error)"
  }

  /** A word longer than every acronym is not one. */
  lemma LongNoAcronym(w: string)
    requires |w| > 3
    ensures Lower(w) !in Acronyms
  {
    assert |Lower(w)| == |w|;
    forall a | a in Acronyms ensures |a| <= 3 {
    }
  }

  lemma FormatWordAppend(name: string, suffix: string)
    requires name != "" && Lower(name) !in Acronyms && Lower(name + suffix) !in Acronyms
    ensures FormatWord(name + suffix) == FormatWord(name) + suffix
  {
    var w := name + suffix;
    assert w[0] == name[0] && w[1..] == name[1..] + suffix;
  }

  /** The request and response types a signature names are the structs
      emitted for the method: camel-casing commutes with appending the
      suffix, as long as the method name has no underscore and is not an
      acronym. */
  lemma SignatureNamesStructs(name: string, suffix: string)
    requires suffix == "Request" || suffix == "Response"
    requires name != "" && '_' !in name && Lower(name) !in Acronyms
    ensures ToCamelCase(name + suffix, true) == ToCamelCase(name, true) + suffix
  {
    var w := name + suffix;
    assert '_' !in w;
    CamelCaseConcat(w, "");
    CamelCaseConcat(name, "");
    LongNoAcronym(w);
    FormatWordAppend(name, suffix);
  }

  /** A method named like an acronym, in lower case, would be declared with
      a request type that is not the struct emitted for it: the signature of
      "ip" names `IPRequest`, while the struct is `IpRequest`. */
  lemma AcronymSignatureMismatch(name: string)
    requires |name| >= 2 && Lower(name) in Acronyms && IsLowerChar(name[1])
    ensures ToCamelCase(name, true) + "Request" != ToCamelCase(name + "Request", true)
  {
    var w := name + "Request";
    forall k | 0 <= k < |name| ensures name[k] != '_' {
      assert Lower(name)[k] == LowerChar(name[k]);
      LowerCharUnderscore(name[k]);
    }
    assert '_' !in w;
    CamelCaseConcat(name, "");
    CamelCaseConcat(w, "");
    LongNoAcronym(w);
    assert (Upper(name) + "Request")[1] == UpperChar(name[1]);
    assert FormatWord(w)[1] == name[1];
  }

  /** The value of `formatMethod(token)` of format/golang.py,
      format_golang.py and fetch_types.py. */
  function MethodText(t: Token): string {
    CommentText(t.description, 2, DefaultWidth) + "\n" + Signature(t.name)
  }

  /** An interface method is its comment lines, each with the two-space
      comment prefix, followed by the signature on the last line. */
  lemma MethodLines(t: Token)
    requires '\n' !in t.name
    ensures Split(MethodText(t), "\n")
         == Prefixed(Prefix(2), CommentLines(t.description, DefaultWidth)) + [Signature(t.name)]
  {
    CamelCaseNoChar(t.name, '\n');
    var n := ToCamelCase(t.name, true);
    assert '\n' !in Signature(t.name);
    NoCharNoSplit(Signature(t.name), '\n');
    SplitConcatChar(CommentText(t.description, 2, DefaultWidth), '\n', Signature(t.name));
    CommentTextLines(t.description, 2, DefaultWidth);
  }

  /** The method body when the result type is unknown (the dedented
      template of scripts/format/golang.py): the signature line, the
      untyped query, the error check, and an empty response. */
  function UntypedCall(n: string): string {
    var query := "queryAndUnmarshal[interface{}]";
    var ret := "return &" + n + "Response { }, nil";
    "\nfunc (a *TelegramApi) " + n + "(request *" + n + "Request) (*" + n + "Response, error) {\n"
    + "  _, err := " + query + "(a.bot, \"" + n + "\", request)\n"
    + "  if err != nil {\n      return nil, err\n  }\n  " + ret + "\n}"
  }

  /** The method body when there is one result type: the query is typed and
      the response carries its result. */
  function TypedCall(n: string, returnType: string): string {
    var query := "queryAndUnmarshal[" + returnType + "]";
    var ret := "return &" + n + "Response { Result: apiResponse.Result }, nil";
    "\nfunc (a *TelegramApi) " + n + "(request *" + n + "Request) (*" + n + "Response, error) {\n"
    + "    apiResponse, err := " + query + "(a.bot, \"" + n + "\", request)\n"
    + "    if err != nil {\n        return nil, err\n    }\n    " + ret + "\n}"
  }

  /** A pattern followed by six more pieces is still contained. */
  lemma ContainsBefore(a: string, pat: string, b: string, c: string, d: string, e: string, f: string,
                       g: string)
    ensures Contains(a + pat + b + c + d + e + f + g, pat)
  {
    ContainsWhole(a, pat, "");
    assert a + pat + "" == a + pat;
    ContainsPrefix(a + pat, b, pat);
    ContainsPrefix(a + pat + b, c, pat);
    ContainsPrefix(a + pat + b + c, d, pat);
    ContainsPrefix(a + pat + b + c + d, e, pat);
    ContainsPrefix(a + pat + b + c + d + e, f, pat);
    ContainsPrefix(a + pat + b + c + d + e + f, g, pat);
  }

  lemma UntypedCallContains(n: string)
    ensures Contains(UntypedCall(n), "queryAndUnmarshal[interface{}]")
    ensures Contains(UntypedCall(n), "return &" + n + "Response { }, nil")
  {
    var head := "\nfunc (a *TelegramApi) " + n + "(request *" + n + "Request) (*" + n + "Response, error) {\n"
                + "  _, err := ";
    var query := "queryAndUnmarshal[interface{}]";
    var ret := "return &" + n + "Response { }, nil";
    var check := "  if err != nil {\n      return nil, err\n  }\n  ";
    ContainsBefore(head, query, "(a.bot, \"", n, "\", request)\n", check, ret, "\n}");
    ContainsWhole(head + query + "(a.bot, \"" + n + "\", request)\n" + check, ret, "\n}");
  }

  lemma TypedCallContains(n: string, returnType: string)
    ensures Contains(TypedCall(n, returnType), "queryAndUnmarshal[" + returnType + "]")
    ensures Contains(TypedCall(n, returnType), "return &" + n + "Response { Result: apiResponse.Result }, nil")
  {
    var head := "\nfunc (a *TelegramApi) " + n + "(request *" + n + "Request) (*" + n + "Response, error) {\n"
                + "    apiResponse, err := ";
    var query := "queryAndUnmarshal[" + returnType + "]";
    var ret := "return &" + n + "Response { Result: apiResponse.Result }, nil";
    var check := "    if err != nil {\n        return nil, err\n    }\n    ";
    ContainsBefore(head, query, "(a.bot, \"", n, "\", request)\n", check, ret, "\n}");
    ContainsWhole(head + query + "(a.bot, \"" + n + "\", request)\n" + check, ret, "\n}");
  }

  /** The value of `formatMethod(token, allTypes)` of scripts/format/golang.py. */
  ghost function ApiMethodText(fill: Fill, t: Token, allTypes: map<string, Token>): string {
    var n := ToCamelCase(t.name, true);
    var c := Candidates(t.description, allTypes);
    Comment(ScriptsGolang, fill, t.description, 0)
    + if |c| != 1 then UntypedCall(n)
      else TypedCall(n, FormatType(ScriptsGolang.Rules(), Render(t.description, TheOne(c), true)))
  }

  /** `formatMethod` of scripts/format/golang.py */
  method FormatApiMethod(fill: Fill, token: Token, allTypes: map<string, Token>) returns (r: string)
    ensures r == ApiMethodText(fill, token, allTypes)
  {
    var name := ToCamelCase(token.name, true);
    var maybeReturnType := GetResultType(token, allTypes, true);
    var result := Comment(ScriptsGolang, fill, token.description, 0);
    if |maybeReturnType| != 1 {
      return result + UntypedCall(name);
    }
    SingleCandidate(token.description, allTypes, true, maybeReturnType);
    var returnType := FormatType(ScriptsGolang.Rules(), maybeReturnType[0]);
    r := result + TypedCall(name, returnType);
  }

  /** Without a single candidate the body unmarshals into `interface{}` and
      returns an empty response; with one, it unmarshals into the Go type of
      the candidate and copies the result. */
  lemma ApiMethodCalls(fill: Fill, t: Token, allTypes: map<string, Token>)
    ensures var r := ApiMethodText(fill, t, allTypes);
      var c := Candidates(t.description, allTypes);
      var n := ToCamelCase(t.name, true);
      (|c| != 1 ==> Contains(r, "queryAndUnmarshal[interface{}]")
                    && Contains(r, "return &" + n + "Response { }, nil"))
      && (|c| == 1 ==>
            Contains(r, "queryAndUnmarshal["
                        + FormatType(ScriptsGolang.Rules(), Render(t.description, TheOne(c), true)) + "]")
            && Contains(r, "return &" + n + "Response { Result: apiResponse.Result }, nil"))
  {
    var n := ToCamelCase(t.name, true);
    var c := Candidates(t.description, allTypes);
    var com := Comment(ScriptsGolang, fill, t.description, 0);
    if |c| != 1 {
      UntypedCallContains(n);
      ContainsSuffix(com, UntypedCall(n), "queryAndUnmarshal[interface{}]");
      ContainsSuffix(com, UntypedCall(n), "return &" + n + "Response { }, nil");
    } else {
      var ty := FormatType(ScriptsGolang.Rules(), Render(t.description, TheOne(c), true));
      TypedCallContains(n, ty);
      ContainsSuffix(com, TypedCall(n, ty), "queryAndUnmarshal[" + ty + "]");
      ContainsSuffix(com, TypedCall(n, ty), "return &" + n + "Response { Result: apiResponse.Result }, nil");
    }
  }
}
