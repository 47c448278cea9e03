/** The top-level drivers: `format` of format/golang.py, `formatTokens` of
    scripts/format/golang.py and the main block of fetch_types.py. Each one
    indexes the tokens by name, emits the struct types, merges the members of
    every oneof type into one struct, and then emits the request and response
    types and either the bot interface or the API methods. */
module Driver {
  import opened Text
  import opened ApiParser
  import opened GoTypes
  import opened ResultType
  import opened Render

  /** `ONEOF_TYPES`: each oneof type and its members, in declaration order. */
  const OneofTypes: seq<(string, seq<string>)> := [
    ("MessageOrigin", ["MessageOriginUser", "MessageOriginHiddenUser", "MessageOriginChat", "MessageOriginChannel"]),
    ("ReactionType", ["ReactionTypeEmoji", "ReactionTypeCustomEmoji"])
  ]

  /** The keys of `ONEOF_TYPES`. */
  const OneofNames: set<string> := {"MessageOrigin", "ReactionType"}

  /** The three drivers, and the generator whose formatters each one calls. */
  datatype Variant = Format | Scripts | Fetch {
    function Gen(): Generator {
      match this
      case Format => FormatGolang
      case Scripts => ScriptsGolang
      case Fetch => FetchTypes
    }
  }

  /** Why a driver stops: `t.name[0]` of an empty name raises `IndexError`,
      and a oneof member that was not extracted raises `KeyError`. */
  datatype Error = EmptyName | MissingMember(name: string)

  datatype Result<T> = Ok(value: T) | Err(error: Error)

  predicate AllNamed(ts: seq<Token>) {
    forall i :: 0 <= i < |ts| ==> ts[i].name != ""
  }

  /** Emitted as a struct: the name does not start with a lower-case letter
      and is not a oneof type. */
  predicate IsStructToken(t: Token) {
    t.name != "" && !IsLowerChar(t.name[0]) && t.name !in OneofNames
  }

  /** Emitted as a method: the name does not start with an upper-case letter
      and is not skipped. */
  predicate IsMethodToken(t: Token) {
    t.name != "" && !IsUpperChar(t.name[0]) && t.name !in SkipMethods
  }

  /** `tokenByName`: every token under its name; a later token overwrites
      an earlier one of the same name. */
  function ByName(ts: seq<Token>): map<string, Token>
    decreases |ts|
  {
    if ts == [] then map[]
    else ByName(ts[..|ts| - 1])[ts[|ts| - 1].name := ts[|ts| - 1]]
  }

  /** `structNames`: the struct tokens under their lower-cased names, a
      later one overwriting an earlier one. */
  function StructNames(ts: seq<Token>): map<string, Token>
    decreases |ts|
  {
    if ts == [] then map[]
    else
      var m := StructNames(ts[..|ts| - 1]);
      var t := ts[|ts| - 1];
      if IsStructToken(t) then m[Lower(t.name) := t] else m
  }

  /** The struct tokens, in order. */
  function StructTokens(ts: seq<Token>): seq<Token>
    decreases |ts|
  {
    if ts == [] then []
    else StructTokens(ts[..|ts| - 1]) + if IsStructToken(ts[|ts| - 1]) then [ts[|ts| - 1]] else []
  }

  /** The method tokens, in order. */
  function MethodTokens(ts: seq<Token>): seq<Token>
    decreases |ts|
  {
    if ts == [] then []
    else MethodTokens(ts[..|ts| - 1]) + if IsMethodToken(ts[|ts| - 1]) then [ts[|ts| - 1]] else []
  }

  /** `formatStruct` of each token. */
  function StructTexts(g: Generator, fill: Fill, ts: seq<Token>): (r: seq<string>)
    ensures |r| == |ts|
    decreases |ts|
  {
    if ts == [] then [] else StructTexts(g, fill, ts[..|ts| - 1]) + [StructText(g, fill, ts[|ts| - 1])]
  }

  /** `[tokenByName[t] for t in ts]`: the first missing name raises. */
  function Lookup(m: map<string, Token>, names: seq<string>): Result<seq<Token>>
    decreases |names|
  {
    if names == [] then Ok([])
    else if names[0] !in m then Err(MissingMember(names[0]))
    else
      match Lookup(m, names[1..])
      case Err(e) => Err(e)
      case Ok(ts) => Ok([m[names[0]]] + ts)
  }

  function Blank(p: Param): Param {
    Param(p.name, p.typeName, Text(""), p.description)
  }

  function Names(ps: seq<Param>): (ns: seq<string>)
    ensures |ns| == |ps| && forall i :: 0 <= i < |ps| ==> ns[i] == ps[i].name
  {
    seq(|ps|, i requires 0 <= i < |ps| => ps[i].name)
  }

  /** The first index of `n`, or `|ns|`. */
  function Position(ns: seq<string>, n: string): (i: nat)
    ensures i <= |ns|
  {
    if ns == [] then 0 else if ns[0] == n then 0 else 1 + Position(ns[1..], n)
  }

  /** `Position` finds the first occurrence, and only misses an absent name. */
  lemma {:induction false} PositionFirst(ns: seq<string>, n: string)
    ensures var i := Position(ns, n);
      (i < |ns| <==> n in ns) && (i < |ns| ==> ns[i] == n) && forall j :: 0 <= j < i ==> ns[j] != n
    decreases |ns|
  {
    if ns != [] && ns[0] != n {
      PositionFirst(ns[1..], n);
      assert forall j :: 1 <= j < |ns| ==> ns[j] == ns[1..][j - 1];
      assert n in ns[1..] <==> n in ns;
    }
  }

  /** `fields[p.name] = p` on a dict kept in insertion order: an existing
      key keeps its place and takes the new value, a new key goes last. */
  function Upsert(fs: seq<Param>, p: Param): seq<Param> {
    var i := Position(Names(fs), p.name);
    if i < |fs| then fs[i := p] else fs + [p]
  }

  /** The merged field dict after the parameters, in order. */
  function Merge(ps: seq<Param>): seq<Param>
    decreases |ps|
  {
    if ps == [] then [] else Upsert(Merge(ps[..|ps| - 1]), Blank(ps[|ps| - 1]))
  }

  /** The names in order of first appearance. */
  function Dedup(ns: seq<string>): seq<string>
    decreases |ns|
  {
    if ns == [] then []
    else
      var d := Dedup(ns[..|ns| - 1]);
      if ns[|ns| - 1] in d then d else d + [ns[|ns| - 1]]
  }

  function TokenNames(ts: seq<Token>): (ns: seq<string>)
    ensures |ns| == |ts| && forall i :: 0 <= i < |ts| ==> ns[i] == ts[i].name
  {
    seq(|ts|, i requires 0 <= i < |ts| => ts[i].name)
  }

  /** The parameters of the members, member by member. */
  function MemberParams(ts: seq<Token>): seq<Param>
    decreases |ts|
  {
    if ts == [] then [] else MemberParams(ts[..|ts| - 1]) + ts[|ts| - 1].params
  }

  /** The struct that stands for a oneof type. */
  function MergedToken(k: string, members: seq<Token>): Token {
    Token(k, "Merged fields of " + Join(TokenNames(members), ", "), Merge(MemberParams(members)))
  }

  /** The merged token of each oneof type, or the first lookup failure. */
  function MergedTokens(m: map<string, Token>, oneofs: seq<(string, seq<string>)>): Result<seq<Token>>
    decreases |oneofs|
  {
    if oneofs == [] then Ok([])
    else
      match MergedTokens(m, oneofs[..|oneofs| - 1])
      case Err(e) => Err(e)
      case Ok(ts) =>
        match Lookup(m, oneofs[|oneofs| - 1].1)
        case Err(e) => Err(e)
        case Ok(members) => Ok(ts + [MergedToken(oneofs[|oneofs| - 1].0, members)])
  }

  /** Each token's text followed by an empty line: the shape of the
      request, interface and API method loops. */
  function Chunks(ms: seq<Token>, text: Token -> string): (r: seq<string>)
    ensures |r| == 2 * |ms|
    decreases |ms|
  {
    if ms == [] then [] else Chunks(ms[..|ms| - 1], text) + [text(ms[|ms| - 1]), ""]
  }

  ghost function RequestText(g: Generator, fill: Fill, idx: map<string, Token>): Token -> string {
    t => RequestResponseText(g, fill, t, idx)
  }

  /** The request and response types of each method, each pair followed by
      an empty line. */
  ghost function RequestChunks(g: Generator, fill: Fill, ms: seq<Token>, idx: map<string, Token>): seq<string> {
    Chunks(ms, RequestText(g, fill, idx))
  }

  /** The interface methods, each followed by an empty line. */
  function InterfaceChunks(ms: seq<Token>): seq<string> {
    Chunks(ms, MethodText)
  }

  ghost function ApiText(fill: Fill, idx: map<string, Token>): Token -> string {
    t => ApiMethodText(fill, t, idx)
  }

  /** The API method bodies of scripts/format/golang.py, each followed by an
      empty line. */
  ghost function ApiChunks(fill: Fill, ms: seq<Token>, idx: map<string, Token>): seq<string> {
    Chunks(ms, ApiText(fill, idx))
  }

  function Head(v: Variant): seq<string> {
    if v == Scripts then ["// Telegram bot API classes and enpoint", "package tgbot"]
    else ["package telegram"]
  }

  const OneofHeader: string := "// Oneof type fields are merged into one"

  const RequestHeader: string := "// Bot request and response types"

  /** The dedented `TelegramApi` struct and constructor of scripts/format/golang.py. */
  const ApiPreamble: string :=
    "\n// Bot interface\ntype TelegramApi struct {\n  bot TelegramBot\n}\n\n"
    + "func NewTelegramApi (bot TelegramBot) *TelegramApi {\n    return &TelegramApi { bot: bot }\n}\n"

  function InterfaceName(v: Variant): string {
    if v == Fetch then "Telegram" else "TelegramBot"
  }

  /** What follows the request and response types. */
  ghost function Tail(v: Variant, fill: Fill, ms: seq<Token>, idx: map<string, Token>): seq<string> {
    if v == Scripts then [ApiPreamble] + ApiChunks(fill, ms, idx)
    else ["// Bot interface", "type " + InterfaceName(v) + " interface {"] + InterfaceChunks(ms) + ["}"]
  }

  /** The list of output pieces. */
  ghost function Lines(v: Variant, fill: Fill, tokens: seq<Token>, merged: seq<Token>): seq<string> {
    var g := v.Gen();
    var ms := MethodTokens(tokens);
    Head(v) + StructTexts(g, fill, StructTokens(tokens))
    + [OneofHeader] + StructTexts(g, fill, merged)
    + [RequestHeader] + RequestChunks(g, fill, ms, StructNames(tokens))
    + Tail(v, fill, ms, StructNames(tokens))
  }

  /** `"\n".join(result)`; fetch_types.py prints each piece on its own line,
      which adds one more line break at the end. */
  function Finish(v: Variant, lines: seq<string>): string {
    if v == Fetch then Join(lines, "\n") + "\n" else Join(lines, "\n")
  }

  /** What a driver produces for the tokens. */
  ghost function Output(v: Variant, fill: Fill, tokens: seq<Token>): Result<string> {
    if !AllNamed(tokens) then Err(EmptyName)
    else
      match MergedTokens(ByName(tokens), OneofTypes)
      case Err(e) => Err(e)
      case Ok(merged) => Ok(Finish(v, Lines(v, fill, tokens, merged)))
  }

  /** One more token in the two indexes of the first loop. */
  lemma IndexStep(ts: seq<Token>, i: nat)
    requires i < |ts|
    ensures ByName(ts[..i + 1]) == ByName(ts[..i])[ts[i].name := ts[i]]
    ensures IsStructToken(ts[i]) ==> StructNames(ts[..i + 1]) == StructNames(ts[..i])[Lower(ts[i].name) := ts[i]]
    ensures !IsStructToken(ts[i]) ==> StructNames(ts[..i + 1]) == StructNames(ts[..i])
  {
    assert ts[..i + 1][..i] == ts[..i];
  }

  lemma NamedStep(ts: seq<Token>, i: nat)
    requires i < |ts| && AllNamed(ts[..i]) && ts[i].name != ""
    ensures AllNamed(ts[..i + 1])
  {
    assert forall j :: 0 <= j < i ==> ts[..i + 1][j] == ts[..i][j];
  }

  lemma StructsKeep(ts: seq<Token>, i: nat)
    requires i < |ts| && IsStructToken(ts[i])
    ensures StructTokens(ts[..i + 1]) == StructTokens(ts[..i]) + [ts[i]]
  {
    assert ts[..i + 1][..i] == ts[..i];
  }

  lemma StructsDrop(ts: seq<Token>, i: nat)
    requires i < |ts| && !IsStructToken(ts[i])
    ensures StructTokens(ts[..i + 1]) == StructTokens(ts[..i])
  {
    assert ts[..i + 1][..i] == ts[..i];
    assert StructTokens(ts[..i]) + [] == StructTokens(ts[..i]);
  }

  lemma MethodsKeep(ts: seq<Token>, i: nat)
    requires i < |ts| && IsMethodToken(ts[i])
    ensures MethodTokens(ts[..i + 1]) == MethodTokens(ts[..i]) + [ts[i]]
  {
    assert ts[..i + 1][..i] == ts[..i];
  }

  lemma MethodsDrop(ts: seq<Token>, i: nat)
    requires i < |ts| && !IsMethodToken(ts[i])
    ensures MethodTokens(ts[..i + 1]) == MethodTokens(ts[..i])
  {
    assert ts[..i + 1][..i] == ts[..i];
    assert MethodTokens(ts[..i]) + [] == MethodTokens(ts[..i]);
  }

  lemma StructTextsSnoc(g: Generator, fill: Fill, ts: seq<Token>, t: Token, lines: seq<string>, s: string)
    requires lines == StructTexts(g, fill, ts) && s == StructText(g, fill, t)
    ensures lines + [s] == StructTexts(g, fill, ts + [t])
  {
    assert (ts + [t])[..|ts|] == ts;
  }

  /** One round of the first loop for a named token: record it under its
      lower-cased name and format it, when it is a struct token. */
  method StructRound(g: Generator, fill: Fill, tokens: seq<Token>, i: nat, ghost ss: seq<Token>,
                     structNames: map<string, Token>, structs: seq<string>)
    returns (ghost ss': seq<Token>, structNames': map<string, Token>, structs': seq<string>)
    requires i < |tokens| && tokens[i].name != ""
    requires structNames == StructNames(tokens[..i])
    requires ss == StructTokens(tokens[..i]) && structs == StructTexts(g, fill, ss)
    ensures structNames' == StructNames(tokens[..i + 1])
    ensures ss' == StructTokens(tokens[..i + 1]) && structs' == StructTexts(g, fill, ss')
  {
    var t := tokens[i];
    IndexStep(tokens, i);
    if !(IsLowerChar(t.name[0]) || t.name in OneofNames) {
      assert IsStructToken(t);
      StructsKeep(tokens, i);
      structNames' := structNames[Lower(t.name) := t];
      var s := FormatStruct(g, fill, t);
      StructTextsSnoc(g, fill, ss, t, structs, s);
      structs' := structs + [s];
      ss' := ss + [t];
    } else {
      StructsDrop(tokens, i);
      ss', structNames', structs' := ss, structNames, structs;
    }
  }

  /** The first loop: index every token, and format the struct tokens. */
  method IndexTokens(g: Generator, fill: Fill, tokens: seq<Token>)
    returns (named: bool, tokenByName: map<string, Token>, structNames: map<string, Token>,
             structs: seq<string>)
    ensures named <==> AllNamed(tokens)
    ensures named ==> tokenByName == ByName(tokens) && structNames == StructNames(tokens)
                      && structs == StructTexts(g, fill, StructTokens(tokens))
  {
    tokenByName, structNames, structs := map[], map[], [];
    ghost var ss: seq<Token> := [];
    var i := 0;
    while i < |tokens|
      invariant 0 <= i <= |tokens|
      invariant AllNamed(tokens[..i])
      invariant tokenByName == ByName(tokens[..i]) && structNames == StructNames(tokens[..i])
      invariant ss == StructTokens(tokens[..i])
      invariant structs == StructTexts(g, fill, ss)
    {
      var t := tokens[i];
      IndexStep(tokens, i);
      tokenByName := tokenByName[t.name := t];
      if t.name == "" {
        return false, tokenByName, structNames, structs;
      }
      ss, structNames, structs := StructRound(g, fill, tokens, i, ss, structNames, structs);
      NamedStep(tokens, i);
      i := i + 1;
    }
    TakeAll(tokens);
    named := true;
  }

  lemma MemberParamsSnoc(ts: seq<Token>, j: nat)
    requires j < |ts|
    ensures MemberParams(ts[..j + 1]) == MemberParams(ts[..j]) + ts[j].params
  {
    assert ts[..j + 1][..j] == ts[..j];
  }

  lemma TokenNamesSnoc(ts: seq<Token>, j: nat)
    requires j < |ts|
    ensures TokenNames(ts[..j + 1]) == TokenNames(ts[..j]) + [ts[j].name]
  {
  }

  lemma AppendNone(a: seq<Param>, ps: seq<Param>)
    ensures a + ps[..0] == a
  {
  }

  lemma MergeSnoc(a: seq<Param>, ps: seq<Param>, l: nat, fields: seq<Param>, p: Param)
    requires l < |ps| && fields == Merge(a + ps[..l]) && p == Blank(ps[l])
    ensures Upsert(fields, p) == Merge(a + ps[..l + 1])
  {
    assert (a + ps[..l + 1])[..|a + ps[..l + 1]| - 1] == a + ps[..l];
  }

  /** The inner loop: upsert the blanked parameters of one member. */
  method MergeParams(ghost a: seq<Param>, fields: seq<Param>, ps: seq<Param>) returns (fields': seq<Param>)
    requires fields == Merge(a)
    ensures fields' == Merge(a + ps)
  {
    fields' := fields;
    var l := 0;
    AppendNone(a, ps);
    while l < |ps|
      invariant 0 <= l <= |ps|
      invariant fields' == Merge(a + ps[..l])
    {
      var p := Param(ps[l].name, ps[l].typeName, Text(""), ps[l].description);
      MergeSnoc(a, ps, l, fields', p);
      fields' := Upsert(fields', p);
      l := l + 1;
    }
    TakeAll(ps);
  }

  /** The loops that build `names` and `fields` for one oneof type. */
  method MergeMembers(members: seq<Token>) returns (names: seq<string>, fields: seq<Param>)
    ensures names == TokenNames(members)
    ensures fields == Merge(MemberParams(members))
  {
    names, fields := [], [];
    var j := 0;
    while j < |members|
      invariant 0 <= j <= |members|
      invariant names == TokenNames(members[..j])
      invariant fields == Merge(MemberParams(members[..j]))
    {
      TokenNamesSnoc(members, j);
      MemberParamsSnoc(members, j);
      names := names + [members[j].name];
      fields := MergeParams(MemberParams(members[..j]), fields, members[j].params);
      j := j + 1;
    }
    TakeAll(members);
  }

  lemma MergedTokensSnoc(m: map<string, Token>, os: seq<(string, seq<string>)>, o: nat)
    requires o < |os|
    ensures MergedTokens(m, os[..o + 1])
         == match MergedTokens(m, os[..o])
            case Err(e) => Err(e)
            case Ok(ts) =>
              match Lookup(m, os[o].1)
              case Err(e) => Err(e)
              case Ok(members) => Ok(ts + [MergedToken(os[o].0, members)])
  {
    assert os[..o + 1][..o] == os[..o];
  }

  /** Once a lookup has failed, later oneof types do not change the error. */
  lemma {:induction false} MergedTokensErr(m: map<string, Token>, os: seq<(string, seq<string>)>, o: nat)
    requires o <= |os| && MergedTokens(m, os[..o]).Err?
    ensures MergedTokens(m, os) == MergedTokens(m, os[..o])
    decreases |os| - o
  {
    if o < |os| {
      MergedTokensSnoc(m, os, o);
      MergedTokensErr(m, os, o + 1);
    } else {
      assert os[..o] == os;
    }
  }

  /** One round of the loop over `ONEOF_TYPES`, once its members are found:
      merge them and format the merged struct. */
  method OneofRound(g: Generator, fill: Fill, k: string, members: seq<Token>, ghost merged: seq<Token>,
                    result: seq<string>)
    returns (ghost merged': seq<Token>, result': seq<string>)
    requires result == StructTexts(g, fill, merged)
    ensures merged' == merged + [MergedToken(k, members)] && result' == StructTexts(g, fill, merged')
  {
    var names, fields := MergeMembers(members);
    var s := FormatStruct(g, fill, Token(k, "Merged fields of " + Join(names, ", "), fields));
    StructTextsSnoc(g, fill, merged, MergedToken(k, members), result, s);
    result' := result + [s];
    merged' := merged + [MergedToken(k, members)];
  }

  /** The loop over `ONEOF_TYPES`: the merged structs, or the first missing member. */
  method MergeOneofs(g: Generator, fill: Fill, tokenByName: map<string, Token>) returns (r: Result<seq<string>>)
    ensures MergedTokens(tokenByName, OneofTypes).Err? ==> r == Err(MergedTokens(tokenByName, OneofTypes).error)
    ensures MergedTokens(tokenByName, OneofTypes).Ok? ==>
              r == Ok(StructTexts(g, fill, MergedTokens(tokenByName, OneofTypes).value))
  {
    var result: seq<string> := [];
    ghost var merged: seq<Token> := [];
    var o := 0;
    while o < |OneofTypes|
      invariant 0 <= o <= |OneofTypes|
      invariant MergedTokens(tokenByName, OneofTypes[..o]) == Ok(merged)
      invariant result == StructTexts(g, fill, merged)
    {
      var k := OneofTypes[o].0;
      MergedTokensSnoc(tokenByName, OneofTypes, o);
      var looked := Lookup(tokenByName, OneofTypes[o].1);
      if looked.Err? {
        MergedTokensErr(tokenByName, OneofTypes, o + 1);
        return Err(looked.error);
      }
      merged, result := OneofRound(g, fill, k, looked.value, merged, result);
      o := o + 1;
    }
    TakeAll(OneofTypes);
    r := Ok(result);
  }

  lemma RequestChunksSnoc(g: Generator, fill: Fill, ms: seq<Token>, t: Token, idx: map<string, Token>,
                          lines: seq<string>, s: string)
    requires lines == RequestChunks(g, fill, ms, idx) && s == RequestResponseText(g, fill, t, idx)
    ensures lines + [s, ""] == RequestChunks(g, fill, ms + [t], idx)
  {
    assert (ms + [t])[..|ms|] == ms;
  }

  /** One round of the request loop: a method token gets its request and
      response types and an empty line. */
  method RequestRound(g: Generator, fill: Fill, tokens: seq<Token>, i: nat, structNames: map<string, Token>,
                      ghost ms: seq<Token>, lines: seq<string>)
    returns (ghost ms': seq<Token>, lines': seq<string>)
    requires i < |tokens| && tokens[i].name != ""
    requires ms == MethodTokens(tokens[..i]) && lines == RequestChunks(g, fill, ms, structNames)
    ensures ms' == MethodTokens(tokens[..i + 1]) && lines' == RequestChunks(g, fill, ms', structNames)
  {
    var t := tokens[i];
    if !(IsUpperChar(t.name[0]) || t.name in SkipMethods) {
      MethodsKeep(tokens, i);
      var s := FormatRequestResponse(g, fill, t, structNames);
      RequestChunksSnoc(g, fill, ms, t, structNames, lines, s);
      ms', lines' := ms + [t], lines + [s, ""];
    } else {
      MethodsDrop(tokens, i);
      ms', lines' := ms, lines;
    }
  }

  /** The loop emitting the request and response types. */
  method RequestTypes(g: Generator, fill: Fill, tokens: seq<Token>, structNames: map<string, Token>)
    returns (lines: seq<string>)
    requires AllNamed(tokens)
    ensures lines == RequestChunks(g, fill, MethodTokens(tokens), structNames)
  {
    lines := [];
    ghost var ms: seq<Token> := [];
    var i := 0;
    while i < |tokens|
      invariant 0 <= i <= |tokens|
      invariant ms == MethodTokens(tokens[..i]) && lines == RequestChunks(g, fill, ms, structNames)
    {
      ms, lines := RequestRound(g, fill, tokens, i, structNames, ms, lines);
      i := i + 1;
    }
    TakeAll(tokens);
  }

  lemma InterfaceChunksSnoc(ms: seq<Token>, t: Token)
    ensures InterfaceChunks(ms + [t]) == InterfaceChunks(ms) + [MethodText(t), ""]
  {
    assert (ms + [t])[..|ms|] == ms;
  }

  lemma ApiChunksSnoc(fill: Fill, ms: seq<Token>, t: Token, idx: map<string, Token>, lines: seq<string>, s: string)
    requires lines == ApiChunks(fill, ms, idx) && s == ApiMethodText(fill, t, idx)
    ensures lines + [s, ""] == ApiChunks(fill, ms + [t], idx)
  {
    assert (ms + [t])[..|ms|] == ms;
  }

  /** The loop emitting the interface methods of format/golang.py and
      fetch_types.py. */
  method InterfaceMethods(tokens: seq<Token>) returns (lines: seq<string>)
    requires AllNamed(tokens)
    ensures lines == InterfaceChunks(MethodTokens(tokens))
  {
    lines := [];
    ghost var ms: seq<Token> := [];
    var i := 0;
    while i < |tokens|
      invariant 0 <= i <= |tokens|
      invariant ms == MethodTokens(tokens[..i])
      invariant lines == InterfaceChunks(ms)
    {
      var t := tokens[i];
      assert t.name != "";
      if !(IsUpperChar(t.name[0]) || t.name in SkipMethods) {
        assert IsMethodToken(t);
        MethodsKeep(tokens, i);
        InterfaceChunksSnoc(ms, t);
        lines := lines + [MethodText(t), ""];
        ms := ms + [t];
      } else {
        MethodsDrop(tokens, i);
      }
      i := i + 1;
    }
    TakeAll(tokens);
  }

  /** One round of the API method loop: a method token gets its method
      body and an empty line. */
  method ApiRound(fill: Fill, tokens: seq<Token>, i: nat, structNames: map<string, Token>,
                  ghost ms: seq<Token>, lines: seq<string>)
    returns (ghost ms': seq<Token>, lines': seq<string>)
    requires i < |tokens| && tokens[i].name != ""
    requires ms == MethodTokens(tokens[..i]) && lines == ApiChunks(fill, ms, structNames)
    ensures ms' == MethodTokens(tokens[..i + 1]) && lines' == ApiChunks(fill, ms', structNames)
  {
    var t := tokens[i];
    if !(IsUpperChar(t.name[0]) || t.name in SkipMethods) {
      MethodsKeep(tokens, i);
      var s := FormatApiMethod(fill, t, structNames);
      ApiChunksSnoc(fill, ms, t, structNames, lines, s);
      ms', lines' := ms + [t], lines + [s, ""];
    } else {
      MethodsDrop(tokens, i);
      ms', lines' := ms, lines;
    }
  }

  /** The loop emitting the API methods of scripts/format/golang.py. */
  method ApiMethods(fill: Fill, tokens: seq<Token>, structNames: map<string, Token>) returns (lines: seq<string>)
    requires AllNamed(tokens)
    ensures lines == ApiChunks(fill, MethodTokens(tokens), structNames)
  {
    lines := [];
    ghost var ms: seq<Token> := [];
    var i := 0;
    while i < |tokens|
      invariant 0 <= i <= |tokens|
      invariant ms == MethodTokens(tokens[..i]) && lines == ApiChunks(fill, ms, structNames)
    {
      ms, lines := ApiRound(fill, tokens, i, structNames, ms, lines);
      i := i + 1;
    }
    TakeAll(tokens);
  }

  /** `format`, `formatTokens` and the main block of fetch_types.py. */
  method FormatTokens(v: Variant, fill: Fill, tokens: seq<Token>) returns (r: Result<string>)
    ensures r == Output(v, fill, tokens)
  {
    var g := v.Gen();
    var named, tokenByName, structNames, structs := IndexTokens(g, fill, tokens);
    if !named {
      return Err(EmptyName);
    }
    var merged := MergeOneofs(g, fill, tokenByName);
    if merged.Err? {
      return Err(merged.error);
    }
    var requests := RequestTypes(g, fill, tokens, structNames);
    var tail;
    if v == Scripts {
      var methods := ApiMethods(fill, tokens, structNames);
      tail := [ApiPreamble] + methods;
    } else {
      var methods := InterfaceMethods(tokens);
      tail := ["// Bot interface", "type " + InterfaceName(v) + " interface {"] + methods + ["}"];
    }
    var result := Head(v) + structs + [OneofHeader] + merged.value + [RequestHeader] + requests + tail;
    r := Ok(Finish(v, result));
  }
  /** A name is in `tokenByName` exactly when some token has it, and it
      maps to the last such token. */
  lemma {:induction false} ByNameLast(ts: seq<Token>, k: string)
    ensures k in ByName(ts) <==> exists i :: 0 <= i < |ts| && ts[i].name == k
    ensures k in ByName(ts) ==>
      exists i :: 0 <= i < |ts| && ts[i].name == k && ByName(ts)[k] == ts[i]
                  && forall j :: i < j < |ts| ==> ts[j].name != k
    decreases |ts|
  {
    ByNameHas(ts, k);
    if ts != [] {
      var n := |ts| - 1;
      var pre := ts[..n];
      ByNameLast(pre, k);
      if ts[n].name == k {
        assert ByName(ts)[k] == ts[n];
      } else if k in ByName(ts) {
        assert k in ByName(pre) && ByName(ts)[k] == ByName(pre)[k];
        var i :| 0 <= i < n && pre[i].name == k && ByName(pre)[k] == pre[i]
                 && forall j :: i < j < n ==> pre[j].name != k;
        assert pre[i] == ts[i];
        forall j | i < j < |ts| ensures ts[j].name != k {
          if j < n { assert pre[j] == ts[j]; }
        }
      }
    }
  }

  /** A name is indexed exactly when some token has it. */
  lemma {:induction false} ByNameHas(ts: seq<Token>, k: string)
    ensures k in ByName(ts) <==> exists i :: 0 <= i < |ts| && ts[i].name == k
    decreases |ts|
  {
    if ts != [] {
      var n := |ts| - 1;
      var pre := ts[..n];
      ByNameHas(pre, k);
      if ts[n].name != k {
        assert k in ByName(ts) <==> k in ByName(pre);
        if k in ByName(pre) {
          var i :| 0 <= i < n && pre[i].name == k;
          assert pre[i] == ts[i];
        }
        if exists i :: 0 <= i < |ts| && ts[i].name == k {
          var i :| 0 <= i < |ts| && ts[i].name == k;
          assert pre[i] == ts[i];
        }
      }
    }
  }

  /** `t` is a struct token filed under `k` in `structNames`. */
  predicate StructKey(t: Token, k: string) {
    IsStructToken(t) && Lower(t.name) == k
  }

  /** A key is in `structNames` exactly when it is the lower-cased name of
      a struct token. */
  lemma {:induction false} StructNamesHas(ts: seq<Token>, k: string)
    ensures k in StructNames(ts) <==> exists i :: 0 <= i < |ts| && StructKey(ts[i], k)
    decreases |ts|
  {
    if ts != [] {
      var n := |ts| - 1;
      var pre := ts[..n];
      StructNamesHas(pre, k);
      if !StructKey(ts[n], k) {
        assert k in StructNames(ts) <==> k in StructNames(pre);
        if k in StructNames(pre) {
          var i :| 0 <= i < n && StructKey(pre[i], k);
          assert pre[i] == ts[i];
        }
        if exists i :: 0 <= i < |ts| && StructKey(ts[i], k) {
          var i :| 0 <= i < |ts| && StructKey(ts[i], k);
          assert pre[i] == ts[i];
        }
      }
    }
  }

  /** A key is in `structNames` exactly when it is the lower-cased name of
      a struct token, and it maps to the last such token. */
  lemma {:induction false} StructNamesLast(ts: seq<Token>, k: string)
    ensures k in StructNames(ts) <==> exists i :: 0 <= i < |ts| && StructKey(ts[i], k)
    ensures k in StructNames(ts) ==>
      exists i :: 0 <= i < |ts| && StructKey(ts[i], k) && StructNames(ts)[k] == ts[i]
                  && forall j :: i < j < |ts| ==> !StructKey(ts[j], k)
    decreases |ts|
  {
    StructNamesHas(ts, k);
    if ts != [] {
      var n := |ts| - 1;
      var pre := ts[..n];
      StructNamesLast(pre, k);
      if StructKey(ts[n], k) {
        assert StructNames(ts)[k] == ts[n];
      } else if k in StructNames(ts) {
        assert k in StructNames(pre) && StructNames(ts)[k] == StructNames(pre)[k];
        var i :| 0 <= i < n && StructKey(pre[i], k) && StructNames(pre)[k] == pre[i]
                 && forall j :: i < j < n ==> !StructKey(pre[j], k);
        assert pre[i] == ts[i];
        forall j | i < j < |ts| ensures !StructKey(ts[j], k) {
          if j < n { assert pre[j] == ts[j]; }
        }
      }
    }
  }

  /** The struct tokens are exactly the tokens that are formatted as structs. */
  lemma {:induction false} StructTokensIff(ts: seq<Token>, t: Token)
    ensures t in StructTokens(ts) <==> t in ts && IsStructToken(t)
    decreases |ts|
  {
    if ts != [] {
      var n := |ts| - 1;
      StructTokensIff(ts[..n], t);
      assert ts == ts[..n] + [ts[n]];
    }
  }

  /** The method tokens are exactly the tokens that are formatted as methods. */
  lemma {:induction false} MethodTokensIff(ts: seq<Token>, t: Token)
    ensures t in MethodTokens(ts) <==> t in ts && IsMethodToken(t)
    decreases |ts|
  {
    if ts != [] {
      var n := |ts| - 1;
      MethodTokensIff(ts[..n], t);
      assert ts == ts[..n] + [ts[n]];
    }
  }

  /** `structNames` is keyed by the lower-cased names of its tokens, so the
      result types the drivers ask for are always distinct (see
      `ResultType.GetResultType`). */
  lemma StructNamesKeyed(ts: seq<Token>)
    ensures KeyedByLowerName(StructNames(ts))
  {
    forall k | k in StructNames(ts) ensures k == Lower(StructNames(ts)[k].name) {
      StructNamesLast(ts, k);
    }
  }

  /** `r` is the subsequence of `ts` at the strictly increasing positions
      `idx`, which are exactly the positions whose token `keep` accepts. */
  ghost predicate Picks(ts: seq<Token>, r: seq<Token>, idx: seq<nat>, keep: Token -> bool) {
    && |idx| == |r|
    && (forall k :: 0 <= k < |idx| ==> idx[k] < |ts| && ts[idx[k]] == r[k])
    && (forall k, l :: 0 <= k < l < |idx| ==> idx[k] < idx[l])
    && (forall i :: 0 <= i < |ts| ==> (keep(ts[i]) <==> i in idx))
  }

  lemma PicksSnoc(ts: seq<Token>, r: seq<Token>, idx: seq<nat>, keep: Token -> bool)
    requires ts != [] && Picks(ts[..|ts| - 1], r, idx, keep)
    ensures var n := |ts| - 1;
      Picks(ts, r + (if keep(ts[n]) then [ts[n]] else []), idx + (if keep(ts[n]) then [n] else []), keep)
  {
    var n := |ts| - 1;
    forall k | 0 <= k < |idx| ensures ts[idx[k]] == ts[..n][idx[k]] { }
    forall i | 0 <= i < n ensures ts[i] == ts[..n][i] { }
  }

  /** The positions of the struct tokens, in order. */
  ghost function StructPositions(ts: seq<Token>): seq<nat>
    decreases |ts|
  {
    if ts == [] then []
    else StructPositions(ts[..|ts| - 1]) + if IsStructToken(ts[|ts| - 1]) then [|ts| - 1] else []
  }

  /** The positions of the method tokens, in order. */
  ghost function MethodPositions(ts: seq<Token>): seq<nat>
    decreases |ts|
  {
    if ts == [] then []
    else MethodPositions(ts[..|ts| - 1]) + if IsMethodToken(ts[|ts| - 1]) then [|ts| - 1] else []
  }

  /** The emitted structs are the struct tokens in their order, each once
      per occurrence. */
  lemma {:induction false} StructTokensOrder(ts: seq<Token>)
    ensures Picks(ts, StructTokens(ts), StructPositions(ts), IsStructToken)
    decreases |ts|
  {
    if ts != [] {
      StructTokensOrder(ts[..|ts| - 1]);
      PicksSnoc(ts, StructTokens(ts[..|ts| - 1]), StructPositions(ts[..|ts| - 1]), IsStructToken);
    }
  }

  /** The emitted methods are the method tokens in their order, each once
      per occurrence. */
  lemma {:induction false} MethodTokensOrder(ts: seq<Token>)
    ensures Picks(ts, MethodTokens(ts), MethodPositions(ts), IsMethodToken)
    decreases |ts|
  {
    if ts != [] {
      MethodTokensOrder(ts[..|ts| - 1]);
      PicksSnoc(ts, MethodTokens(ts[..|ts| - 1]), MethodPositions(ts[..|ts| - 1]), IsMethodToken);
    }
  }

  /** A token is formatted both as a struct and as a method exactly when its
      name starts with a character that is neither a lower-case nor an
      upper-case letter and it is neither a oneof type nor skipped. */
  lemma Buckets(t: Token)
    requires t.name != ""
    ensures IsStructToken(t) && IsMethodToken(t) <==>
      !IsLowerChar(t.name[0]) && !IsUpperChar(t.name[0]) && t.name !in OneofNames && t.name !in SkipMethods
    ensures IsLowerChar(t.name[0]) ==> !IsStructToken(t)
    ensures IsUpperChar(t.name[0]) ==> !IsMethodToken(t)
  {
  }

  lemma PositionUnique(ns: seq<string>, n: string, i: nat)
    requires i < |ns| && ns[i] == n && forall j :: 0 <= j < i ==> ns[j] != n
    ensures Position(ns, n) == i
  {
    PositionFirst(ns, n);
  }

  /** An upsert keeps the names when the key is present and adds it last
      otherwise. */
  lemma UpsertNames(fs: seq<Param>, p: Param)
    ensures Names(Upsert(fs, p)) == if p.name in Names(fs) then Names(fs) else Names(fs) + [p.name]
  {
    PositionFirst(Names(fs), p.name);
    var i := Position(Names(fs), p.name);
    if i < |fs| {
      assert Names(fs[i := p]) == Names(fs);
    } else {
      assert Names(fs + [p]) == Names(fs) + [p.name];
    }
  }

  /** The merged fields take the names in order of first appearance. */
  lemma {:induction false} MergeNames(ps: seq<Param>)
    ensures Names(Merge(ps)) == Dedup(Names(ps))
    decreases |ps|
  {
    if ps != [] {
      var n := |ps| - 1;
      MergeNames(ps[..n]);
      UpsertNames(Merge(ps[..n]), Blank(ps[n]));
      NamesPrefix(ps, n);
    }
  }

  lemma NamesPrefix(ps: seq<Param>, n: nat)
    requires n < |ps|
    ensures Names(ps)[..n] == Names(ps[..n]) && Names(ps)[n] == ps[n].name
  {
  }

  lemma {:induction false} DedupElements(ns: seq<string>, x: string)
    ensures x in Dedup(ns) <==> x in ns
    decreases |ns|
  {
    if ns != [] {
      var n := |ns| - 1;
      DedupElements(ns[..n], x);
      assert ns == ns[..n] + [ns[n]];
    }
  }

  lemma {:induction false} DedupDistinct(ns: seq<string>)
    ensures Distinct(Dedup(ns))
    decreases |ns|
  {
    if ns != [] {
      var n := |ns| - 1;
      DedupDistinct(ns[..n]);
      if ns[n] !in Dedup(ns[..n]) {
        DistinctAppend(Dedup(ns[..n]), ns[n]);
      }
    }
  }

  /** Every merged field has the required column emptied. */
  lemma {:induction false} MergeBlank(ps: seq<Param>, f: Param)
    requires f in Merge(ps)
    ensures f.required == Text("")
    decreases |ps|
  {
    var n := |ps| - 1;
    var m := Merge(ps[..n]);
    var b := Blank(ps[n]);
    if f != b {
      var i := Position(Names(m), b.name);
      PositionFirst(Names(m), b.name);
      if i < |m| {
        var k :| 0 <= k < |m[i := b]| && m[i := b][k] == f;
        assert m[k] == f;
      } else {
        assert f in m;
      }
      MergeBlank(ps[..n], f);
    }
  }

  /** The merged dict holds each field name once, as the names of the
      parameters in order of first appearance, and nothing else. */
  lemma MergedFields(ps: seq<Param>)
    ensures Names(Merge(ps)) == Dedup(Names(ps))
    ensures Distinct(Names(Merge(ps)))
    ensures forall n :: n in Names(Merge(ps)) <==> n in Names(ps)
  {
    MergeNames(ps);
    DedupDistinct(Names(ps));
    forall n ensures n in Names(Merge(ps)) <==> n in Names(ps) {
      DedupElements(Names(ps), n);
    }
  }

  /** The one step of `MergeLast` where the token in question is the last. */
  lemma UpsertLands(m: seq<Param>, b: Param)
    ensures var fs := Upsert(m, b);
      Position(Names(fs), b.name) < |fs| && fs[Position(Names(fs), b.name)] == b
  {
    UpsertNames(m, b);
    PositionFirst(Names(m), b.name);
    PositionFirst(Names(Upsert(m, b)), b.name);
    var i := Position(Names(m), b.name);
    if i >= |m| {
      PositionUnique(Names(m) + [b.name], b.name, |m|);
    }
  }

  /** An upsert under another name leaves a field where it was. */
  lemma UpsertKeeps(m: seq<Param>, b: Param, x: string)
    requires x != b.name && Position(Names(m), x) < |m|
    ensures var fs := Upsert(m, b);
      Position(Names(fs), x) == Position(Names(m), x) && fs[Position(Names(fs), x)] == m[Position(Names(m), x)]
  {
    UpsertNames(m, b);
    PositionFirst(Names(m), x);
    PositionFirst(Names(m), b.name);
    var k := Position(Names(m), x);
    if Position(Names(m), b.name) >= |m| {
      PositionUnique(Names(m) + [b.name], x, k);
    }
  }

  /** A field takes the type and description of the last parameter with
      its name. */
  lemma {:induction false} MergeLast(ps: seq<Param>, i: nat)
    requires i < |ps| && forall j :: i < j < |ps| ==> ps[j].name != ps[i].name
    ensures var fs := Merge(ps);
      Position(Names(fs), ps[i].name) < |fs| && fs[Position(Names(fs), ps[i].name)] == Blank(ps[i])
    decreases |ps|
  {
    var n := |ps| - 1;
    var m, b := Merge(ps[..n]), Blank(ps[n]);
    assert Merge(ps) == Upsert(m, b);
    if i == n {
      UpsertLands(m, b);
    } else {
      var pre := ps[..n];
      forall j | i < j < n ensures pre[j].name != pre[i].name {
        assert pre[j] == ps[j] && pre[i] == ps[i];
      }
      MergeLast(pre, i);
      assert pre[i] == ps[i];
      UpsertKeeps(m, b, ps[i].name);
    }
  }

  /** The members are looked up in order; the first missing one is the
      error, and otherwise the tokens are those under the names. */
  lemma {:induction false} LookupIff(m: map<string, Token>, ns: seq<string>)
    ensures Lookup(m, ns).Ok? <==> forall i :: 0 <= i < |ns| ==> ns[i] in m
    ensures Lookup(m, ns).Ok? ==>
      |Lookup(m, ns).value| == |ns| && forall i :: 0 <= i < |ns| ==> Lookup(m, ns).value[i] == m[ns[i]]
    ensures Lookup(m, ns).Err? ==>
      exists i :: 0 <= i < |ns| && ns[i] !in m && Lookup(m, ns).error == MissingMember(ns[i])
                  && forall j :: 0 <= j < i ==> ns[j] in m
    decreases |ns|
  {
    if ns != [] && ns[0] in m {
      LookupIff(m, ns[1..]);
      assert forall i :: 1 <= i < |ns| ==> ns[i] == ns[1..][i - 1];
      if Lookup(m, ns[1..]).Err? {
        var i :| 0 <= i < |ns[1..]| && ns[1..][i] !in m && Lookup(m, ns[1..]).error == MissingMember(ns[1..][i])
                 && forall j :: 0 <= j < i ==> ns[1..][j] in m;
        assert ns[i + 1] !in m;
        assert forall j :: 1 <= j < i + 1 ==> ns[j] == ns[1..][j - 1];
      }
    } else if ns != [] {
      assert ns[0] !in m;
    }
  }

  /** Merging fails exactly when some oneof type has a member without a
      token. */
  lemma {:induction false} MergedTokensErrIff(m: map<string, Token>, os: seq<(string, seq<string>)>)
    ensures MergedTokens(m, os).Err? <==> exists k :: 0 <= k < |os| && Lookup(m, os[k].1).Err?
    decreases |os|
  {
    if os != [] {
      var n := |os| - 1;
      MergedTokensErrIff(m, os[..n]);
      assert forall k :: 0 <= k < n ==> os[..n][k] == os[k];
    }
  }

  /** A lookup fails exactly when some name is not a key. */
  lemma LookupErrIff(m: map<string, Token>, ns: seq<string>)
    ensures Lookup(m, ns).Err? <==> exists n :: n in ns && n !in m
  {
    LookupIff(m, ns);
    if exists n :: n in ns && n !in m {
      var n :| n in ns && n !in m;
      var i :| 0 <= i < |ns| && ns[i] == n;
    }
  }

  /** Merging the indexed tokens fails exactly when some member of a oneof
      type is the name of no token. */
  lemma MergeFailsIff(tokens: seq<Token>, os: seq<(string, seq<string>)>)
    ensures MergedTokens(ByName(tokens), os).Err? <==>
      exists k, n :: 0 <= k < |os| && n in os[k].1 && forall i :: 0 <= i < |tokens| ==> tokens[i].name != n
  {
    var m := ByName(tokens);
    MergedTokensErrIff(m, os);
    if MergedTokens(m, os).Err? {
      var k :| 0 <= k < |os| && Lookup(m, os[k].1).Err?;
      LookupErrIff(m, os[k].1);
      var n :| n in os[k].1 && n !in m;
      ByNameLast(tokens, n);
    }
    if exists k, n :: 0 <= k < |os| && n in os[k].1 && forall i :: 0 <= i < |tokens| ==> tokens[i].name != n {
      var k, n :| 0 <= k < |os| && n in os[k].1 && forall i :: 0 <= i < |tokens| ==> tokens[i].name != n;
      ByNameLast(tokens, n);
      LookupErrIff(m, os[k].1);
    }
  }

  /** A driver fails on an empty name first; otherwise it fails exactly
      when some member of a oneof type is the name of no token. */
  lemma OutputErrors(v: Variant, fill: Fill, tokens: seq<Token>)
    ensures Output(v, fill, tokens) == Err(EmptyName) <==> !AllNamed(tokens)
    ensures Output(v, fill, tokens).Err? <==>
      !AllNamed(tokens)
      || exists k, n :: 0 <= k < |OneofTypes| && n in OneofTypes[k].1
                        && forall i :: 0 <= i < |tokens| ==> tokens[i].name != n
  {
    MergeFailsIff(tokens, OneofTypes);
    if MergedTokens(ByName(tokens), OneofTypes).Err? {
      LookupErrName(ByName(tokens), OneofTypes);
    }
  }

  /** The error of a failed merge names a member. */
  lemma {:induction false} LookupErrName(m: map<string, Token>, os: seq<(string, seq<string>)>)
    requires MergedTokens(m, os).Err?
    ensures MergedTokens(m, os).error.MissingMember?
    decreases |os|
  {
    var n := |os| - 1;
    if MergedTokens(m, os[..n]).Err? {
      LookupErrName(m, os[..n]);
    } else {
      LookupIff(m, os[n].1);
    }
  }

  /** What `print` writes for each piece: the piece and a line break. */
  function Prints(lines: seq<string>): string {
    if lines == [] then "" else lines[0] + "\n" + Prints(lines[1..])
  }

  /** Printing the pieces one by one writes their join and a final line
      break. */
  lemma {:induction false} PrintsJoin(lines: seq<string>)
    requires lines != []
    ensures Finish(Fetch, lines) == Prints(lines)
    decreases |lines|
  {
    if |lines| > 1 {
      PrintsJoin(lines[1..]);
      JoinCons(lines[0], lines[1..], "\n");
      assert [lines[0]] + lines[1..] == lines;
      ConcatAssoc(lines[0], "\n", Join(lines[1..], "\n"), "\n");
    }
  }

  lemma ConcatAssoc(a: string, b: string, c: string, d: string)
    ensures a + b + c + d == a + b + (c + d)
  {
  }

  /** The struct of each token, in order. */
  lemma {:induction false} StructTextsAt(g: Generator, fill: Fill, ts: seq<Token>, i: nat)
    requires i < |ts|
    ensures StructTexts(g, fill, ts)[i] == StructText(g, fill, ts[i])
    decreases |ts|
  {
    if i < |ts| - 1 {
      StructTextsAt(g, fill, ts[..|ts| - 1], i);
    }
  }

  /** The text of token i sits at 2i, followed by an empty line. */
  lemma {:induction false} ChunksAt(ms: seq<Token>, text: Token -> string, i: nat)
    requires i < |ms|
    ensures Chunks(ms, text)[2 * i] == text(ms[i])
    ensures Chunks(ms, text)[2 * i + 1] == ""
    decreases |ms|
  {
    if i < |ms| - 1 {
      ChunksAt(ms[..|ms| - 1], text, i);
    }
  }

  /** The request and response types of each method, in order, each pair
      followed by an empty line. */
  lemma RequestChunksAt(g: Generator, fill: Fill, ms: seq<Token>, idx: map<string, Token>, i: nat)
    requires i < |ms|
    ensures RequestChunks(g, fill, ms, idx)[2 * i] == RequestResponseText(g, fill, ms[i], idx)
    ensures RequestChunks(g, fill, ms, idx)[2 * i + 1] == ""
  {
    ChunksAt(ms, RequestText(g, fill, idx), i);
  }
}
