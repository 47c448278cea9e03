/** Mapping of the documentation's type text ("Integer", "Array of String",
    "InputFile or String", "Message") to Go types, and the four generators that
    differ in the details. */
module GoTypes {
  import opened Text
  import opened Naming

  /** The Go type of a value that may be one of several types. */
  const AnyType: string := "interface{}"

  const ArrayOf: string := "Array of "

  const UnionInfix: string := " or "

  /** `PRIMITIVE_TYPES` of format/golang.py and scripts/format/golang.py */
  const FormatPrimitives: map<string, string> := map[
    "byte" := "byte",
    "int" := "int",
    "Integer" := "int64",
    "Float" := "float32",
    "Float number" := "float32",
    "String" := "string",
    "string" := "string",
    "Boolean" := "bool",
    "bool" := "bool",
    "True" := "bool",
    "true" := "bool",
    "False" := "bool",
    "false" := "bool",
    "error" := "string",
    "Integer or String" := "string"
  ]

  /** `PRIMITIVE_TYPES` of fetch_types.py */
  const FetchPrimitives: map<string, string> := map[
    "byte" := "byte",
    "Integer" := "int64",
    "Float" := "float32",
    "Float number" := "float32",
    "String" := "string",
    "Boolean" := "bool",
    "True" := "bool",
    "False" := "bool",
    "Integer or String" := "string"
  ]

  /** The primitive table, and whether a union text that is itself a table key
      (such as "Integer or String") escapes the `interface{}` rule. */
  datatype TypeRules = TypeRules(primitives: map<string, string>, primitiveUnionsExempt: bool)

  /** The four generators of the repository. format_golang.py reads
      `api_parser.PRIMITIVE_TYPES`, which api_parser.py does not define, so as
      written its formatType raises AttributeError on any text without " or ".
      The model takes the table as a parameter, as if that module supplied one. */
  datatype Generator =
    | FormatGolang          // format/golang.py
    | ScriptsGolang         // scripts/format/golang.py
    | FormatGolangPy(table: map<string, string>)  // format_golang.py
    | FetchTypes            // fetch_types.py
  {
    function Rules(): TypeRules {
      match this
      case FormatGolang => TypeRules(FormatPrimitives, false)
      case ScriptsGolang => TypeRules(FormatPrimitives, true)
      case FormatGolangPy(t) => TypeRules(t, false)
      case FetchTypes => TypeRules(FetchPrimitives, false)
    }

    /** getResultType may answer "Array of N" (every variant but fetch_types.py). */
    predicate ArrayResults() { !FetchTypes? }

    /** Comments are rendered by `textwrap.fill` (scripts/format/golang.py). */
    predicate UsesTextwrap() { ScriptsGolang? }
  }

  /** The text is rendered as `interface{}`. */
  predicate IsUnion(rules: TypeRules, tgType: string) {
    Contains(tgType, UnionInfix) && !(rules.primitiveUnionsExempt && tgType in rules.primitives)
  }

  /** The innermost type: a table value, or a pointer to the camel-cased
      struct name when the mapped name is not a table value. */
  function BaseType(rules: TypeRules, base: string): string {
    var mapped := if base in rules.primitives then rules.primitives[base] else ToCamelCase(base, true);
    if mapped in rules.primitives.Values then mapped else "*" + mapped
  }

  /** The number of "Array of " separators in a type text. */
  function Depth(tgType: string): nat {
    |Split(tgType, ArrayOf)| - 1
  }

  /** The text after the last "Array of ". */
  function Innermost(tgType: string): string {
    var pieces := Split(tgType, ArrayOf);
    pieces[|pieces| - 1]
  }

  /** The text after the last "Array of " is free of it, so the base type
      is never itself an array text. */
  lemma InnermostNoArrayOf(tgType: string)
    ensures !Contains(Innermost(tgType), ArrayOf)
  {
    var pieces := Split(tgType, ArrayOf);
    SplitPiecesNoSeparator(tgType, ArrayOf);
    assert pieces[|pieces| - 1] in pieces;
  }

  /** `formatType` */
  function FormatType(rules: TypeRules, tgType: string): string {
    if IsUnion(rules, tgType) then AnyType
    else Repeat("[]", Depth(tgType)) + BaseType(rules, Innermost(tgType))
  }

  /** Every Go type in the table starts with a lower-case letter. */
  predicate LowercaseValues(primitives: map<string, string>) {
    forall v :: v in primitives.Values ==> v != "" && IsLowerChar(v[0])
  }

  /** `interface{}` comes out exactly for union texts, as long as it is not
      itself a table value. */
  lemma AnyOnlyForUnions(rules: TypeRules, tgType: string)
    requires AnyType !in rules.primitives.Values
    ensures FormatType(rules, tgType) == AnyType <==> IsUnion(rules, tgType)
  {
    if !IsUnion(rules, tgType) {
      var maybeArray := Split(tgType, ArrayOf);
      var b := BaseType(rules, maybeArray[|maybeArray| - 1]);
      var r := FormatType(rules, tgType);
      if |maybeArray| > 1 {
        assert r[0] == '[';
      } else {
        assert r == b;
        assert b in rules.primitives.Values || b[0] == '*';
      }
    }
  }

  lemma NoUnionInSuffix(a: string, t: string)
    requires !Contains(a + t, UnionInfix)
    ensures !Contains(t, UnionInfix)
  {
    ContainsSuffix(a, t, UnionInfix);
  }

  lemma FormatTypeNonUnion(rules: TypeRules, t: string)
    requires !IsUnion(rules, t)
    ensures FormatType(rules, t) == Repeat("[]", Depth(t)) + BaseType(rules, Innermost(t))
  {
  }

  /** A leading "Array of " adds one separator and keeps the innermost text. */
  lemma ArrayOfPieces(t: string)
    ensures Depth(ArrayOf + t) == Depth(t) + 1
    ensures Innermost(ArrayOf + t) == Innermost(t)
  {
    var pieces := Split(t, ArrayOf);
    SplitAfterSeparator(ArrayOf, t);
    LastOfCons("", pieces);
  }

  lemma LastOfCons<T>(x: T, xs: seq<T>)
    requires |xs| >= 1
    ensures |[x] + xs| == |xs| + 1 && ([x] + xs)[|xs|] == xs[|xs| - 1]
  {
  }

  lemma OneMoreSlice(k: nat, b: string)
    ensures Repeat("[]", k + 1) + b == "[]" + (Repeat("[]", k) + b)
  {
  }

  /** Prefixing "Array of " adds one level of Go slice. */
  lemma ArrayOfAddsSlice(rules: TypeRules, t: string)
    requires !Contains(ArrayOf + t, UnionInfix)
    ensures FormatType(rules, ArrayOf + t) == "[]" + FormatType(rules, t)
  {
    var b := BaseType(rules, Innermost(t));
    assert FormatType(rules, t) == Repeat("[]", Depth(t)) + b by {
      NoUnionInSuffix(ArrayOf, t);
      FormatTypeNonUnion(rules, t);
    }
    assert FormatType(rules, ArrayOf + t) == Repeat("[]", Depth(t) + 1) + b by {
      ArrayOfPieces(t);
      FormatTypeNonUnion(rules, ArrayOf + t);
    }
    OneMoreSlice(Depth(t), b);
  }

  lemma RepeatAppend(s: string, n: nat)
    ensures Repeat(s, n + 1) == Repeat(s, n) + s
  {
    if n > 0 {
      RepeatAppend(s, n - 1);
    }
  }

  lemma RepeatPrefix(s: string, n: nat, b: string)
    requires n > 0
    ensures Repeat(s, n) + b == s + (Repeat(s, n - 1) + b)
  {
  }

  lemma NestedStep(rules: TypeRules, x: string, inner: string, k: nat, r: string)
    requires x == ArrayOf + inner
    requires !Contains(x, UnionInfix)
    requires FormatType(rules, inner) == Repeat("[]", k) + r
    ensures FormatType(rules, x) == Repeat("[]", k + 1) + r
  {
    ArrayOfAddsSlice(rules, inner);
    OneMoreSlice(k, r);
  }

  lemma NoUnionInner(x: string, inner: string)
    requires x == ArrayOf + inner
    requires !Contains(x, UnionInfix)
    ensures !Contains(inner, UnionInfix)
  {
    NoUnionInSuffix(ArrayOf, inner);
  }

  /** The nesting depth equals the number of "Array of " prefixes; for
      example "Array of Array of Integer" gives "[][]int64". */
  lemma {:induction false} NestedArrays(rules: TypeRules, n: nat, base: string)
    requires !Contains(Repeat(ArrayOf, n) + base, UnionInfix)
    ensures FormatType(rules, Repeat(ArrayOf, n) + base) == Repeat("[]", n) + FormatType(rules, base)
    decreases n
  {
    if n > 0 {
      var inner := Repeat(ArrayOf, n - 1) + base;
      var x := Repeat(ArrayOf, n) + base;
      RepeatPrefix(ArrayOf, n, base);
      NoUnionInner(x, inner);
      NestedArrays(rules, n - 1, base);
      NestedStep(rules, x, inner, n - 1, FormatType(rules, base));
    } else {
      assert Repeat(ArrayOf, 0) + base == base;
    }
  }

  lemma NoArrayNoSplit(t: string)
    requires !Contains(t, ArrayOf)
    ensures Split(t, ArrayOf) == [t]
  {
  }

  /** A table key maps to its table value, with no pointer. */
  lemma PrimitiveIsValue(rules: TypeRules, base: string)
    requires base in rules.primitives
    requires !IsUnion(rules, base)
    requires !Contains(base, ArrayOf)
    ensures FormatType(rules, base) == rules.primitives[base]
  {
    NoArrayNoSplit(base);
  }

  /** Any other name is a struct, referred to by pointer. */
  lemma CompositeIsPointer(rules: TypeRules, base: string)
    requires base !in rules.primitives
    requires !IsUnion(rules, base)
    requires !Contains(base, ArrayOf)
    requires LowercaseValues(rules.primitives)
    ensures FormatType(rules, base) == "*" + ToCamelCase(base, true)
  {
    NoArrayNoSplit(base);
    CamelCaseCapitalised(base);
  }

  /** The Go types the tables map to. */
  lemma TableValues()
    ensures FormatPrimitives.Values <= {"byte", "int", "int64", "float32", "string", "bool"}
    ensures FetchPrimitives.Values <= {"byte", "int64", "float32", "string", "bool"}
  {
    forall v | v in FormatPrimitives.Values
      ensures v in {"byte", "int", "int64", "float32", "string", "bool"}
    {
      var k :| k in FormatPrimitives && FormatPrimitives[k] == v;
    }
    forall v | v in FetchPrimitives.Values ensures v in {"byte", "int64", "float32", "string", "bool"} {
      var k :| k in FetchPrimitives && FetchPrimitives[k] == v;
    }
  }

  lemma TablesLowercase()
    ensures LowercaseValues(FormatPrimitives)
    ensures LowercaseValues(FetchPrimitives)
    ensures AnyType !in FormatPrimitives.Values && AnyType !in FetchPrimitives.Values
  {
    TableValues();
    var goTypes := {"byte", "int", "int64", "float32", "string", "bool"};
    forall v | v in goTypes ensures v != "" && IsLowerChar(v[0]) && v != AnyType {
      assert |v| <= 7 < |AnyType|;
    }
  }

  /** "Integer or String" is a table key: only scripts/format/golang.py maps
      it to its table value; the other generators apply the union rule first. */
  lemma IntegerOrString()
    ensures FormatType(ScriptsGolang.Rules(), "Integer or String") == "string"
    ensures FormatType(FormatGolang.Rules(), "Integer or String") == AnyType
    ensures FormatType(FetchTypes.Rules(), "Integer or String") == AnyType
  {
    var t := "Integer or String";
    assert t[7..11] == UnionInfix;
    ContainsIff(t, UnionInfix);
    assert Contains(t, UnionInfix);
    assert !Contains(t, ArrayOf) by {
      assert 'A' !in t;
      FirstCharAbsent(t, ArrayOf);
    }
    PrimitiveIsValue(ScriptsGolang.Rules(), t);
  }
}
