# Telegram bot API to Go generator, in Dafny

This project models the core of a generator that reads the HTML documentation
of the Telegram bot API and writes Go source for it. The model has two halves.

- **The document extractor.** This is the `Parser` of `api_parser.py`; `fetch_types.py:133-218` carries a copy with identical handlers. The copy's constructor also sets two fields that nothing reads. It is a six-state machine driven by start tags, end tags and text. It collects section and subsection titles, description paragraphs and table rows, and emits one token per documented type or method. Sections on a skip list are ignored.
- **The Go generators.** These are `format/golang.py`, `scripts/format/golang.py`, `format_golang.py` and the main block of `fetch_types.py`. They cover:
  - identifier naming (`toCamelCase`) and type mapping (`formatType`);
  - comment wrapping (`formatComment`) and struct rendering (`formatStruct`);
  - result-type guessing (`getResultType`) and request/response pairs (`formatRequestResponse`);
  - interface and API methods (`formatMethod`);
  - the drivers that put one Go file together (`format`, `formatTokens`, the `__main__` block).

  The drivers index the tokens and emit:
  1. the struct types;
  2. one merged struct per oneof type, with the members' fields merged under dict semantics;
  3. the request and response types;
  4. the bot interface or the `TelegramApi` methods.

The four generators differ in detail. A `Generator` value selects among them:

| generator | primitive table | comments | struct tags | result types |
|---|---|---|---|---|
| `format/golang.py` | its own | wrapped by hand | `json:"name"` | may answer `Array of X` |
| `scripts/format/golang.py` | same as `format/golang.py` | `textwrap.fill` | `omitempty` | may answer `Array of X` |
| `fetch_types.py` | a smaller table | wrapped by hand | `json:"name"` | bare names only |
| `format_golang.py` | a parameter (`api_parser.PRIMITIVE_TYPES`, which `api_parser.py` does not define) | wrapped by hand | `json:"name"` | may answer `Array of X` |

Only `scripts/format/golang.py` lets a union text that is itself a table key (`Integer or String`) escape the `interface{}` rule.

## Modules

- **`Text`** (`text.dfy`): the Python string operations used, on ASCII. These are `find`, `in`, `split(sep)`, `split()`, `join`, `strip`, `lower`, `upper`, `isspace`, `islower` and `isupper`.
- **`ApiParser`** (`api_parser.dfy`):
  - the data model: `Param`, `Token`, `State`, and `Required`, which is a boolean or a string as in the source;
  - one pure transition function per handler;
  - the `Parser` class, whose methods update its fields in place and are proved equal to those transitions.
- **`Naming`** (`naming.dfy`): `formatWord` and `toCamelCase`.
- **`GoTypes`** (`go_types.dfy`): the primitive tables, the `Generator` variants and `formatType`.
- **`Comments`** (`comments.dfy`): the hand-written `formatComment`. It is a stack-based loop, proved against a recursive specification.
- **`ResultType`** (`result_type.dfy`): `getResultType`. Its answer is described as a set, and the loop iterates that set in no fixed order.
- **`Render`** (`render.dfy`): `formatStruct`, `formatRequestResponse` and both forms of `formatMethod`.
- **`Driver`** (`driver.dfy`): the three drivers. Each is a method whose result equals a specification function `Output`, with error results for the driver's two exceptions.

## Behaviour as written

Where the code and its own documentation differ, the model follows the code.

- **Long words in `formatComment`.** The docstring at `scripts/format/golang.py:64` promises no word breaking. The hand-written `formatComment` does break long words. When a line longer than the width has no whitespace within the width, the backward scan ends at -1. The cut then falls before the line's final character, as Python index -1 does. So a single long word loses its last character to a line of its own (`Comments.LongWordLosesLastChar`). A long first word followed by more text is cut the same way, so the first output line is the whole line without its last character and can be far wider than the width (`Comments.LongFirstWord`).
- **Width 0.** With a width of 0, a one-character non-whitespace line is pushed back unchanged and the loop never ends (`Comments.ZeroWidthStalls`). Every caller uses 95, and the model requires a width of at least 1.
- **`Integer or String`.** This is a table key, but `format/golang.py`, `format_golang.py` and `fetch_types.py` test for " or " first. They therefore render it as `interface{}`; only `scripts/format/golang.py` renders `string` (`GoTypes.IntegerOrString`).
- **Skipped sections.** While a title is on the skip list, text and table events are not accumulated. A description held from before is not discarded, though: it stays in the parser until the next flush (`ApiParser.DataRules`, `ApiParser.SkipEndTag`). Subsection titles are still recorded inside a skipped section, because the title is set before the skip test. So the first subsection start after the section changes emits a token under the last title seen in the skipped section (`ApiParser.DataRules`, `ApiParser.StartTagFlush`).
- **Missing oneof members.** A oneof member with no token raises `KeyError` carrying the missing name and nothing else. The model returns `Err(MissingMember(name))`. An empty token name makes `t.name[0]` raise `IndexError`, modelled as `Err(EmptyName)`.
- **Three-cell rows.** Such a row gets the required value `""`, a string, not `False` (`ApiParser.RowParams`).
- **Acronym method names.** A method named like a lower-case acronym ("ip", say) would have `IPRequest` in its signature but a struct named `IpRequest` (`Render.AcronymSignatureMismatch`). For every other method without underscores the names agree (`Render.SignatureNamesStructs`).

## Model

| member | source | states |
|---|---|---|
| Text.FindFrom | format/golang.py:106 | `str.find`: -1 exactly when the pattern occurs nowhere at or after the start, otherwise the first occurrence there |
| Text.ContainsIff | format/golang.py:93 | `pat in s` holds exactly when the pattern occurs at some index |
| Text.Split | format/golang.py:95 | `split(sep)` always yields at least one piece |
| Text.JoinSplit | format/golang.py:60 | joining the pieces of a split with the same separator rebuilds the text |
| Text.SplitPiecesFree | format/golang.py:52 | no piece of a split on one character contains that character |
| Text.SplitPiecesNoSeparator | format/golang.py:95 | no piece of a split on any non-empty separator contains the separator |
| Text.SplitJoinChar | format/golang.py:60 | splitting a join on one character gives back the pieces when no piece holds it |
| Text.Words | format/golang.py:104 | `split()` yields non-empty, whitespace-free words |
| Text.WordsText | format/golang.py:104 | the words of a text, concatenated, are exactly its non-whitespace characters in order |
| Text.WordsSeparate | format/golang.py:104 | a whitespace character between two texts gives the words of the first followed by those of the second |
| Text.StripEnds | api_parser.py:157 | what `strip` leaves neither starts nor ends with whitespace |
| Text.StripKeepsText | format/golang.py:71-72 | `strip` removes whitespace only |
| Naming.ToCamelCase | format/golang.py:51-55 | `toCamelCase`; specified by CamelCaseConcat, CamelCaseLetters, CamelCaseNoUnderscore, CamelCaseCapitalised, CamelCaseLowerFirst and CamelCaseNoChar below |
| Naming.FormatWord | format/golang.py:43-48 | same length and letters up to case; never starts lower-case; "" stays ""; acronyms id, url, ip fully upper-case; otherwise only the first character changes |
| Naming.UpperFixedIff | format/golang.py:53 | `s.upper() == s` exactly when `s` holds no lower-case letter |
| Naming.CamelCaseLowerFirst | format/golang.py:51-55 | with `capFirst` false only the first character is lowered, and only when the identifier is not all upper-case |
| Naming.CamelJoinSplitLower | format/golang.py:52 | joining the formatted pieces keeps the letters of the name without its underscores, up to case |
| Naming.CamelCaseLetters | format/golang.py:51-55 | the identifier is the name without underscores, up to letter case |
| Naming.CamelCaseNoUnderscore | format/golang.py:51-55 | no identifier contains an underscore |
| Naming.CamelCaseConcat | format/golang.py:51-52 | the part before the first underscore is formatted on its own and the rest camel-cased after it |
| Naming.CamelCaseCapitalised | format/golang.py:51-55 | with `capFirst` the identifier never starts with a lower-case letter |
| Naming.CamelCaseNoChar | format/golang.py:51-55 | a non-letter character appears in the identifier only if it appears in the name |
| GoTypes.FormatType | format/golang.py:92-99 | `formatType`; specified by AnyOnlyForUnions, ArrayOfAddsSlice, NestedArrays, PrimitiveIsValue, CompositeIsPointer and IntegerOrString below |
| GoTypes.AnyOnlyForUnions | format/golang.py:92-99 | `interface{}` comes out exactly for union texts |
| GoTypes.ArrayOfPieces | format/golang.py:95 | a leading "Array of " adds one separator and keeps the innermost text |
| GoTypes.ArrayOfAddsSlice | format/golang.py:95-99 | prefixing "Array of " prefixes one `[]` |
| GoTypes.NestedArrays | format/golang.py:95-99 | n "Array of " prefixes give n `[]` in front of the base type |
| GoTypes.InnermostNoArrayOf | format/golang.py:95-99 | the base text left after the last "Array of " contains no "Array of " |
| GoTypes.PrimitiveIsValue | format/golang.py:96-98 | a table key maps to its table value, without pointer |
| GoTypes.CompositeIsPointer | format/golang.py:96-98 | any other name becomes a pointer to its camel-cased struct |
| GoTypes.TableValues | format/golang.py:10-26 | the Go types the primitive tables map to |
| GoTypes.TablesLowercase | fetch_types.py:34-44 | every table value starts lower-case and none is `interface{}` |
| GoTypes.IntegerOrString | scripts/format/golang.py:93-99 | "Integer or String" is `string` only in scripts/format/golang.py and `interface{}` elsewhere |
| Comments.LastSpaceFrom | format/golang.py:68-70 | the backward scan stops at the last whitespace at or before the width, or at -1 when there is none |
| Comments.CutIndex | format/golang.py:68-72 | the cut index lies inside the line |
| Comments.Cut | format/golang.py:71-72 | with a width of at least 1 the pushed-back rest is shorter than the line |
| Comments.CommentText | format/golang.py:58-73 | the recursive specification of `formatComment`; specified by CommentTextLines, CommentLinesSingle, ShortLinesVerbatim, CutAtLastSpace, CutNoSpace and WrapKeepsText below |
| Comments.FormatComment | format/golang.py:58-73 | the stack loop computes the prefixed join of the wrapped lines of the specification |
| Comments.WrapStackReverse | format/golang.py:60-63 | popping the reversed line list processes the lines in document order |
| Comments.ShortLinesVerbatim | format/golang.py:65-67 | lines within the width come out verbatim |
| Comments.CutAtLastSpace | format/golang.py:68-72 | a long line with whitespace within the width is cut there, and its first piece fits the width |
| Comments.CutNoSpace | format/golang.py:68-72 | a long line without whitespace is cut before its final character |
| Comments.LongWordLosesLastChar | format/golang.py:68-72 | a long word is wrapped into the word without its last character and that character |
| Comments.LongFirstWord | format/golang.py:68-72 | a long line with no whitespace within the width is cut before its final character, whatever follows: the first piece is the stripped line without that character, which can exceed the width |
| Comments.ZeroWidthStalls | format/golang.py:63-72 | with width 0 a one-character non-whitespace line is pushed back unchanged |
| Comments.CutKeepsText | format/golang.py:71-72 | the two pieces of a cut hold all non-whitespace text of the line, in order |
| Comments.WrapKeepsText | format/golang.py:63-72 | wrapping a line loses and reorders no non-whitespace text |
| Comments.CommentLinesSingle | format/golang.py:60-72 | there is at least one comment line and none contains a line break |
| Comments.CommentTextLines | format/golang.py:59-73 | every output line of a comment is the prefix followed by one comment line |
| ApiParser.OnStart | api_parser.py:87-106 | the `handle_starttag` transition; specified by StartTagState, StartTagTransition and StartTagFlush below |
| ApiParser.OnEnd | api_parser.py:108-143 | the `handle_endtag` transition; specified by EndTagState, EndTagTransition, CellClose, RowClose, TableClose and SkipEndTag below |
| ApiParser.OnData | api_parser.py:145-157 | the `handle_data` transition; specified by DataRules below |
| ApiParser.Run | fetch_types.py:293-294 | the handlers over a whole event stream; specified by RunAppends and SkipKeepsTokens below |
| ApiParser.StartTagState | api_parser.py:88-94 | the five opening tags set their state whatever the current one; other tags keep it |
| ApiParser.EndTagState | api_parser.py:110-120 | only the five (state, tag) closing pairs change the state, each to its parent |
| ApiParser.RowParams | api_parser.py:131-136 | three cells give a parameter with required "", four give one with the third cell, any other count gives none |
| ApiParser.Parser.constructor | api_parser.py:75-85 | the parser starts with no tokens, in the document state, with empty titles and buffers |
| ApiParser.Parser.HandleStartTag | api_parser.py:87-106 | the new fields are those of `OnStart` on the old fields |
| ApiParser.Parser.HandleEndTag | api_parser.py:108-143 | the new fields are those of `OnEnd` on the old fields |
| ApiParser.Parser.HandleData | api_parser.py:145-157 | the new fields are those of `OnData` on the old fields |
| ApiParser.Parser.Feed | fetch_types.py:293-294 | feeding events leaves the fields of `Run` over them |
| ApiParser.StartTagTransition | api_parser.py:88-94 | a start tag sets the state from the tag alone and keeps section and row buffers |
| ApiParser.EndTagTransition | api_parser.py:110-120 | an end tag changes the state exactly for a closing pair, and only outwards |
| ApiParser.StartTagFlush | api_parser.py:95-106 | a start tag emits a token exactly when it enters a subsection with a title held and nothing skipped; the token is the held title, joined description and table, all of which are reset |
| ApiParser.CellClose | api_parser.py:125-127 | closing a cell appends its text to the row and empties it |
| ApiParser.RowClose | api_parser.py:128-136 | closing a non-empty row appends its parameter, if any, and empties the row |
| ApiParser.TableClose | api_parser.py:137-143 | closing a table always emits the pending token and resets it |
| ApiParser.SkipEndTag | api_parser.py:122-123 | while skipping, an end tag changes only the state |
| ApiParser.DataRules | api_parser.py:145-157 | text sets titles, and unless skipped appends to the cell or, stripped, to the description; elsewhere it is ignored |
| ApiParser.SkipKeepsTokens | api_parser.py:95-157 | no event emits a token while a title is skipped |
| ApiParser.StepAppends | api_parser.py:87-157 | each event appends at most one token and keeps the earlier ones |
| ApiParser.RunAppends | api_parser.py:87-157 | tokens are only appended: earlier tokens are a prefix, at most one new per event |
| ResultType.Candidates | format/golang.py:103-113 | the names `getResultType` collects; specified by CandidatesIff below |
| ResultType.QualifyingWordsIff | format/golang.py:103-109 | a word is collected exactly when it is a word of a sentence mentioning "is returned" or "returns an " |
| ResultType.CandidatesIff | format/golang.py:103-113 | a name is a candidate exactly when a word of a qualifying sentence of the lower-cased description is a key naming it |
| ResultType.RenderDistinct | format/golang.py:114-117 | distinct candidates render distinctly unless one is written like an array |
| ResultType.BareNamesWithoutArrays | fetch_types.py:236-246 | fetch_types.py answers the candidate names themselves |
| ResultType.GetResultType | format/golang.py:102-118 | the answer has one entry per candidate and holds exactly the candidates rendered, as `Array of X` when "rray of X" occurs in the description; its entries are distinct when the table is keyed by lower-cased names, as every driver's is |
| ResultType.KeysNoArray | format/golang.py:103-117 | with a table keyed by lower-cased names no candidate starts with "Array of ", because its key would be a word holding a space |
| ResultType.SingleCandidate | format/golang.py:126-131 | with one candidate, the one answer is that candidate rendered |
| Render.StructText | format/golang.py:76-89 | the text of `formatStruct`; specified by StructShape, FieldChunksLength and FieldChunksAt below |
| Render.FormatStruct | format/golang.py:76-89 | the struct text is the comment, header, field chunks and closing brace joined by line breaks |
| Render.FieldChunksLength | format/golang.py:81-86 | each parameter contributes three chunks, or two with textwrap |
| Render.FieldChunksAt | format/golang.py:81-86 | the chunks of each parameter sit in parameter order |
| Render.StructShape | format/golang.py:76-89 | a struct has its comment first, its camel-cased header second and the closer last |
| Render.FormatRequestResponse | format/golang.py:121-150 | the request struct carries the parameters; the response holds the raw field and a result field for a single candidate |
| Render.ResponseShape | format/golang.py:122-131 | the response starts with the raw field and has a typed result exactly when there is one candidate |
| Render.MethodText | format/golang.py:153-160 | the interface method of `formatMethod`; specified by MethodLines below |
| Render.Signature | format/golang.py:154-158 | the method signature; specified by SignatureNamesStructs and AcronymSignatureMismatch below |
| Render.MethodLines | format/golang.py:153-160 | an interface method is its prefixed comment lines followed by the signature |
| Render.SignatureNamesStructs | format/golang.py:135-158 | the request and response types a signature names are the emitted structs, for names without underscores that are not acronyms |
| Render.AcronymSignatureMismatch | format/golang.py:135-158 | a lower-case acronym method name makes the signature name a request type other than its struct |
| Render.ApiMethodText | scripts/format/golang.py:157-184 | the API method text; specified by ApiMethodCalls below |
| Render.FormatApiMethod | scripts/format/golang.py:157-184 | the API method is the comment followed by the untyped or the typed call template |
| Render.ApiMethodCalls | scripts/format/golang.py:162-184 | without a single candidate the body unmarshals into `interface{}` and returns an empty response; with one it unmarshals into its Go type and copies the result |
| Driver.Output | format/golang.py:163-207 | the whole driver result; specified by OutputErrors, StructTokensOrder, MethodTokensOrder, MergeNames, MergedFields, MergeLast, StructTextsAt and RequestChunksAt below |
| Driver.IndexTokens | format/golang.py:164-172 | stops exactly on an empty name; otherwise builds `tokenByName`, `structNames` and the struct texts of the struct tokens in order |
| Driver.MergeParams | format/golang.py:180-183 | upserting the blanked parameters of a member extends the merge |
| Driver.MergeMembers | format/golang.py:176-183 | the names of the members and the merge of all their parameters |
| Driver.MergeOneofs | format/golang.py:174-190 | the merged struct of every oneof type, or the first missing member |
| Driver.RequestTypes | format/golang.py:192-197 | the request and response pair of every method token, each followed by an empty line |
| Driver.InterfaceMethods | format/golang.py:199-206 | the interface method of every method token, each followed by an empty line |
| Driver.ApiMethods | scripts/format/golang.py:242-246 | the API method of every method token, each followed by an empty line |
| Driver.FormatTokens | format/golang.py:163-207 | the driver's result is `Output`: an error for an empty name or a missing member, otherwise the joined output in the fixed order |
| Driver.ByNameLast | format/golang.py:167-168 | a name is indexed exactly when some token has it, and maps to the last such token |
| Driver.ByNameHas | format/golang.py:167-168 | a name is indexed exactly when some token has it |
| Driver.StructNamesHas | format/golang.py:167-171 | a key is in `structNames` exactly when it is the lower-cased name of a struct token |
| Driver.StructNamesLast | format/golang.py:167-171 | a key is in `structNames` exactly when it is the lower-cased name of a struct token, and maps to the last one |
| Driver.StructNamesKeyed | format/golang.py:167-171 | `structNames` is keyed by the lower-cased names of its tokens, so the result types of every method are distinct |
| Driver.StructTokensIff | format/golang.py:169-172 | a token is emitted as a struct exactly when it is one of the tokens and a struct token |
| Driver.MethodTokensIff | format/golang.py:193-195 | a token is emitted as a method exactly when it is one of the tokens and a method token |
| Driver.StructTokensOrder | format/golang.py:169-172 | the emitted structs are the tokens at strictly increasing positions, and those positions are exactly the struct tokens' |
| Driver.MethodTokensOrder | format/golang.py:193-195 | the emitted methods are the tokens at strictly increasing positions, and those positions are exactly the method tokens' |
| Driver.Buckets | format/golang.py:169-194 | a token is both a struct and a method exactly when its first character is not a letter and it is in neither exclusion list |
| Driver.UpsertNames | format/golang.py:181-183 | a dict assignment keeps the key order for a present key and appends a new one |
| Driver.MergeNames | format/golang.py:177-187 | the merged fields take the parameter names in order of first appearance |
| Driver.MergedFields | format/golang.py:177-187 | the merged fields hold each parameter name exactly once, and no other |
| Driver.MergeBlank | format/golang.py:181-183 | every merged field has the required column emptied |
| Driver.MergeLast | format/golang.py:180-183 | a merged field holds the type and description of the last parameter with its name |
| Driver.LookupIff | format/golang.py:178 | the lookup succeeds exactly when every member is indexed, giving their tokens in order; otherwise it fails on the first missing one |
| Driver.LookupErrIff | format/golang.py:178 | the lookup fails exactly when some member is missing |
| Driver.MergedTokensErrIff | format/golang.py:175-178 | merging fails exactly when some oneof type has a missing member |
| Driver.MergeFailsIff | format/golang.py:167-178 | merging fails exactly when some oneof member is the name of no token |
| Driver.LookupErrName | format/golang.py:178 | a failed merge names a missing member |
| Driver.OutputErrors | format/golang.py:163-178 | the empty-name error comes exactly for an unnamed token; the driver fails exactly for that or a oneof member that is no token's name |
| Driver.PrintsJoin | fetch_types.py:298-336 | printing the pieces one per line writes their join plus one final line break |
| Driver.StructTextsAt | format/golang.py:167-172 | the struct texts are those of the tokens, index by index |
| Driver.ChunksAt | format/golang.py:193-197 | in each method loop, the text of method i sits at 2i, followed by an empty line |
| Driver.RequestChunksAt | format/golang.py:193-197 | the request output of method i sits at 2i, followed by an empty line |

## Left out

- HTML tokenisation is left out. `html.parser` is library code; the model starts from the stream of start-tag, end-tag and text events. Tag attributes are not used by the handlers and are not modelled.
- Network retrieval, file reading and printing are left out (`fetch_types.py:290-294`). `print` is modelled by the output it adds, a line break per call.
- `fetch_types.py` prints as it goes. When it fails, the part printed before the exception is not modelled: the model's result is the error alone.
- `textwrap.fill` is a parameter of the model (`scripts/format/golang.py:66-68`). The `textwrap.dedent` templates were dedented and written out as constants.
- `format_golang.py` has no primitive table that runs. It reads `api_parser.PRIMITIVE_TYPES` (`format_golang.py:62-63`), and `api_parser.py` defines no such name. So as written its `formatType` raises `AttributeError` on every type text without " or ", and so does every `formatStruct` or `formatRequestResponse` call that reaches it. The model does not capture this exception. It takes the table as a parameter of `GoTypes.Generator` (`FormatGolangPy(table)`), as if `api_parser` supplied one. `format_golang.py` has no driver of its own.
- `RETURN_TYPES` of `api_parser.py:33-39` is never read by the generators and is not modelled.
- `bot.go`, `main.go` and `scripts/fetch_types.py` are not part of this model.
- Characters are ASCII. `isspace`, `islower`, `isupper`, `lower` and `upper` are modelled on ASCII only.
- `Comments.FormatComment`: requires a width of at least 1, because with width 0 the source does not terminate, as `Comments.ZeroWidthStalls` shows.
- `ResultType.GetResultType`: the order of the answers follows Python's set iteration, which is unspecified. The contract states the members and their number, not an order. It states distinctness for tables keyed by lower-cased names, which every driver's table is (`Driver.StructNamesKeyed`).
- `Text.Strip`: its contract states only the length bound. That the result has no surrounding whitespace is the separate lemma `Text.StripEnds`.
