# remark-math-environment, modelled in Dafny

This project models the core of a remark plugin. The plugin walks the top-level
children of a Markdown tree looking for marker paragraphs: `::math-env-start{name}[params]`
opens an environment block and `::math-env-end{name}` closes it. It keeps a stack of open-block
descriptors, a parallel stack of buffers and an output list, and numbers each block from a
shared counter table. Beside the scanner there is an environment renderer (`parseEnv`) and its
proof-only predecessor (`parseProof`), which splice a bold start text and an end text into the
buffered nodes. There is also an inline `key="value"` parameter parser, and the newer option
record with its defaults and shallow merge.

One module per source file:

| module | file | form |
|---|---|---|
| `Index` | `index.dfy` | `Scan`, a `while` loop over the children with the stacks, output and counter table as loop state, proved against the step function `Run`; `RemarkMathEnv` is the whole transform |
| `StartMarker` | `start_marker.dfy` | the descriptor record, the counter table (a class updated in place by `ParseStartMarker`) and the pure `StartOutcome` |
| `EndMarker` | `end_marker.dfy` | `ParseEndMarker`, a pure function over the two stacks |
| `ParseEnv` | `parse_env.dfy` | `ParseEnv`, `SpliceFirst`, `SpliceLast` (step-by-step methods) proved against `EnvResult`, `StartSplice`, `EndSplice` |
| `Proof` | `proof.dfy` | `ParseProof` proved against `ProofResult` |
| `ParamParser` | `params.dfy` | `ParseParams`, a loop over the regex matches, proved against `ParamsOf` |
| `Configuration` | `options.dfy` | the option records, `DefaultTheoremOptions`, `FillDefaults` (a loop over keys) and `FillUndefinedOptionsWithDefault` |
| `PluginOptions` | `plugin_options.dfy` | the option record the transform itself reads (`theorem_envs`, markers) and its defaults |
| `MarkerSyntax` | `marker_syntax.dfy` | the marker-paragraph shape test and hand-written scanners for the two marker regular expressions |
| `Mdast`, `JsStrings`, `JsArrays`, `Errors`, `Wrappers` | | the node datatype, the JavaScript string/number operations used (`trim`, `startsWith`, `parseInt`, number rendering), array indexing that may yield `undefined`, the error datatype, `Option`/`Result` |

Nodes are a tagged datatype: `Paragraph(children, line)`, `Text(value)`, `Emphasis(children)`,
`Strong(children)` and `Other(kind, children)` for every other node kind. A source line is an
`Option<nat>`, and `None` stands for JavaScript's "line undefined". Errors the source throws are
`Err(…)` values carrying the names and lines the messages embed.

Where the code and the design description of the plugin disagree, the model follows the code:
- The transform never calls `parseEnv`, `parseProof` or `parseParams`. A closed block's buffered
  nodes are appended to the output list as they are, without decoration. They go to the output
  even when an outer block is still open, not to that block's buffer (src/index.ts:93-99).
  `Index.BlockPassesThrough` states this.
- The output list is never written back to the tree (src/index.ts:114). The model returns it
  as the transform's result.
- Only names in `theorem_envs` are accepted, so `proof`, which is not in the default table, is an
  unknown environment at the start marker.
- An empty descriptor stack at an end marker is a nesting error, which is what the design asks
  for. The source would read a property of `undefined` there.
- The source reads the top of each stack as `x[-1]`. The model uses the last element; see
  "## Findings".

## Model

| member | source | states |
|---|---|---|
| `Index.InitialCounters` | src/index.ts:53-56 | the initial counter table has exactly one key per counter label of `theorem_envs`, each at 0, and covers every environment |
| `Index.InitCounters` | src/index.ts:53-56 | the initialisation loop leaves the table equal to `InitialCounters` |
| `Index.Step` | src/index.ts:62-111 | one loop turn keeps the counter keys, keeps the stacks in lockstep and only appends to the output |
| `Index.StartStep` | src/index.ts:64-79 | a start-marker-shaped node keeps the counter keys and the stack lockstep and leaves the output as it was |
| `Index.EndStep` | src/index.ts:81-100 | an end-marker-shaped node keeps the counters and the stack lockstep and only appends to the output |
| `Index.OrdinaryStep` | src/index.ts:102-111 | an ordinary node keeps counters and stacks in lockstep and only appends to the output (innermost buffer taken as the last one) |
| `Index.Run` | src/index.ts:62-112 | the whole walk keeps those invariants; the first error stops it |
| `Index.Scan` | src/index.ts:58-112 | the loop over `tree.children`, with stacks, output and in-place counter table as loop state, computes exactly `Run` |
| `Index.ScanNode` | src/index.ts:64-111 | the loop body tests start shape first, then end shape, then treats the node as ordinary, as `Step` does |
| `Index.StartNode` | src/index.ts:64-79 | the start branch pushes the descriptor and an empty buffer after the counter update |
| `Index.EndNode` | src/index.ts:81-100 | the end branch appends the returned nodes to the output and pops both stacks |
| `Index.OrdinaryNode` | src/index.ts:102-111 | an ordinary node goes to the output with no block open, else to the innermost buffer |
| `Index.TransformResult` | src/index.ts:47-116 | an undefined `theorem_envs` is an error before any node is read; a result exists only with an environment table |
| `Index.RemarkMathEnv` | src/index.ts:47-116 | the transform (marker fallbacks, counters at 0, the loop) returns what `TransformResult` specifies |
| `Index.RunLockstep` | src/index.ts:76-77 | descriptor stack and buffer stack have equal length after every prefix of the walk |
| `Index.NoMarkersUnchanged` | src/index.ts:62-111 | a tree with no marker-shaped node is returned unchanged, element for element, in order |
| `Index.OrdinaryRunCopies` | src/index.ts:104-105 | with no block open, ordinary nodes are appended to the output in order and nothing else changes |
| `Index.OrdinaryInsideBlock` | src/index.ts:107-110 | an ordinary node inside a block goes to the end of the innermost buffer only; descriptors, outer buffers, output and counters are unchanged |
| `Index.OrdinaryRunBuffers` | src/index.ts:107-110 | a run of ordinary nodes inside a block is appended in order to the innermost buffer |
| `Index.MarkerConsumed` | src/index.ts:64-100 | a marker-shaped node is never copied into the output or a buffer: the output grows only by a whole closed buffer |
| `Index.StartTestFirst` | src/index.ts:64-85 | a node that passes both marker tests is handled by the start branch only |
| `Index.EndPopsOne` | src/index.ts:93-99 | a closing end marker pops exactly one descriptor and one buffer and appends that buffer to the output in order |
| `Index.RunAppend` | src/index.ts:62 | walking `a + b` is walking `a` and then `b` from the state `a` left |
| `Index.StartMarkerOpens` | src/index.ts:69-78 | a start marker for a known environment pushes its descriptor (numbered counter + 1) and an empty buffer, and bumps the counter |
| `Index.EndMarkerCloses` | src/index.ts:86-99 | a matching end marker over a non-empty buffer moves that buffer to the output and pops both stacks |
| `Index.OpenThenBuffer` | src/index.ts:62-111 | a start marker followed by ordinary nodes leaves one more block open with those nodes as its buffer |
| `Index.BlockPassesThrough` | src/index.ts:62-112 | a start marker, ordinary nodes and a matching end marker: the nodes reach the output undecorated and in order, the stacks are as before, the counter is up by one |
| `Index.MarkerLinesPassThrough` | src/index.ts:62-112 | the same for the lines `startMarker{name}` and `endMarker{name}` an author writes |
| `Index.OrdinaryStepAsWritten` | src/index.ts:102-111 | the ordinary branch as written succeeds exactly when no block is open, and then appends the node to the output |
| `Index.OrdinaryStepAsWrittenThrows` | src/index.ts:109 | as written, any ordinary node inside an open block makes `buffer[-1].push` throw |
| `Index.StepCounts` | src/index.ts:64-79 | one successful step raises the counter of the block it opens by one and changes no other counter |
| `Index.RunCounts` | src/index.ts:62-112 | over a whole walk every counter rises by exactly the number of blocks opened under its label, so counters never decrease |
| `Index.CountersCountOpened` | src/index.ts:53-112 | from the initial table, after any successful walk each counter equals the number of blocks opened under its label |
| `Index.OpensNumbered` | src/index.ts:69-78 | a node that opens a block under a label is numbered one past that label's counter, which it raises to that number; with `CountersCountOpened`, the blocks of one label are numbered 1, 2, 3, … in order |
| `PluginOptions.Effective` | src/index.ts:47 | absent options mean `defaultOptions`; given options are used as they are |
| `PluginOptions.StartMarkerOf` | src/index.ts:49-50 | the start marker falls back to the default only when absent; an empty marker is kept |
| `PluginOptions.EndMarkerOf` | src/index.ts:51 | the end marker falls back to the default only when absent; an empty marker is kept |
| `StartMarker.StartOutcome` | src/parseStartMarker.ts:31-91 | `None` exactly for a node that is not marker-shaped; on success the descriptor carries group 1, the line, group 2 and the counter + 1, and the counter table is `Bump`ed |
| `StartMarker.StartOutcomeErrors` | src/parseStartMarker.ts:52-79 | format error when `marker{…}` does not match, then unknown environment, then empty counter label, all before any counter changes |
| `StartMarker.Bump` | src/parseStartMarker.ts:80-83 | the used counter goes up by exactly 1, no other counter changes, no key is added |
| `StartMarker.ParseStartMarker` | src/parseStartMarker.ts:31-91 | the method updates the shared counter table in place exactly as `StartOutcome` says, and leaves it untouched on every failure or non-marker |
| `StartMarker.CounterTable.constructor` | src/index.ts:53 | a new counter table holds the given entries |
| `StartMarker.CounterTable.Set` | src/parseStartMarker.ts:80-83 | `Map.set` replaces one entry |
| `StartMarker.StartOutcomeAccepts` | src/parseStartMarker.ts:60-90 | a matching start marker for a known environment with a counter label yields that descriptor and the bumped counters |
| `StartMarker.SharedCounterConsecutive` | src/parseStartMarker.ts:73-89 | two environments sharing a counter label get consecutive numbers |
| `MarkerSyntax.MatchStart` | src/parseStartMarker.ts:49 | the regex matches exactly when the marker followed by `{` and a later `}` on the same line occurs |
| `MarkerSyntax.MatchStartSound` | src/parseStartMarker.ts:49 | a match is marker, `{`, name, `}` and bracket group at the leftmost position, on one line, with the name running to the last `}` |
| `MarkerSyntax.BracketGroup` | src/parseStartMarker.ts:49 | group 2 is present exactly when a `[` directly follows the name's `}` and a `]` comes later on the line; it then runs from that `[` to the last `]` on the line (the greedy `.*`), brackets included, with no `]` after it; otherwise it is `""` |
| `MarkerSyntax.MatchStartWithoutParams` | src/parseStartMarker.ts:70 | `marker{name}` reads back as the name with params `""` |
| `MarkerSyntax.MatchStartWithParams` | src/parseStartMarker.ts:70 | `marker{name}[inner]` reads back as the name with params `[inner]`, brackets included |
| `MarkerSyntax.MatchEnd` | src/parseEndMarker.ts:37 | the end regex matches exactly when the marker, `{` and a later `}` occur on one line |
| `MarkerSyntax.MatchEndSound` | src/parseEndMarker.ts:37 | an end match is marker, `{`, name, `}` at the leftmost position with no later `}` on the line |
| `MarkerSyntax.MatchEndOfLine` | src/parseEndMarker.ts:48 | `marker{name}` reads back as the name |
| `MarkerSyntax.BracketLineMatches` | src/parseStartMarker.ts:37-60 | a marker line paragraph is marker-shaped and both patterns read its name back |
| `MarkerSyntax.MarkerParagraphIsShaped` | src/index.ts:64-68 | a paragraph starting with the marker and not ending in a blank passes the shape test |
| `EndMarker.ParseEndMarker` | src/parseEndMarker.ts:19-83 | the checks in order (shape, format, known name, nesting against the top descriptor, non-empty top buffer); on success the top buffer, stacks untouched |
| `EndMarker.AcceptsEndLine` | src/parseEndMarker.ts:37-82 | the line `endMarker{name}` closing an open block of that name returns the block's nodes |
| `EndMarker.ParseEndMarkerAsWritten` | src/parseEndMarker.ts:19-83 | as written, the analysis succeeds exactly for a node that is not an end marker, and then returns nothing: it never closes a block |
| `EndMarker.ParseEndMarkerAsWrittenThrows` | src/parseEndMarker.ts:58 | as written, every well-formed end marker for a known name throws at `blocksInfo[-1].envName` |
| `ParseEnv.EnvResult` | src/mathEnv/parseEnv.ts:11-131 | numbering error iff numbering on without a truthy number, checked first; then empty-block error iff empty; the exact result length; the start splice always, the end splice only with a non-empty end text |
| `ParseEnv.ParseEnv` | src/mathEnv/parseEnv.ts:11-131 | the step-by-step method returns `EnvResult` |
| `ParseEnv.StartSplice` | src/mathEnv/parseEnv.ts:37-85 | a paragraph gets the bold text as new first child; text, emphasis or strong is wrapped after it in a new paragraph; any other node gets a new bold paragraph before it; the rest is kept |
| `ParseEnv.SpliceFirst` | src/mathEnv/parseEnv.ts:37-85 | the `unshift`/reassignment steps compute `StartSplice` |
| `ParseEnv.EndSplice` | src/mathEnv/parseEnv.ts:91-128 | paragraph, emphasis or strong gets the end text as last child; text is wrapped before it in a new paragraph; any other node gets a new end paragraph after it; earlier nodes kept |
| `ParseEnv.SpliceLast` | src/mathEnv/parseEnv.ts:91-128 | the `push`/reassignment steps compute `EndSplice` |
| `ParseEnv.StartSpliceLast` | src/mathEnv/parseEnv.ts:37-91 | the start splice never changes whether the last node is of the "other" kind |
| `ParseEnv.SplicesKeepMiddle` | src/mathEnv/parseEnv.ts:37-128 | nodes strictly between first and last are kept, shifted by one if a paragraph was inserted |
| `ParseEnv.EnvResultKeepsMiddle` | src/mathEnv/parseEnv.ts:37-128 | a rendered block keeps every middle node in place |
| `ParseEnv.StartSpliceTexts` | src/mathEnv/parseEnv.ts:37-85 | the start splice adds the start text before all buffered text, dropping and duplicating nothing |
| `ParseEnv.EndSpliceTexts` | src/mathEnv/parseEnv.ts:91-128 | the end splice adds the end text after all buffered text, dropping and duplicating nothing |
| `ParseEnv.EnvResultTexts` | src/mathEnv/parseEnv.ts:31-130 | a rendered block reads start text, buffered text in order, then the end text when set |
| `ParseEnv.StartText` | src/mathEnv/parseEnv.ts:32-36 | the start text begins with the rendered label and ends with `" "` for proof and `". "` otherwise |
| `ParseEnv.StartTextShowsNumber` | src/mathEnv/parseEnv.ts:32-34 | with numbering on, the start text is the label, a space and a numeral `parseInt` reads back as the number |
| `ParseEnv.StartTextUnnumbered` | src/mathEnv/parseEnv.ts:32-36 | with numbering off and no name, the start text is the label and `" "` (proof) or `". "`, with no number |
| `ParseEnv.StartTextNamed` | src/mathEnv/parseEnv.ts:35-36 | a custom name appears as ` (name)` right before the closing text |
| `ParseEnv.RenderText` | src/mathEnv/parseEnv.ts:33-34 | an undefined start text renders as "undefined" in the template literal |
| `Proof.ProofResult` | src/mathEnv/proof.ts:4-115 | wrong-environment error iff the name is not "proof", checked first; empty-block error; else result length is the buffer's plus one per "other" first/last node, bold "Proof: " first, the black square last |
| `Proof.ParseProof` | src/mathEnv/proof.ts:4-115 | the step-by-step method returns `ProofResult` |
| `Proof.ProofTexts` | src/mathEnv/proof.ts:24-112 | a rendered proof reads "Proof: ", the buffered text in order, then "■" |
| `Proof.ProofAgreesWithEnv` | src/mathEnv/proof.ts:24-112 | on a valid buffer, parseProof equals parseEnv with the default proof options (src/options.ts:67-72) |
| `Proof.ProofKeepsMiddle` | src/mathEnv/proof.ts:24-112 | only the first and last buffered nodes change |
| `ParamParser.ParseParams` | src/params.ts:35-70 | the loop over the matches returns `ParamsOf` |
| `ParamParser.AllMatches` | src/params.ts:37 | every match has a non-empty word key and a quote-free value |
| `ParamParser.MatchHere` | src/params.ts:37 | a match at the front is exactly `key="value"` |
| `ParamParser.MatchHereComplete` | src/params.ts:37 | any well-formed `key="value"` at the front is matched with that key and value |
| `ParamParser.EncodeRoundTrip` | src/params.ts:37 | matching space-separated `key="value"` items gives the items back in order |
| `ParamParser.IgnoresText` | src/params.ts:37 | text before a match without `=` and not ending in a word character is skipped silently |
| `ParamParser.SplitMatchText` | src/params.ts:45-47 | the key is the text before the first `=`, the value the text between the quotes |
| `ParamParser.IndexOf` | src/params.ts:45 | `indexOf` returns the first occurrence or -1 |
| `ParamParser.Assign` | src/params.ts:49-61 | each known key sets its own field; `addNumbering` is true exactly for "true"; `numbering` is `parseInt` |
| `ParamParser.NumberingIsDecimal` | src/params.ts:56-58 | a digit-string `numbering` sets the number it denotes |
| `ParamParser.Collect` | src/params.ts:43-67 | the walk over the matches succeeds exactly when every key is known; a failure names an unknown key of the list |
| `ParamParser.ParamsOf` | src/params.ts:35-70 | no match gives the empty record; the result is an error exactly when some matched key is unknown |
| `ParamParser.CollectAllKnown` | src/params.ts:43-67 | with known keys only, each field takes the value of the last pair naming it and unset fields stay |
| `ParamParser.CollectFirstUnknown` | src/params.ts:62-66 | the first unknown key stops the walk with an error naming it and the line |
| `ParamParser.ParamsAccepted` | src/params.ts:37-69 | a text whose matches use known keys yields the last value per field, and the empty record when nothing matches |
| `ParamParser.ParamsRejected` | src/params.ts:62-66 | a text with an unknown key is rejected naming the first unknown key |
| `ParamParser.AllFourParameters` | src/params.ts:43-67 | the four parameters written out read back as written, the number parsed, the flag true exactly for "true" |
| `ParamParser.LastValue` | src/params.ts:43-67 | the value of the last pair with a key, or none when no pair has it |
| `Configuration.DefaultTheoremOptions` | src/options.ts:54-61 | start text is the label with its first character upper-cased, counter label the label lower-cased, numbering on |
| `Configuration.DefaultTheoremOptionsOf` | src/options.ts:54-61 | for a lower-case label the counter label is the label itself |
| `Configuration.DefaultTheoremEnvsExact` | src/options.ts:78-86 | the default map has exactly the six names theorem, lemma, corollary, proposition, definition and example, the same names as the transform's own default table |
| `Configuration.Merge` | src/options.ts:94-107 | every key of the user object wins, every other default key stays, no other key appears |
| `Configuration.FillDefaults` | src/options.ts:94-107 | the copy-then-assign loop computes `Merge`; the guard never skips a key |
| `Configuration.Overlay` | src/options.ts:94-107 | every field the object sets wins; every field it leaves out keeps the default |
| `Configuration.MergeIsOverlay` | src/options.ts:94-107 | merging the key/value forms of two records is overlaying them field by field |
| `Configuration.Filled` | src/options.ts:116-119 | each field the user set, including "", overrides its default; each absent field takes its default; a user map replaces the whole default map |
| `Configuration.FillUndefinedOptionsWithDefault` | src/options.ts:116-119 | the function returns `Filled` |
| `Configuration.FillEmptyGivesDefaults` | src/options.ts:78-91 | filling `{}` gives exactly `defaultOptions`, with every field defined |
| `Configuration.FillIdempotent` | src/options.ts:94-107 | filling a filled record changes nothing |
| `Configuration.FieldsRoundTrip` | src/options.ts:94-107 | reading back the key/value form of a record gives the record |
| `Mdast.TextsAppend` | src/mathEnv/parseEnv.ts:37-128 | the reading order of texts distributes over concatenation of node lists |
| `JsStrings.ParseIntOfNumber` | src/params.ts:57 | `parseInt` of a rendered integer followed by a non-digit gives the integer back |
| `JsStrings.DigitsValueOfDigits` | src/mathEnv/parseEnv.ts:33 | the decimal numeral of `n` has value `n` |
| `JsStrings.TrimStartRemovesBlanks` | src/index.ts:67 | `trim` removes only whitespace at the front |
| `JsStrings.TrimEndRemovesBlanks` | src/index.ts:67 | `trim` removes only whitespace at the back |

## Left out

- Parsing and serialising Markdown, the unified pipeline, and tests/index.test.ts, which needs them.
- The mdast library types and `position` metadata. Only paragraphs carry a line, since only
  marker paragraphs' lines reach error messages. All other node kinds are `Other(kind, children)`.
- Writing the output back to `tree.children`: the source never does it. The output list is the result.
- `defaultClassName`: it is carried in the records but never read.
- Error message strings. Errors are datatype values carrying the names and lines the messages embed.
- Regular-expression syntax inside a configured marker. The source pastes the marker into a
  `RegExp` unescaped; the model matches the marker literally. The two are the same for the
  default markers and any marker without regex metacharacters. Text is taken as it comes, and
  `.` stops at a line terminator.
- Object aliasing. `parseEnv` and `parseProof` mutate the children arrays of nodes the caller
  still holds; the model uses value semantics and returns new sequences.
- `parseInt` beyond decimal input: the `0x` prefix, `Infinity`, and rounding above 2^53.
  `numbering` keeps `NaN` as a value. Number rendering covers integers only.
- Unicode case mapping. `toUpperCase`/`toLowerCase` are modelled on ASCII letters only.
- Keys present with the value `undefined` in `fillDefaults`: the source copies them over the
  default, and the model has no "present but undefined" field.
- `null` options: the source's default parameter applies only to `undefined`, and `null` would
  throw when read. `None` stands for `undefined`.
- StartMarker.ParseStartMarker: requires that every counter label of `theorem_envs` has a counter,
  which the transform's initialisation establishes. A direct caller with a table lacking the
  label would get `NaN` numbering in the source; the model does not cover that.
- `NaN` in a block descriptor's `numbering`. `BlockStartInfo.numbering` is `Option<int>`. In the
  source a caller can pass `NaN` there, for example a number `parseParams` read, and
  `parseEnv`'s `!info.numbering` test treats it as missing. The model covers `undefined` and `0`
  but not `NaN`.
- Counter overflow. Counters are unbounded integers. In the source they are JavaScript numbers,
  where `get(label)! + 1` stops increasing at 2^53. The model assumes no document opens that many
  blocks under one label.

## Findings

| source | as written | input that shows it | evidently intended | confidence | as-written member | corrected member |
|---|---|---|---|---|---|---|
| src/index.ts:109 | `buffer[-1].push(node)` reads index -1 of an array, which is `undefined`, so the call throws a TypeError | the children `::math-env-start{theorem}`, then any ordinary paragraph | append the node to the innermost buffer, `buffer[buffer.length - 1]` | high; not executed | `Index.OrdinaryStepAsWrittenThrows` | `Index.OrdinaryInsideBlock` |
| src/parseEndMarker.ts:58-80 | `blocksInfo[-1].envName` and `buffer[-1]` read index -1, so every well-formed end marker for a known environment throws | `::math-env-end{theorem}` with an open theorem block holding one paragraph | compare with and return the top of each stack, `x[x.length - 1]` | high; not executed | `EndMarker.ParseEndMarkerAsWrittenThrows` | `EndMarker.AcceptsEndLine` |
