# GQL shorthand converter, modelled in Dafny

`GQLConverter.js` turns an indentation-based shorthand for GraphQL
queries into brace syntax. `parseLine` splits a line into its leading
whitespace count (`indentLevel`) and its trimmed text (`content`).
`convertToGraphql` trims the whole input once and splits it at line feeds.
It then walks the lines with a stack of open frames:

- each line first closes (`closeBrace`) every open frame whose level is at
  least its own;
- a line ending in `:` writes `name {` and opens a frame;
- a line ending in `[` is written as it is and opens a frame;
- a lone `]` is written as `]`;
- any other line is written as it is.

Every line is indented by `"  ".repeat(indentLevel)`. The frames still open
at the end are closed.

The project has four modules:

- `JsString` (`js_string.dfy`) models the JavaScript string operations the
  converter relies on:
  - the whitespace class shared by `\s` and `trim`;
  - `trim`;
  - `split` on a one-character separator, with `join` as its inverse;
  - `endsWith`.
- `GqlConverter` (`gql_converter.dfy`) holds `ParseLine` and the
  conversion, specified twice:
  - as functions: `Step` for one line, `Run` over the lines, then `Translate`
    and `Convert`. These produce a sequence of `Emitted` output lines that
    `Render` turns into text.
  - as the source's imperative pass: `ConvertToGraphql`, with the `forEach`
    callback in `ConvertLine` (its dedent loop in `Dedent`) and the final
    loop in `CloseAll`. These keep a stack of levels and a growing output
    string. `ConvertToGraphql` is
    proved to return exactly `Convert` of its input.
- `GqlConverterProperties` (`gql_converter_properties.dfy`) proves what the
  conversion guarantees:
  - the shape of the pop loop;
  - frames ordered by level;
  - what one line writes;
  - when a lone `]` throws;
  - that every opened frame is closed exactly once;
  - that every input line is written once and in order;
  - what trimming the input implies.
- `GqlConverterExamples` (`gql_converter_examples.dfy`) works out three
  concrete conversions.

A frame in the source is the object `{ indentLevel }` and nothing else, so
the model's stack is a `seq<nat>` of levels. The `]` branch reads
`.content` on the top frame. That property is always `undefined`, so
`undefined.endsWith` throws a TypeError whenever a frame is still open
after the dedent loop. The model returns `Failure(UndefinedFrameContent)`
in that case. Whenever the stack is empty, the loop at lines 33-35 and the
pop at lines 37-38 do nothing, so the model has no counterpart for them.

## Notable behaviour of the converter

- **Indentation doubles.** Every line is written with two spaces per
  whitespace character that started it (`"  ".repeat(indentLevel)` at
  lines 27, 30, 36 and 41, with `indentLevel` the raw count from line 6).
  So `user:\n  name` gives `user {\n    name\n}\n` (`StepOutput`,
  `GqlConverterExamples.ExampleNestedBlock`). Reading the output's
  indentation back in two-space units gives the levels on the stack: a
  line with content starts with exactly `2 * indentLevel` whitespace
  characters, and so does the closing line of its frame
  (`OwnLineIndentation`, `CloseIndentation`). There are two exceptions. A
  line that is a lone `:` is written as its padding followed by ` {`. A
  blank line inside the input is written as its padding followed by the
  line feed. Each of these starts with `2 * indentLevel + 1` whitespace
  characters.
- **List frames close with a brace.** A `]` at its list's own level pops
  the list's frame in the dedent loop at lines 22-24. That writes `}`, and
  then the `]` itself is written. So `a [\n b\n]` gives
  `a [\n  b\n}\n]\n`
  (`GqlConverterExamples.ExampleListClosedWithBrace`).
- **An indented `]` throws.** A `]` indented deeper than an open frame
  leaves that frame on the stack. It then reaches `.content.endsWith` at
  line 33 and throws (`ListCloseNeedsOutdent`, `RunFailsIff`,
  `GqlConverterExamples.ExampleInnerCloseThrows`).
- **Brace counts.** The converter writes one closing-brace line per
  frame, and both `:` lines and `[` lines open frames. So a successful
  conversion writes one closing-brace line per `:` or `[` line
  (`TranslateBalanced`). When no content holds a brace, a query with a
  list therefore has more `}` than `{`. Braces inside content are copied
  as they are: `user(where: {id: 1}):` writes `user(where: {id: 1}) {`.
- **Blank input.** An empty or all-whitespace input is trimmed to the
  empty string. That splits into one empty line, which is written as a
  single line feed (`ConvertIsNewlineIffBlank`).

## Model

| member | source | states |
|---|---|---|
| JsString.IsWs | GQLConverter.js:6-7 | no contract: the ECMAScript whitespace and line-terminator characters that `\s` matches and `trim` removes, used by the contracts of `LeadingWs` and `Trim` |
| JsString.LeadingWs | GQLConverter.js:6 | length of what `^\s*` matches: every character before it is whitespace, and the next one, if any, is not |
| JsString.LeadingWsUnique | GQLConverter.js:6 | any whitespace run that starts a string and ends at its end or at a non-whitespace character is what `^\s*` matches |
| JsString.Trim | GQLConverter.js:7 | `trim` is the slice after the leading whitespace that leaves only whitespace behind it and is empty or has non-whitespace ends |
| JsString.TrimUnique | GQLConverter.js:7 | any slice with whitespace around it and non-whitespace ends is the trimmed string |
| JsString.EndsWith | GQLConverter.js:26-29 | no contract: `endsWith` on one character; `LineEventText` and `StepOutput` give what each outcome writes |
| JsString.Split | GQLConverter.js:12 | `split('\n')` gives at least one piece, no piece contains the separator, and joining the pieces gives the input back |
| JsString.SplitJoin | GQLConverter.js:12 | splitting the join of separator-free pieces gives the same pieces |
| GqlConverter.Pad | GQLConverter.js:17 | `"  ".repeat(n)` is exactly 2n spaces |
| GqlConverter.CloseBrace | GQLConverter.js:17 | `closeBrace` is two spaces per unit of the level, then `}` and a line feed |
| GqlConverter.ParseLine | GQLConverter.js:5-9 | `indentLevel` counts the leading whitespace, `content` is the rest with trailing whitespace removed, and `content` is empty exactly when the line is all whitespace |
| GqlConverter.Unwind | GQLConverter.js:22-24 | no contract: the pop loop; `UnwindKeepsBottom` and `UnwindEmitsCloses` give its result, `Dedent` and `CloseAll` are proved equal to it |
| GqlConverter.Step | GQLConverter.js:19-43 | no contract: one `forEach` iteration; `StepSucceeds`, `StepFailure`, `StepOutput`, `StepKeepsIncreasing` and `StepBalance` give its result |
| GqlConverter.Run | GQLConverter.js:19-43 | no contract: the `forEach` over the lines; `RunFailsIff`, `RunKeepsIncreasing`, `RunBalance` and `RunWritesEveryLineInOrder` give its result |
| GqlConverter.InputLines | GQLConverter.js:12 | no contract: `trim` then `split('\n')`; `FirstLineAtLevelZero` and `NonBlankFirstLineHasContent` give what trimming implies |
| GqlConverter.Convert | GQLConverter.js:11-50 | no contract: `convertToGraphql` as a function; `ConvertToGraphql` returns it, and `TranslateBalanced`, `TranslateWritesEveryLineInOrder` and `ConvertIsNewlineIffBlank` give its result |
| GqlConverter.Text | GQLConverter.js:17-41 | no contract: the string each emit statement appends (`closeBrace`, and lines 27, 30, 36 and 41); `LineEventText`, `CloseText`, `RenderClosesTopFirst`, `OwnLineIndentation` and `CloseIndentation` give it |
| GqlConverter.Render | GQLConverter.js:14-46 | no contract: the `output +=` accumulation; `RenderSnoc` and `RenderAppend` give it |
| GqlConverter.Translate | GQLConverter.js:12-47 | no contract: the pass over the lines and the drain, before rendering; `TranslateBalanced` and `TranslateWritesEveryLineInOrder` give its result |
| GqlConverter.Closes | GQLConverter.js:22-24 | popping a top part of the stack writes one closing line per frame, topmost first |
| GqlConverter.ConvertLine | GQLConverter.js:19-43 | one `forEach` iteration throws exactly when `Step` fails, and otherwise leaves the stack and output `Step` describes |
| GqlConverter.Dedent | GQLConverter.js:22-24 | the dedent loop leaves the stack and output the pop loop `Unwind` describes at the line's level |
| GqlConverter.CloseAll | GQLConverter.js:45-47 | the final loop appends the closing lines of every open frame, topmost first |
| GqlConverter.ConvertToGraphql | GQLConverter.js:11-50 | the imperative pass returns exactly `Convert` of its input, including the TypeError case |
| GqlConverter.RenderSnoc | GQLConverter.js:14-46 | emitting one more line appends exactly its text to the output |
| GqlConverter.RunFailurePersists | GQLConverter.js:19-43 | once a line throws, the whole conversion throws |
| GqlConverterProperties.UnwindKeepsBottom | GQLConverter.js:22-24 | the dedent loop pops only a top part of the stack, only frames at or above the line's level, and stops at an empty stack or a shallower top frame |
| GqlConverterProperties.UnwindEmitsCloses | GQLConverter.js:22-24 | the dedent loop writes one closing line per popped frame, topmost first, and nothing else |
| GqlConverterProperties.DrainClosesAll | GQLConverter.js:45-47 | the final loop empties the stack and closes every frame |
| GqlConverterProperties.DedentPopsExactlyDeeper | GQLConverter.js:22-24 | on ordered frames, a frame survives a line's dedent loop if and only if its level is below the line's |
| GqlConverterProperties.StepKeepsIncreasing | GQLConverter.js:22-31 | pushing after the dedent loop keeps frame levels strictly increasing |
| GqlConverterProperties.RunKeepsIncreasing | GQLConverter.js:19-43 | after any prefix of the lines, the open frames are strictly ordered by level |
| GqlConverterProperties.RenderAppend | GQLConverter.js:14-46 | the output of two runs of emitted lines is the first's text followed by the second's |
| GqlConverterProperties.CloseText | GQLConverter.js:17 | a closing line's text is two spaces per unit of the level, then `}` and a line feed |
| GqlConverterProperties.RenderClosesTopFirst | GQLConverter.js:17 | a closing line is `}` after two spaces per unit of the frame's level, and the topmost frame's comes first |
| GqlConverterProperties.StepFailure | GQLConverter.js:32-33 | a line fails only when it is a lone `]` and its dedent loop leaves a frame open |
| GqlConverterProperties.StepSucceeds | GQLConverter.js:19-43 | every line other than a lone `]` left on a non-empty stack succeeds, as its dedent loop, its own output line and, for `:` and `[` lines, a push of its level |
| GqlConverterProperties.LineEventText | GQLConverter.js:26-42 | a block header loses its `:` and gains ` {`; every other line is kept as trimmed; all are indented by two spaces per whitespace character |
| GqlConverterProperties.OwnLineIndentation | GQLConverter.js:26-42 | a line with content other than a lone `:` is written with exactly two leading whitespace characters per unit of its level; a lone `:` or a blank line gets one more |
| GqlConverterProperties.CloseIndentation | GQLConverter.js:17 | a closing line has exactly two leading spaces per unit of its frame's level |
| GqlConverterProperties.StepOutput | GQLConverter.js:19-43 | one line appends the closing lines of the frames it pops, then its own text; the stack keeps the shallower frames and gains the line's level exactly for `:` and `[` lines |
| GqlConverterProperties.ListCloseLine | GQLConverter.js:32-39 | a lone `]` succeeds if and only if its dedent loop empties the stack, and then it writes only the closing lines and its `]` |
| GqlConverterProperties.ListCloseNeedsOutdent | GQLConverter.js:22-39 | on ordered frames, a lone `]` succeeds if and only if no frame is open or it is no deeper than the bottom frame |
| GqlConverterProperties.StepBalance | GQLConverter.js:22-31 | each line keeps opened frames minus closing braces equal to the open frames |
| GqlConverterProperties.RunBalance | GQLConverter.js:19-43 | after any prefix of the lines, opener lines equal closing braces plus open frames |
| GqlConverterProperties.TranslateBalanced | GQLConverter.js:11-50 | a successful conversion writes exactly one closing brace per opener line |
| GqlConverterProperties.StepOwnLines | GQLConverter.js:19-43 | apart from closing braces, a line writes its own output line and nothing else |
| GqlConverterProperties.RunWritesEveryLineInOrder | GQLConverter.js:19-43 | apart from closing braces, a run writes one line per input line, in input order |
| GqlConverterProperties.TranslateWritesEveryLineInOrder | GQLConverter.js:11-50 | the whole conversion writes every input line once, in order, between its closing braces |
| GqlConverterProperties.RunExtends | GQLConverter.js:19-43 | the output only grows: what earlier lines wrote is a prefix of what all lines write |
| GqlConverterProperties.ThrowIndex | GQLConverter.js:32-35 | a failed run names the lone `]` line where it throws |
| GqlConverterProperties.FailureHasThrow | GQLConverter.js:32-35 | a failed run has a lone `]` whose dedent loop left a frame open |
| GqlConverterProperties.ThrowFails | GQLConverter.js:32-35 | such a `]` makes the run fail |
| GqlConverterProperties.RunFailsIff | GQLConverter.js:32-35 | a run fails if and only if some lone `]` leaves a frame open after its dedent loop |
| GqlConverterProperties.FirstLineAtLevelZero | GQLConverter.js:6-12 | since the input is trimmed before the split, the first line is at level 0 |
| GqlConverterProperties.RunStartsWithFirstLine | GQLConverter.js:19-31 | the first thing a run writes is the first line's own output line |
| GqlConverterProperties.ConvertStartsWithFirstLine | GQLConverter.js:11-50 | a successful conversion's output starts with the first line's text |
| GqlConverterProperties.BlankConvertsToNewline | GQLConverter.js:11-50 | an all-whitespace input, the empty one included, converts to a single line feed |
| GqlConverterProperties.NonBlankFirstLineHasContent | GQLConverter.js:12 | an input with a non-whitespace character has a first line with content, and its output is at least two characters long |
| GqlConverterProperties.ConvertIsNewlineIffBlank | GQLConverter.js:11-50 | the output is a single line feed if and only if the input is all whitespace |
| GqlConverterProperties.EmptyLineClosesAll | GQLConverter.js:20-42 | an empty line inside the input closes every open frame and writes an empty line |
| GqlConverterExamples.ExampleNestedBlock | GQLConverter.js:11-50 | `a:\n b` converts to `a {\n  b\n}\n` |
| GqlConverterExamples.ExampleListClosedWithBrace | GQLConverter.js:29-39 | `a [\n b\n]` converts to `a [\n  b\n}\n]\n` |
| GqlConverterExamples.ExampleInnerCloseThrows | GQLConverter.js:32-35 | `a [\n ]` throws |

## Left out

- `replaceIncludes` (GQLConverter.js:52-71) is not modelled. It reads and
  writes files, walks directories and rewrites `import … from '….gql'`
  statements with a regular expression. That is filesystem I/O around
  `convertToGraphql`, which is modelled.
- `openBrace` (GQLConverter.js:16) is defined but never called.
- The `require` calls and `module.exports` (GQLConverter.js:2-3, 73) are
  module plumbing.
- JavaScript strings are sequences of UTF-16 code units; the model's
  strings are sequences of Unicode scalar values. Every whitespace
  character and every marker the converter looks at (`:`, `[`, `]`, line
  feed) is one code unit, so lengths and slices agree. Only a surrogate
  pair inside content is one character here and two units there, and the
  converter copies content unchanged.
- `JsString.IsWs` fixes the whitespace set to the ECMAScript WhiteSpace
  and LineTerminator characters, with the Unicode space separators
  enumerated. A JavaScript engine built on a later Unicode version could
  differ.
- The TypeError is modelled as a `Failure` result. The exception object,
  its message and the partly built output it discards are not modelled.
