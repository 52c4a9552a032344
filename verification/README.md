# Markdown smart select, modelled in Dafny

This project models the "smart select" (expand selection) provider of the
Markdown language features. Given a cursor, the provider offers selection
ranges built from two sources:

- the parser's block tokens, each with a type and an inclusive line span (`map`);
- the heading outline, each entry with its heading line and the range of its whole section.

The **block builder** keeps the tokens that are not `heading_open`, have a map,
and whose span contains the cursor line. The last of them is the focus. Every
other one becomes a candidate range; a `bullet_list_open` candidate loses its
last line. A candidate gets the focus as parent when the focus contains it.
Only the first candidate is returned. The **heading builder** returns one
parentless range per outline entry on the cursor line. It drops a trailing
blank line from the section. The **provider** returns the heading ranges
followed by the block ranges.

Modules:

- `Wrappers`: `Option` (`None` is JavaScript's `undefined`) and `Result` (a `Failure` is a thrown exception).
- `Seqs`: `Filter` and `MapAll`, the sequence forms of `Array.prototype.filter` and of an `Array.prototype.map` whose callback may throw, with their lemmas.
- `Ranges`: the editor's `Position`, `Range` and `SelectionRange`. The range constructor puts its ends in document order. `contains` is inclusive at both ends.
- `SmartSelect`: tokens, outline entries, the three operations and their properties.
- `BlockScan`: a one-pass loop that computes the block result from indices alone, proved equal to the functional builder.
- `WorkedCases`: concrete documents and the results the model gives them.

Exceptions the code can raise are modelled as `Error` values:

- `UndefinedPosition`: the cursor list is empty and a filter callback reads `position.line`. This happens only when there is something to filter: an outline entry, or a token that is not a heading and has a map.
- `NegativeLine(-1)`: the editor refuses a position on a negative line. A `bullet_list_open` candidate whose map ends on line 0 asks for line -1. All candidates are built, not only the first, so any such list among them makes the call fail.
- `LineOutOfRange(n)`: the document refuses `lineAt(n)` past its last line.

Behaviour of the code that the model keeps as written:

- Containment is inclusive. A candidate with the same lines as the focus gets the focus as parent.
- When exactly one token is nearby, the block result is one undefined element (`[None]`). It is neither empty nor the focus range.
- When a bullet list's map is a single line `s`, its candidate end line `s - 1` falls before its start. The range constructor swaps the ends, so the range covers lines `s - 1` to `s`.
- Only the line of the first cursor is read.

## Model

| member | source | states |
|---|---|---|
| Ranges.MakeRange | extensions/markdown-language-features/src/features/smartSelect.ts:59 | the range holds exactly the two given positions, in document order |
| Seqs.Filter | extensions/markdown-language-features/src/features/smartSelect.ts:27 | the result keeps only elements that pass the test, and no more elements than the input; the same filter serves line 51 |
| Seqs.MapAll | extensions/markdown-language-features/src/features/smartSelect.ts:31-41 | the map succeeds exactly when the callback succeeds on every element, then holds each element's image in order; otherwise it fails with the error of the first failing element; the same map serves lines 52-60 |
| SmartSelect.Nearby | extensions/markdown-language-features/src/features/smartSelect.ts:27 | every kept token is a non-heading token with a map whose inclusive span contains the cursor line, and its map is in order |
| SmartSelect.Focus | extensions/markdown-language-features/src/features/smartSelect.ts:30 | the focus range spans the focus token's first to last line, at character 0 at both ends, with the ends in order and no parent |
| Ranges.ContainsByLines | extensions/markdown-language-features/src/features/smartSelect.ts:36 | for ranges whose ends sit at character 0, inclusive containment is exactly inclusion of the line intervals |
| SmartSelect.Candidate | extensions/markdown-language-features/src/features/smartSelect.ts:32-40 | a candidate starts at the token's first line. It ends at the token's last line, or one line earlier for a bullet list, with the ends swapped when that falls before the start. It fails exactly for a bullet list ending on line 0. Its parent is the focus exactly when the focus lines include its lines, and otherwise it has none |
| SmartSelect.FirstCandidate | extensions/markdown-language-features/src/features/smartSelect.ts:31-42 | building all candidates fails exactly when one of them is a bullet list ending on line 0. Otherwise the result is the first candidate, or undefined when there are none |
| SmartSelect.BlockSelectionRanges | extensions/markdown-language-features/src/features/smartSelect.ts:24-45 | at most one block element. With no cursor, it fails exactly when some token is not a heading and has a map, and otherwise returns nothing. Each failure carries the error of its cause |
| SmartSelect.BlockNoMatch | extensions/markdown-language-features/src/features/smartSelect.ts:27-44 | the block result is empty if and only if no non-heading token with a map contains the cursor line |
| SmartSelect.BlockSingleMatch | extensions/markdown-language-features/src/features/smartSelect.ts:28-42 | a single nearby token yields one undefined element, never the focus range |
| SmartSelect.BlockFocusIsLastMatch | extensions/markdown-language-features/src/features/smartSelect.ts:27-31 | the focus comes from the last nearby token in document order. The candidates are exactly the nearby tokens before it, starting with the first nearby token |
| SmartSelect.LineZeroBulletsBefore | extensions/markdown-language-features/src/features/smartSelect.ts:31-35 | a remaining candidate is a bullet list ending on line 0 exactly when such a nearby token lies between the first nearby token and the focus token |
| SmartSelect.BlockFirstCandidate | extensions/markdown-language-features/src/features/smartSelect.ts:27-42 | with several nearby tokens, the result is the candidate of the first one, built against the focus of the last one. It fails with a negative line exactly when a nearby bullet list before the focus ends on line 0 |
| SmartSelect.BlockParentContains | extensions/markdown-language-features/src/features/smartSelect.ts:30-42 | a returned block range's parent, when present, is parentless and contains the range |
| BlockScan.ScanBlockSelection | extensions/markdown-language-features/src/features/smartSelect.ts:24-45 | a single pass that keeps only the first and last nearby indices and a flag computes exactly the block builder's result |
| SmartSelect.TrimmedEndLine | extensions/markdown-language-features/src/features/smartSelect.ts:53-56 | the end line drops by at most one. It drops exactly when the section's end line is empty or white space and lies below the heading line, and then never above the heading line. The lookup fails past the last document line |
| SmartSelect.HeadingRange | extensions/markdown-language-features/src/features/smartSelect.ts:53-59 | a heading range is parentless and spans the section's start and the trimmed end line at the section's end character. For a section starting at its heading line's beginning and not ending above it, start and end are exactly those |
| SmartSelect.AtLine | extensions/markdown-language-features/src/features/smartSelect.ts:51 | every kept outline entry's heading line is the cursor line |
| SmartSelect.HeaderSelectionRanges | extensions/markdown-language-features/src/features/smartSelect.ts:47-61 | one parentless range per entry on the cursor line, the i-th range built from the i-th such entry in outline order. With no cursor, it fails exactly when the outline is not empty, and otherwise returns nothing |
| SmartSelect.HeadingSelection | extensions/markdown-language-features/src/features/smartSelect.ts:51-60 | every entry on the cursor line yields its range and every range comes from such an entry. The builder fails exactly when one of them has a section ending past the document |
| SmartSelect.HeadingOnlyOnHeadingLine | extensions/markdown-language-features/src/features/smartSelect.ts:51 | a cursor not on any heading line gets no heading range, even inside a section |
| SmartSelect.ProvideSelectionRanges | extensions/markdown-language-features/src/features/smartSelect.ts:16-22 | a heading failure is the provider's failure. On success, the result begins with every heading range, in order, each defined, and every element but the last is a defined, parentless range |
| SmartSelect.MergeOrder | extensions/markdown-language-features/src/features/smartSelect.ts:17-21 | the provider succeeds exactly when both builders do. Its result is the heading ranges in order, then the block result, which adds at most one element |
| SmartSelect.FirstCursorOnly | extensions/markdown-language-features/src/features/smartSelect.ts:25 | two cursor lists whose first cursors share a line give the same result. The same holds for the heading builder's read of the first cursor at line 48 |
| SmartSelect.NothingAtCursor | extensions/markdown-language-features/src/features/smartSelect.ts:16-44 | a cursor line with no nearby block token and no heading yields an empty result |
| WorkedCases.ListItemCursor | extensions/markdown-language-features/src/features/smartSelect.ts:27-42 | paragraph 0-2, bullet list 3-6 and item 4-5 with the cursor on line 4 give one parentless range over lines 3-5 |
| WorkedCases.HeadingTokenIgnored | extensions/markdown-language-features/src/features/smartSelect.ts:27 | a `heading_open` token on the cursor line is neither focus nor candidate |
| WorkedCases.TrailingBlankLineTrimmed | extensions/markdown-language-features/src/features/smartSelect.ts:53-59 | a section on lines 2-5 whose line 5 is blank gives a heading range over lines 2-4 |
| WorkedCases.LineZeroBulletFails | extensions/markdown-language-features/src/features/smartSelect.ts:33-35 | a bullet list mapped to line 0 alone, before another nearby token, makes the block builder fail |

## Left out

- The parser (`MarkdownEngine.parse`) and the outline builder (`TableOfContentsProvider.getToc`) are not part of this model. Their outputs are the `tokens` and `toc` inputs.
- The document is its sequence of lines. `isEmptyOrWhitespace` is modelled as "every character matches ECMAScript's `\s`".
- An outline entry's `level` is not modelled, because this code never reads it.
- `async`/`await` and `Promise.all` are not modelled. The two builders run one after the other and share no state, so they are pure functions here. The heading builder runs first, so its failure is the one reported.
- The cancellation token is not modelled, because the code never reads it.
- `flatten` from the utility module is not part of this model. It is plain sequence concatenation here.
- A failure of the parser or of the outline builder is not modelled, because both are outside the model.
- Only the editor API behaviour this code depends on is modelled: ordering, inclusive containment, the constructor's swap, the refusal of a negative line, and `lineAt` range checking.
- A negative character is not modelled: positions hold natural numbers, and the code builds only characters that are 0 or taken from the outline.
- Negative lines in a token map or an outline entry are not modelled: `LineMap` and `TocEntry.line` hold natural numbers, because the parser and the outline builder never produce negative lines. A nearby token whose map starts on a negative line would make the code throw at line 30 or line 34; other tokens, and outline entries, with negative lines are filtered out.
