# markdown-draft-js in Dafny

This project models the two converters of markdown-draft-js.

- **The renderer** (`draftToMarkdown`) turns a Draft.js raw document into Markdown. The document is a list of blocks and an entity map. Each block has a type, a text, inline style ranges and entity ranges.
- **The parser** (`markdownToDraft`) folds the token stream of a Markdown tokenizer into such a document.

## The renderer

The renderer (modules `MarkdownTags`, `Render`) walks a block's text one character at a time. Before each character it runs four scans, and each scan starts from its own cursor:

1. close styles;
2. close entities;
3. open styles;
4. open entities.

After the scans it copies the character. When a style closes while styles opened after it are still open, the renderer closes those inner styles, closes the target style and reopens the inner ones. After the last character, trailing scans close whatever reaches the end of the text. Then come the block's close string and the separator to the next block. Lists use a single newline between items; every other pair of blocks uses two.

The close scans are exact only under an ordering assumption (module `RenderClosing`). The entity close scan stops at the first range behind it that ended earlier, and counts that range as closed. When entity ranges are sorted by their ends, every range is closed once, just before the character at its end, or by the trailing scan when it ends with the text. When they are not, a range can be skipped. Take links over characters 0 to 4 and 1 to 1 of `abcdef`. The block renders as `[a[b](u1)cdef`, and the first link is never closed (`RenderClosing.SkipExample`).

The output is modelled as a sequence of pieces, each either a character of the text or a tag string. This lets the contracts say:

- the characters of the text come out exactly once, in order;
- everything else the renderer writes is a tag.

Handlers (`styleItems`, `entityItems`) are laid over the defaults name by name.

## The parser

The parser (modules `Tokens`, `InlineParser`, `BlockParser`) takes the tokens as input:

- **Block-opening tokens** push a block. A top-level `*_open` token or a `fence` pushes one when it has a constructor, and so does a list item.
- **List-opening tokens** choose the item type for the list items that follow them.
- **An `inline` token** fills the most recent block. The inline pass runs over its children and builds:
  - the text;
  - the style ranges;
  - the entity ranges;
  - new entities under consecutive keys;
  - a history of opened tags, which a closing token uses to set the length of the range it closes.

Where the source throws a TypeError, the model returns `TypeError`. This happens for a list item before any list, and for an inline token before any block. The `<span style>` colour handler is modelled in `SpanStyles`.

The key counter carries on from one inline token to the next, so the entity range keys of the whole document rise block by block and range by range (`MarkdownFacts.MarkdownToDraftOutcome`). Each block's text, type and ranges come from the token that pushed it and the inline tokens that filled it (`BlockTexts.MarkdownToDraftBlocks`).

The module `Js` holds JavaScript's array and string operations as used by the source: `indexOf`, `splice`, `slice`, `replace` and `split`. The module `Draft` holds the raw document types.

## Where the code and the documentation differ

The model follows the code.

- **`sub` content.** The inline pass's content list reads `['code', 'sup', 'sup']`, so a `sub` token's text is dropped. Its range is still as long as that text (`InlineExamples.SubContentDropped`).
- **The tag history.** `updateHistoryTag` slices the history into a local variable and throws it away, so the history never shrinks. A second closing token of the same type therefore finds the same, innermost entry again. In `**a **b** c**`, the inner bold range grows to the end and the outer one keeps length 1 (`InlineExamples.NestedBoldExample`).
- **The renderer's test suite.** The suite in `test/draft-to-markdown.spec.js` expects behaviour this version of the renderer does not have. Examples are nested list indentation, ordered-list numbering beyond `1.`, and escaping of Markdown characters. The model follows `src/draft-to-markdown.js`.

## Model

| member | source | states |
|---|---|---|
| MarkdownTags.Merge | src/draft-to-markdown.js:195-202 | for styles and for entities alike, a user handler wins over the default of the same name and is the one stored; names without a user handler keep exactly the default handler, and no other names are registered |
| MarkdownTags.DefaultHeaderTags | src/draft-to-markdown.js:36-95 | a heading of level n (1 to 6) opens with n `#` and a space and closes with nothing |
| MarkdownTags.UpperHeaderTags | src/draft-to-markdown.js:36-65 | headings of levels 1 to 3 open with that many `#` and a space |
| MarkdownTags.LowerHeaderTags | src/draft-to-markdown.js:66-95 | headings of levels 4 to 6 open with that many `#` and a space |
| MarkdownTags.DefaultBlockTags | src/draft-to-markdown.js:6-105 | list items open with `- ` and `1. `, a blockquote with `> `, a code block is fenced with three back-ticks on their own lines, and `unstyled` has no handler |
| MarkdownTags.DefaultInlineTags | src/draft-to-markdown.js:107-145 | bold, italic, strikethrough and code wrap their text in `**`, `_`, `~~` and a back-tick |
| MarkdownTags.LinkTags | src/draft-to-markdown.js:154-164 | without a custom handler a link opens with `[` and closes with `](`, its url and `)` |
| Render.NestedCloseTags | src/draft-to-markdown.js:213-227 | closing a nested style emits only tags |
| Render.CloseNested | src/draft-to-markdown.js:211-229 | closing a style only appends tags, removes styles from the open list without adding any, and leaves the four cursors alone |
| Render.CloseNestedEmits | src/draft-to-markdown.js:213-227 | with n styles opened after the target: n closes from the innermost outwards, the target's close, then n reopens from the innermost outwards, and nothing else |
| Render.CloseNestedRemovesTarget | src/draft-to-markdown.js:211-229 | closing an open style removes exactly its first occurrence from the open list and keeps the others in order |
| Render.CloseStyles | src/draft-to-markdown.js:208-236 | the close-style scan only appends tags, keeps every open style a registered range of the block, and leaves the open cursors and entity cursors alone; which styles it closes is stated by `RenderClosing.CloseStylesOpen` |
| Render.EmitEntityTag | src/draft-to-markdown.js:242-244 | emitting an entity tag changes only the output, and only by appending tags |
| Render.CloseEntities | src/draft-to-markdown.js:239-250 | the close-entity scan only appends tags and changes neither the open styles nor any cursor but its own; which ranges it closes is stated by `RenderClosing.EntityClosesExact` and `RenderClosing.SkipExample` |
| Render.OpenStyles | src/draft-to-markdown.js:253-263 | the open-style scan only appends tags, only pushes onto the open list (registered ranges only), and moves no cursor but the style search cursor |
| Render.OpenEntities | src/draft-to-markdown.js:266-276 | the open-entity scan only appends tags and moves no cursor but the entity search cursor |
| Render.ClosePhase | src/draft-to-markdown.js:208-250 | the two close scans only append tags and keep the open list valid |
| Render.StyleOpenPhase | src/draft-to-markdown.js:208-263 | the close scans and the open-style scan only append tags and keep the open list valid |
| Render.Scans | src/draft-to-markdown.js:208-276 | the four scans before a character only append tags |
| Render.Step | src/draft-to-markdown.js:206-279 | one iteration adds exactly the current character to the characters written |
| Render.Run | src/draft-to-markdown.js:206-279 | after k iterations the characters written are exactly the first k characters of the text |
| Render.TrailingStyles | src/draft-to-markdown.js:282-288 | the trailing style closes only append tags |
| Render.TrailingEntities | src/draft-to-markdown.js:291-298 | the trailing entity closes only append tags; which ones is stated by `RenderClosing.TrailingEntitiesExact` |
| Render.Trailing | src/draft-to-markdown.js:282-298 | the trailing closes only append tags |
| Render.BodyPieces | src/draft-to-markdown.js:206-298 | the characters of a block's inline output are exactly its text: every character once, in order |
| Render.Separator | src/draft-to-markdown.js:306-310 | nothing after the last block; otherwise one newline exactly when this block and the next are both list items, else two |
| Render.RenderBlock | src/draft-to-markdown.js:185-313 | a block renders as its type's open string, then inline output whose characters are exactly the block's text in order, then its type's close string and the separator to the next block |
| Render.RenderBlocks | src/draft-to-markdown.js:328-330 | one rendered string per block |
| Render.DraftToMarkdown | src/draft-to-markdown.js:325-333 | a document without blocks renders as the empty string |
| RenderOpening.OpenStylesExact | src/draft-to-markdown.js:252-263 | the open-style scan from any index emits, in array order, the open strings of exactly the registered styles from that index on whose range starts at the current character, provided the ranges are sorted by offset |
| RenderOpening.OpenStylesCursor | src/draft-to-markdown.js:258-262 | the cursor the open-style scan stores, although relative to where the scan began, never passes a range that starts after the current character |
| RenderOpening.StyleOpenPhaseExact | src/draft-to-markdown.js:252-263 | with sorted ranges and a cursor behind every range still to start, the open-style scan emits the open strings of exactly the registered styles starting here and keeps the cursor behind every range starting at the next character or later |
| RenderOpening.OpenEntitiesExact | src/draft-to-markdown.js:265-276 | the open-entity scan emits, in array order, the open strings of exactly the entities with a handler whose range starts at the current character, provided the ranges are sorted by offset |
| RenderOpening.OpenEntitiesCursor | src/draft-to-markdown.js:271-275 | the cursor the open-entity scan stores, although relative, never passes a range that starts after the current character |
| RenderOpening.EntityOpenPhaseExact | src/draft-to-markdown.js:265-276 | with sorted entity ranges, the open-entity scan emits the open strings of exactly the entities starting here and keeps its cursor behind every later range |
| RenderOpening.CursorsBefore | src/draft-to-markdown.js:206-279 | with ranges sorted by offset, before every character both open cursors lie behind every range that has not started yet |
| RenderOpening.SortedOpens | src/draft-to-markdown.js:206-279 | with ranges sorted by offset, the output for each character is its close strings, then the open strings of exactly the registered styles starting there in array order, then those of exactly the entities starting there, then the character: every registered range starting inside the text is opened once, immediately before its first character |
| RenderClosing.RemainingMembers | src/draft-to-markdown.js:208-236 | an entry stays on the open list exactly when it was open and its range does not end at the current character |
| RenderClosing.CloseOneStep | src/draft-to-markdown.js:211-229 | closing one range that ends here keeps the open list valid and free of duplicates, and leaves the same entries for the rest of the scan to keep |
| RenderClosing.CloseStylesOpen | src/draft-to-markdown.js:208-236 | when every registered range ending at the character is open once, the close-style scan removes exactly those ranges from the open list, keeps the rest in order, and moves its cursor once per range that has ended by then |
| RenderClosing.FirstEndFrom | src/draft-to-markdown.js:239-250 | the first entity range from an index on that ends at a position or later: every range before it ends earlier |
| RenderClosing.CloseEntitiesSorted | src/draft-to-markdown.js:239-250 | with entity ranges sorted by end and none from the cursor on ending before the character, the scan appends the close tags of exactly the ranges ending here, in array order, and moves its cursor to the first range ending later |
| RenderClosing.CloseScanSorted | src/draft-to-markdown.js:239-250 | with sorted ends and the cursor at the first range ending here or later, the scan closes exactly the ranges ending here and leaves the cursor at the first range ending later |
| RenderClosing.StepCloses | src/draft-to-markdown.js:208-250 | with sorted ends, the close scans of one character append the style closes and then exactly the entity closes of the ranges ending there |
| RenderClosing.StepCursor | src/draft-to-markdown.js:206-279 | with sorted ends, one character moves the entity close cursor from the first range ending there or later to the first range ending after it |
| RenderClosing.CursorRun | src/draft-to-markdown.js:206-279 | with sorted ends, after k characters the entity close cursor stands at the first range ending at k or later |
| RenderClosing.EntityClosesExact | src/draft-to-markdown.js:239-250 | with sorted ends, before each character of the loop the close scans close exactly the entity ranges ending there, in array order, after the style closes |
| RenderClosing.TrailingEntitiesExact | src/draft-to-markdown.js:291-298 | the trailing entity scan appends the close tags of exactly the ranges from the cursor on that end with the text, in array order, and changes nothing else |
| RenderClosing.TrailingClosesExact | src/draft-to-markdown.js:282-298 | with sorted ends, the trailing scans close exactly the entity ranges ending with the text, after the trailing style closes: every entity range is closed once, at its end |
| RenderClosing.SkipRun | src/draft-to-markdown.js:239-250 | for two links over `abcdef`, characters 0 to 4 and 1 to 1, the loop state after every prefix: the second link's close moves the cursor, and the scan before `f` steps past it and stops |
| RenderClosing.SkipExample | src/draft-to-markdown.js:246-248 | with ends out of order the cursor skips a range: the first link, which ends before `f`, is never closed, and the block renders as `[a[b](u1)cdef` |
| RenderClosing.DefaultSkipLinks | src/draft-to-markdown.js:154-164 | the default link handler gives the two links of that example `[` and `](u0)`, `](u1)` |
| RenderFacts.PlainRun | src/draft-to-markdown.js:206-279 | for a block without ranges, the output after k characters is those characters, with no open style and all cursors at 0 |
| RenderFacts.PlainStep | src/draft-to-markdown.js:206-279 | for a block without ranges, one iteration appends just the character |
| RenderFacts.PlainScans | src/draft-to-markdown.js:208-276 | for a block without ranges, the scans change nothing |
| RenderFacts.PlainBody | src/draft-to-markdown.js:206-298 | a block without ranges renders its text unchanged |
| RenderFacts.OneStyleClose | src/draft-to-markdown.js:208-250 | with one registered style, the close scans emit its close string exactly at the character where it ends, empty the open list and advance the close cursor |
| RenderFacts.OneStyleOpen | src/draft-to-markdown.js:253-263 | with one registered style, the open scan emits its open string and pushes it exactly at its offset, and otherwise leaves the state as it is |
| RenderFacts.OneStyleStep | src/draft-to-markdown.js:206-279 | one iteration keeps the output equal to the reference rendering of one styled range |
| RenderFacts.OneStyleRun | src/draft-to-markdown.js:206-279 | after k characters the output is the reference rendering of the first k characters |
| RenderFacts.OneStyleTrailing | src/draft-to-markdown.js:282-298 | after the last character of a one-style block, the trailing scans complete the reference rendering: a style reaching the end of the text is closed there, one closed inside the loop is not closed again |
| RenderFacts.OneStyleBody | src/draft-to-markdown.js:206-298 | a block with one registered style renders as the text before the range, the open string, the range's text, the close string and the rest |
| RenderFacts.EmitEntityText | src/draft-to-markdown.js:242-244 | emitting an entity tag appends the handler's string, or nothing for an unregistered type |
| RenderFacts.OneEntityScans | src/draft-to-markdown.js:208-276 | with one entity range, the scans emit its close string at its end and its open string at its offset, and only then |
| RenderFacts.OneEntityStep | src/draft-to-markdown.js:206-279 | one iteration keeps the output equal to the reference rendering of one entity range |
| RenderFacts.OneEntityRun | src/draft-to-markdown.js:206-279 | after k characters the output is the reference rendering of the first k characters |
| RenderFacts.OneEntityTrailing | src/draft-to-markdown.js:291-298 | after the last character of a one-entity block, the trailing scans complete the reference rendering: a range ending exactly at the end of the text is closed there, one closed inside the loop is not closed again |
| RenderFacts.OneEntityBody | src/draft-to-markdown.js:206-298 | a block with one entity range renders as the text before it, the entity's open string, the range's text, its close string and the rest |
| RenderFacts.LinkBody | src/draft-to-markdown.js:154-164 | a block with one link renders as the text before it, `[`, the link text, `](`, the url, `)` and the rest |
| RenderFacts.TrailingStylesOrder | src/draft-to-markdown.js:282-288 | the trailing scan emits, in array order, the close string of every registered style from the cursor on that reaches the end of the text, whatever the nesting |
| RenderFacts.BlockInDocument | src/draft-to-markdown.js:325-333 | the document's Markdown begins with the Markdown of the blocks up to and including block i, in order |
| RenderFacts.SingleBlockDocument | src/draft-to-markdown.js:185-313 | a one-block document renders as the block's open string, its inline output and its close string, with no separator |
| RenderExamples.DefaultOneStyle | src/draft-to-markdown.js:185-313 | with the default handlers, a one-block document with one styled range wraps that range in the style's tags |
| RenderExamples.BoldExample | test/draft-to-markdown.spec.js:218-225 | `Hello I am bold yay` with characters 6 to 14 bold renders as `Hello **I am bold** yay` |
| RenderExamples.CodeAtEndExample | test/draft-to-markdown.spec.js:207-214 | inline code reaching the end of the block is closed by the trailing scan: ``Hello `I am some inline code` `` |
| RenderExamples.PlainBlock | src/draft-to-markdown.js:185-313 | a block without ranges renders as its open string, its text, its close string and the separator |
| Tokens.Resolve | src/markdown-to-draft.js:274-276 | for block types, entities and styles alike, a user table entry replaces the default of the same name; names without a user entry keep exactly the default entry |
| InlineParser.AddEntityBlock | src/markdown-to-draft.js:109-130 | while no stored key is above the counter, the key handed out is fresh, no earlier entity is overwritten and the property still holds afterwards; the entity is stored under that key, the key set grows by it alone, and the new range points at it from the end of the text |
| InlineParser.LastTagIndex | src/markdown-to-draft.js:133-139 | the position of the last history entry with the tag, or -1 when none has it |
| InlineParser.UpdateHistoryTag | src/markdown-to-draft.js:132-142 | the range of the most recent entry with the tag now ends at the end of the text, with its offset and style or key kept; every other range, the text, the history and the keys are unchanged; with no such entry nothing changes |
| InlineParser.InlineStep | src/markdown-to-draft.js:163-222 | one child extends the text without rewriting it, keeps every history entry pointing at a range, never drops a range or history entry, and hands out one key per entity range it adds; what each kind of child adds is stated by the `InlineFacts` step lemmas |
| InlineParser.InlineRun | src/markdown-to-draft.js:160-225 | the history refers only to ranges that exist, and the key counter has advanced by the number of entity ranges |
| InlineFacts.InlineTextStep | src/markdown-to-draft.js:164-174 | each child appends exactly its own text: a text child its content, a soft break a newline, `code` and `sup` their content, everything else nothing |
| InlineFacts.InlineText | src/markdown-to-draft.js:160-225 | the block text is the text of the children, in order |
| InlineFacts.KeysStep | src/markdown-to-draft.js:177-181 | a child keeps the keys consecutive and the entities exactly the keys handed out |
| InlineFacts.InlineKeys | src/markdown-to-draft.js:109-130 | the i-th entity range has key counter + 1 + i, and the new entities are exactly the keys handed out |
| InlineFacts.StepKeepsRanges | src/markdown-to-draft.js:132-142 | no child moves an existing range or changes its style or key: a close changes only a length |
| InlineFacts.StyleOpenerStep | src/markdown-to-draft.js:168-176 | a style opener adds one style range at the current end of the text with its style, as long as the token's content or 1 when it has none, and a history entry for it; entity ranges, keys and entities stay as they are |
| InlineFacts.ContentStyleCovers | src/markdown-to-draft.js:117-120 | a `code` or `sup` child with content opens a range over exactly the text it appends: reading the range back out of the text gives the token's content |
| InlineFacts.EntityOpenerStep | src/markdown-to-draft.js:177-180 | an entity opener adds a range of length 1 at the current end of the text under the next key, stores the constructor's entity there and records a history entry; text and style ranges stay as they are |
| InlineFacts.CloserStep | src/markdown-to-draft.js:182-186 | a closing child whose opening type has a style or entity handler sets the length of the range of the most recent history entry of that opening type, and does nothing else |
| InlineFacts.NonOpenerStep | src/markdown-to-draft.js:164-186 | any other child adds no range, no history entry, no key and no entity |
| InlineFacts.StyleOffsetsStep | src/markdown-to-draft.js:168-176 | one child keeps the style range of every earlier opener at the text length before that opener |
| InlineFacts.EntityOffsetsStep | src/markdown-to-draft.js:177-180 | one child keeps the entity range of every earlier opener at the text length before that opener |
| InlineFacts.InlineOffsets | src/markdown-to-draft.js:160-225 | the pass makes one style range per style opener and one entity range per entity opener, in order, and the range of the opener at p starts at the length of the text of the children before p, with that opener's style |
| InlineFacts.HistoryStep | src/markdown-to-draft.js:175-186 | a child keeps one history entry per range |
| InlineFacts.InlineShape | src/markdown-to-draft.js:160-225 | keys aside, the inline pass does not depend on the counter it starts from: for any two counters the text, the style ranges, the tag history and the offsets and lengths of the entity ranges are the same |
| InlineFacts.InlineHistoryCounts | src/markdown-to-draft.js:132-142 | the history holds one entry per range ever opened, however many tags were closed |
| InlineFacts.HistoryGrows | src/markdown-to-draft.js:140-141 | the history after fewer children is a prefix of the history after more |
| InlineExamples.DefaultInlineTables | src/markdown-to-draft.js:97-105 | by default `strong_open` is bold, `sub` subscript and `sup` superscript, and `strong_close` is neither a style nor an entity |
| InlineExamples.StrongCloseTag | src/markdown-to-draft.js:185-186 | `strong_close` is a closing token and closes `strong_open` |
| InlineExamples.SubContentDropped | src/markdown-to-draft.js:168-176 | a `sub` token's content is not appended although its range is as long as that content; a `sup` token's content is appended |
| InlineExamples.BoldOpenStep | src/markdown-to-draft.js:168-176 | `strong_open` adds a bold range of length 1 at the end of the text and a history entry for it |
| InlineExamples.TextStep | src/markdown-to-draft.js:164-165 | a text child appends its content and changes nothing else |
| InlineExamples.BoldCloseStep | src/markdown-to-draft.js:185-186 | `strong_close` updates the most recent `strong_open` entry |
| InlineExamples.NestedBoldFirst | src/markdown-to-draft.js:160-225 | after `**a ` one bold range at 0 of length 1 |
| InlineExamples.NestedBoldInnerOpen | src/markdown-to-draft.js:168-176 | after `**a **` the inner bold opens a second range at 2, the length of `a ` |
| InlineExamples.NestedBoldSecond | src/markdown-to-draft.js:160-225 | after `**a **b` a second bold range at 2 of length 1 |
| InlineExamples.NestedBoldThird | src/markdown-to-draft.js:132-142 | the first close finds the inner entry |
| InlineExamples.NestedBoldLast | src/markdown-to-draft.js:132-142 | the second close finds the inner entry again |
| InlineExamples.NestedBoldExample | src/markdown-to-draft.js:132-142 | the children of `**a **b** c**` (texts `a `, `b` and ` c`) give text `a b c`; the outer bold range keeps length 1 and the inner one, opened at 2, reaches the end |
| BlockParser.FillBlockContent | src/markdown-to-draft.js:295-304 | an inline token gives the block the inline pass's text and ranges, unless its one child has a block constructor, whose text and type then win; depth and data are kept |
| BlockParser.TokenStep | src/markdown-to-draft.js:278-319 | a token sets the list item type exactly when it opens a list, never lowers the key counter, pushes at most one block, and rewrites no block but the last |
| BlockParser.TokenStepBlocks | src/markdown-to-draft.js:292-318 | an inline token rewrites the most recent block into its filled form and pushes nothing; any other token keeps the blocks and may push only its constructor's block |
| MarkdownFacts.LastListOpen | src/markdown-to-draft.js:280-285 | the position of the last list-opening token, or -1 when there is none |
| MarkdownFacts.ParseTracks | src/markdown-to-draft.js:278-320 | while the fold has not thrown, its list item type and block count are the references' |
| MarkdownFacts.OkStep | src/markdown-to-draft.js:286-296 | one more token keeps the fold running exactly when it was running and that token does not crash |
| MarkdownFacts.ParseOk | src/markdown-to-draft.js:278-320 | the fold keeps running exactly while no token has crashed |
| MarkdownFacts.TrackStep | src/markdown-to-draft.js:278-319 | a token throws exactly when it crashes by the reference, and otherwise keeps the list type and block count equal to the references |
| MarkdownFacts.ParseOutcome | src/markdown-to-draft.js:278-320 | the fold succeeds exactly when no token crashes; its list type is that of the last list opened and it holds one block per block-pushing token |
| MarkdownFacts.EntitiesInline | src/markdown-to-draft.js:295-306 | an inline token after a block keeps the entity map equal to the keys 0 to the counter, with every range resolving |
| MarkdownFacts.EntitiesStep | src/markdown-to-draft.js:278-319 | every token that does not throw keeps the entity keys consecutive and every range resolving |
| MarkdownFacts.ParseEntities | src/markdown-to-draft.js:253-320 | after any prefix that does not throw, the entity map holds exactly keys 0 to the counter and every entity range resolves |
| MarkdownFacts.KeysInline | src/markdown-to-draft.js:292-306 | an inline token after a block gives the most recent block entity keys numbered on from the counter, above every key left in the earlier blocks, so the range keys read in document order still rise and none is above the new counter |
| MarkdownFacts.KeysPush | src/markdown-to-draft.js:313-317 | a pushed block has no entity ranges, so the document's range keys are unchanged |
| MarkdownFacts.KeysStep | src/markdown-to-draft.js:278-319 | every token that does not throw keeps the range keys rising in document order and none above the counter |
| MarkdownFacts.ParseKeys | src/markdown-to-draft.js:253-320 | after any prefix that does not throw, the entity range keys, read block by block and range by range, rise, and none is above the last key handed out |
| MarkdownFacts.RisingKeysRanges | src/markdown-to-draft.js:109-114 | keys that rise along the document's key list rise range by range: a range in an earlier block, or earlier in the same block, has the smaller key |
| MarkdownFacts.BlocksSettle | src/markdown-to-draft.js:296-299 | once a later block exists, an earlier block never changes again |
| BlockTexts.LastFill | src/markdown-to-draft.js:292-296 | the last token so far that is an inline token finding a given block the most recent one, or -1 when there is none |
| BlockTexts.LastSingleFill | src/markdown-to-draft.js:300-304 | the last token so far that fills a given block and whose only child has a block constructor, or -1: no later filling token has such a child |
| BlockTexts.FillBlockFills | src/markdown-to-draft.js:295-304 | whatever counter the inline pass starts from, the filled block has the token's text, the type of its single block child if it has one (else the old type), the style ranges of the token's inline pass and the spans of its entity ranges, and the old block's depth and data |
| BlockTexts.PushOf | src/markdown-to-draft.js:307-318 | the token that pushed a given block, or -1 |
| BlockTexts.FilledStep | src/markdown-to-draft.js:295-304 | an inline token gives the block it fills the text, type, style ranges, entity spans, depth and data its reference names |
| BlockTexts.PushedStep | src/markdown-to-draft.js:307-318 | a pushed block is its constructor's block, not filled yet |
| BlockTexts.FromTokensStep | src/markdown-to-draft.js:278-319 | one token keeps every block equal to its reference |
| BlockTexts.FromTokensRun | src/markdown-to-draft.js:278-320 | after every prefix that does not throw, every block was pushed by a block-opening token; it is its constructor's block until an inline token fills it, and after that it has the text, style ranges and entity spans of the last inline token that filled it, the type of the last single block child among the filling tokens (or the constructor's type when there was none), and the constructor's depth and data |
| BlockTexts.MarkdownToDraftBlocks | src/markdown-to-draft.js:252-326 | each block the parser returns comes from the token that pushed it. It is exactly its constructor's block when no inline token filled it. Otherwise it has the text of the last inline token that found it the most recent block (or that token's single child's constructor text), that token's style ranges and entity spans, the type of the last single block child among the filling tokens (or the constructor's type, so `# Hello` stays `header-one`), and the constructor's depth and data |
| MarkdownFacts.MarkdownToDraftOutcome | src/markdown-to-draft.js:252-326 | the parser throws exactly when some token crashes; otherwise it returns one block per block-pushing token, the key of every entity range of every block names an entry of the entity map, and the range keys rise in document order, block by block and range by range, so no two ranges share a key |
| MarkdownExamples.HeadingBlock | src/markdown-to-draft.js:51-65 | a top-level heading pushes an empty block named after its level |
| MarkdownExamples.HeadingRoundTrip | src/markdown-to-draft.js:51-65 | the parser's heading names for levels 1 to 6 are those the renderer writes back with that many `#` |
| MarkdownExamples.FenceBlock | src/markdown-to-draft.js:42-49 | a top-level fence pushes a code block holding its content, or nothing when it has none |
| MarkdownExamples.CustomBlock | src/markdown-to-draft.js:307-318 | a custom constructor for a top-level opening token decides the new block's type, text and data, with depth 0 unless it sets one |
| MarkdownExamples.ImageDataFields | src/markdown-to-draft.js:83-92 | an image's data has type `placeholder`, its `src` when present, and its `alt` exactly when the alt text has at least two characters |
| MarkdownExamples.CrashExamples | src/markdown-to-draft.js:286-297 | a list item with no list before it throws, and so does an inline token before any block |
| MarkdownExamples.DefaultBulletTables | src/markdown-to-draft.js:35-40 | the default tables turn an unordered list item into an empty unordered list block and have no entry for the list's other tokens |
| MarkdownExamples.EmptyBulletFirst | src/markdown-to-draft.js:281-282 | `bullet_list_open` pushes no block and makes list items unordered |
| MarkdownExamples.EmptyBulletSecond | src/markdown-to-draft.js:287-318 | a list item inside a bullet list pushes an empty unordered list block |
| MarkdownExamples.EmptyBulletRun | src/markdown-to-draft.js:278-320 | the list's closing tokens change nothing |
| MarkdownExamples.EmptyBulletItem | test/markdown-to-draft.spec.js:227-233 | `-` becomes one empty unordered list block |
| MarkdownExamples.BoldSentenceOpen | src/markdown-to-draft.js:163-176 | after `Hello **I am bold` the bold range starts at 6 |
| MarkdownExamples.BoldSentenceInline | src/markdown-to-draft.js:160-225 | the closing `**` sets the bold range's length to 9 |
| MarkdownExamples.DefaultParagraphTables | src/markdown-to-draft.js:9-14 | the default tables turn `paragraph_open` into an empty unstyled block and have no `paragraph_close` entry |
| MarkdownExamples.ParagraphOpenStep | src/markdown-to-draft.js:307-318 | a top-level `paragraph_open` pushes an empty unstyled block |
| MarkdownExamples.ParagraphCloseStep | src/markdown-to-draft.js:307 | a `paragraph_close` changes nothing |
| MarkdownExamples.BoldInlineStep | src/markdown-to-draft.js:292-306 | the inline token fills the paragraph's block with the sentence and its bold range |
| MarkdownExamples.BoldParagraphFirst | src/markdown-to-draft.js:278-319 | after `paragraph_open` there is one empty block |
| MarkdownExamples.BoldParagraphSecond | src/markdown-to-draft.js:278-319 | after the inline token the block holds the sentence |
| MarkdownExamples.BoldParagraphRun | src/markdown-to-draft.js:278-319 | the paragraph's tokens fold into one unstyled block with one bold range |
| MarkdownExamples.BoldParagraphParse | src/markdown-to-draft.js:252-326 | the paragraph parses to one unstyled block with one bold range and no entities |
| MarkdownExamples.BoldBlockMarkdown | src/draft-to-markdown.js:325-333 | the parsed block renders with its bold range between `**` |
| MarkdownExamples.BoldRoundTrip | test/idempotency.spec.js:61-67 | parsing `Hello **I am bold** I am not bold.` and rendering the result gives the same Markdown back |
| SpanStyles.DeclarationStyles | src/markdown-to-draft.js:231-238 | no more styles than declarations |
| SpanStyles.HandleSpanStyles | src/markdown-to-draft.js:227-242 | no styles without a non-empty `style` attribute, and at most one per `;`-separated declaration |
| SpanStyles.PairStyle | src/markdown-to-draft.js:232-235 | a declaration splitting into a colour name and a value yields the name, a dash and the value |
| SpanStyles.ColourDeclarationStyle | src/markdown-to-draft.js:232-235 | a colour declaration `name:value` yields `name-value` |
| SpanStyles.DeclarationStyleSound | src/markdown-to-draft.js:232-235 | a declaration that yields a style is a colour declaration split at its one colon |
| SpanStyles.DeclarationStylesMembers | src/markdown-to-draft.js:231-238 | the styles collected are exactly those of the declarations that yield one |
| SpanStyles.ColourStylesComplete | src/markdown-to-draft.js:227-242 | every colour declaration is reported as its name, a dash and its value |
| SpanStyles.ColourStylesSound | src/markdown-to-draft.js:227-242 | every style reported comes from a colour declaration |

## Left out

- Render.DraftToMarkdown: requires every entity range of every block to name an entry of the entity map. The source fails only when it reaches an unresolved range. The parser's entity keys always meet the requirement (`MarkdownFacts.MarkdownToDraftOutcome`). This is not the same as the source renderer accepting the parser's output: see the `BlockParser.NewBlock` line below.
- Render.DraftToMarkdown: its contract covers only the empty document. Rendering is characterised by lemmas for these cases:
  - blocks without ranges;
  - one styled range;
  - one entity range;
  - opening with ranges sorted by offset;
  - the trailing scan;
  - prefixes of the document.
- Opening is proved (`RenderOpening.SortedOpens`) only for ranges sorted by offset. With unsorted ranges a range can be skipped: for styles at offsets 2 and 0, in that order, the scan before each of the first two characters stops at the first range, and the second is never opened.
- No general theorem covers arbitrary overlapping style ranges. The close cursor advances on any close, so ranges closed out of array order can be skipped. For example, styles bold 0-3 and italic 1-2 on `abcd` never close the bold.
- CloseStyles: which styles the scan closes is stated only when every registered range ending at the character is open once (`RenderClosing.CloseStylesOpen`); what the scan emits is stated per range by `Render.CloseNestedEmits`. A range of length 0 is not open when it closes. `indexOf` then gives -1, and `splice(-1, 1)` drops the last open style. The open list after such a scan is not characterised.
- CloseEntities: which ranges the scan closes is stated only for entity ranges sorted by their ends (`RenderClosing.EntityClosesExact`). For unsorted ends the model shows one skipped range (`RenderClosing.SkipExample`) and proves no general statement.
- TrailingEntities: exact for every input (`RenderClosing.TrailingEntitiesExact`), but the cursor it starts from is characterised only for sorted ends (`RenderClosing.CursorRun`).
- The Markdown tokenizer (Remarkable), its options and plugins (`remarkableOptions`, `remarkablePlugins`) are not modelled. The token stream is the parser's input.
- The `htmltag` branch of the inline pass leaves the state unchanged here. Its parsing needs a browser `DOMParser`, which is not part of this model. The branch also covers the user's `htmlBlockPlugins` and the `span` plugin. The colour handler it calls is modelled on its own (`SpanStyles.HandleSpanStyles`).
- The global key counter is threaded through the state instead of kept as a module variable. It is reset at the start of each `markdownToDraft` call, as in the source.
- Strings are sequences of characters. JavaScript's UTF-16 code units, and therefore the length of text outside the basic plane, are not modelled.
- A JavaScript value that is `undefined` is modelled as a missing map key or `None`. Object prototype keys (`constructor`, `toString`) are not modelled as table entries.
- BlockParser.NewBlock: a new block starts with empty range lists, where the source block has none. Every default constructor except `fence` returns only a type and a text, and the push adds only `depth`. So a block that no inline token fills has neither `inlineStyleRanges` nor `entityRanges`. The source renderer then throws a TypeError on it: it reads `inlineStyleRanges` before each character (src/draft-to-markdown.js:208) and after the last one (:282). Rendering the parse of `-` is such a case. The model renders such a block as one without ranges and does not model the throw.
- Fields a block constructor returns besides type, text, depth and data are not modelled. Custom constructors may add other fields.
- `block.key`, the block's `data` on the renderer side, and the renderer's handling of `depth` are not modelled, because this version of the renderer does not read them.
